/** Swipe gestures on a task row (src/components/todoList/SwipeableTask.tsx): a swipe right past the
    threshold toggles completion, a swipe left past it deletes the task. */
module SwipeableTask {
  import opened Wrappers
  import Js

  const SwipeThreshold := 80
  /** How far the row may be dragged either way. */
  const SwipeLimit := 150

  /** `Math.max(-150, Math.min(150, diff))` */
  function Clamp(diff: int): (r: int)
    ensures -SwipeLimit <= r <= SwipeLimit
    ensures -SwipeLimit <= diff <= SwipeLimit ==> r == diff
    ensures diff > SwipeLimit ==> r == SwipeLimit
    ensures diff < -SwipeLimit ==> r == -SwipeLimit
  {
    if diff > SwipeLimit then SwipeLimit else if diff < -SwipeLimit then -SwipeLimit else diff
  }

  /** The widths of the "complete" action on the left and the "delete" action on the right. */
  function ActionWidths(offset: int): (r: (nat, nat))
    ensures r.0 == 0 || r.1 == 0
    ensures r.0 + r.1 == (if offset < 0 then -offset else offset)
    ensures r.0 > 0 <==> offset > 0
  {
    (if offset > 0 then offset else 0, if offset < 0 then -offset else 0)
  }

  /** What a task row shows: its props. `id` is the task id as text. */
  datatype TaskProps = TaskProps(id: string, name: string, projectId: int, completed: bool, dueDate: Option<string>)

  /** The mutations a swipe can issue; an id is None when `+id` is NaN. */
  datatype SwipeRequest =
    | UpdateTask(id: Option<int>, name: string, projectId: int, completed: bool, dueDate: Option<string>)
    | RemoveTask(id: Option<int>)

  /** `dueDate || null`: an empty date is sent as null. */
  function DueDateOrNull(dueDate: Option<string>): (r: Option<string>)
    ensures r.Some? <==> dueDate.Some? && dueDate.value != ""
    ensures r.Some? ==> r == dueDate
  {
    if dueDate.Some? && dueDate.value != "" then dueDate else None
  }

  /** The request a released swipe makes, decided by the offset at release. */
  function SwipeAction(offset: int, task: TaskProps): (r: Option<SwipeRequest>)
    ensures offset > SwipeThreshold <==> r.Some? && r.value.UpdateTask?
    ensures offset < -SwipeThreshold <==> r.Some? && r.value.RemoveTask?
    ensures r.Some? ==> r.value.id == Js.ToNumber(Js.Str(task.id))
    ensures r.Some? && r.value.UpdateTask? ==>
      && r.value.name == task.name && r.value.projectId == task.projectId
      && r.value.completed == !task.completed && r.value.dueDate == DueDateOrNull(task.dueDate)
  {
    var id := Js.ToNumber(Js.Str(task.id));
    if offset > SwipeThreshold then
      Some(UpdateTask(id, task.name, task.projectId, !task.completed, DueDateOrNull(task.dueDate)))
    else if offset < -SwipeThreshold then
      Some(RemoveTask(id))
    else
      None
  }

  /** Clamping only limits how far the row moves: the request a release makes is the one the
      unclamped drag would make, since the limit lies beyond the threshold on both sides. */
  lemma ClampKeepsAction(diff: int, task: TaskProps)
    ensures SwipeAction(Clamp(diff), task) == SwipeAction(diff, task)
  {
  }

  class SwipeableTask {
    const task: TaskProps
    var swipeOffset: int
    var isSwiping: bool
    var startX: int

    ghost predicate Valid()
      reads this
    {
      -SwipeLimit <= swipeOffset <= SwipeLimit
    }

    constructor (task: TaskProps)
      ensures Valid() && this.task == task
      ensures swipeOffset == 0 && !isSwiping && startX == 0
    {
      this.task := task;
      swipeOffset, isSwiping, startX := 0, false, 0;
    }

    /** `handleTouchStart`: remembers where the finger went down. */
    method TouchStart(clientX: int)
      requires Valid()
      modifies this`startX, this`isSwiping
      ensures Valid()
      ensures startX == clientX && isSwiping
    {
      startX := clientX;
      isSwiping := true;
    }

    /** `handleTouchMove`: the row follows the finger, clamped; ignored unless a swipe is under way. */
    method TouchMove(clientX: int)
      requires Valid()
      modifies this`swipeOffset
      ensures Valid()
      ensures !isSwiping ==> swipeOffset == old(swipeOffset)
      ensures isSwiping ==> swipeOffset == Clamp(clientX - startX)
    {
      if !isSwiping {
        return;
      }
      var diff := clientX - startX;
      swipeOffset := Clamp(diff);
    }

    /** `handleTouchEnd`: issues the request the offset calls for, then springs the row back. */
    method TouchEnd() returns (request: Option<SwipeRequest>)
      requires Valid()
      modifies this`swipeOffset, this`isSwiping
      ensures Valid()
      ensures request == SwipeAction(old(swipeOffset), task)
      ensures swipeOffset == 0 && !isSwiping
    {
      isSwiping := false;
      request := SwipeAction(swipeOffset, task);
      swipeOffset := 0;
    }
  }
}
