/** The order in which the task list shows its tasks (src/components/todoList/SortableTaskList.tsx):
    a stable sort by completion, due date and position, a frozen order kept for a while after a task's
    completion is toggled, and the guards of a drag-and-drop. */
module TaskOrdering {
  import opened Wrappers
  import Text

  datatype Task = Task(id: string, name: string, projectId: int, completed: bool, position: int,
                       dueDate: Option<string>)

  /** `Boolean(task.dueDate)`: present and not the empty string. */
  predicate HasDueDate(t: Task) {
    t.dueDate.Some? && t.dueDate.value != ""
  }

  /** What `getDueDateSortKey` returns: `null`, a number of milliseconds, or the date text itself. */
  datatype DueKey = NoKey | Millis(ms: int) | DateText(text: string)

  /** The date part of a due date: its first ten characters when it holds a `T`. */
  function DateOnly(value: string): (r: string)
    ensures Text.Contains(value, "T") ==> r == value[..if |value| < 10 then |value| else 10]
    ensures !Text.Contains(value, "T") ==> r == value
  {
    if Text.Contains(value, "T") then value[..if |value| < 10 then |value| else 10] else value
  }

  /** `getDueDateSortKey`, with `Date.parse` given as `parse` (None standing for NaN). */
  function DueDateSortKey(value: Option<string>, parse: string -> Option<int>): (r: DueKey)
    ensures r.NoKey? <==> value.None? || value.value == ""
    ensures r.DateText? ==> r.text == DateOnly(value.value) && parse(DateOnly(value.value) + "T00:00:00Z").None?
    ensures r.Millis? ==> parse(DateOnly(value.value) + "T00:00:00Z") == Some(r.ms)
  {
    if value.None? || value.value == "" then NoKey
    else
      var dateOnly := DateOnly(value.value);
      match parse(dateOnly + "T00:00:00Z")
      case None => DateText(dateOnly)
      case Some(ms) => Millis(ms)
  }

  /** The time of day of a timestamp does not affect its key. */
  lemma TimeOfDayIgnored(date: string, rest1: string, rest2: string, parse: string -> Option<int>)
    requires |date| == 10 && !Text.Contains(date, "T")
    requires Text.Contains(rest1, "T") && Text.Contains(rest2, "T")
    ensures DueDateSortKey(Some(date + rest1), parse) == DueDateSortKey(Some(date + rest2), parse)
  {
    Text.ContainsAppend(date, rest1, "T");
    Text.ContainsAppend(date, rest2, "T");
    assert (date + rest1)[..10] == date && (date + rest2)[..10] == date;
  }

  /** `String(key)` */
  function KeyText(k: DueKey): string {
    match k
    case NoKey => "null"
    case Millis(ms) => Text.IntToDecimal(ms)
    case DateText(s) => s
  }

  /** The four groups of the base order: incomplete and dated, incomplete and undated, completed and
      dated, completed and undated. */
  function Rank(t: Task): (r: nat)
    ensures r < 4
  {
    (if t.completed then 2 else 0) + (if HasDueDate(t) then 0 else 1)
  }

  /** The comparator of `normallySortedTasks`, with `localeCompare` passed in. */
  function Compare(a: Task, b: Task, parse: string -> Option<int>, localeCompare: (string, string) -> int): (r: int)
    ensures Rank(a) < Rank(b) ==> r < 0
    ensures Rank(a) > Rank(b) ==> r > 0
    ensures Rank(a) == Rank(b) && !HasDueDate(a) ==> r == a.position - b.position
    ensures Rank(a) == Rank(b) && HasDueDate(a) ==>
      var ka := DueDateSortKey(a.dueDate, parse);
      var kb := DueDateSortKey(b.dueDate, parse);
      && (ka == kb ==> r == a.position - b.position)
      && (ka.Millis? && kb.Millis? ==> (ka.ms < kb.ms ==> r < 0) && (ka.ms > kb.ms ==> r > 0))
      && (ka != kb && !(ka.Millis? && kb.Millis?) ==> r == localeCompare(KeyText(ka), KeyText(kb)))
  {
    if a.completed != b.completed then
      if a.completed then 1 else -1
    else if HasDueDate(a) != HasDueDate(b) then
      if HasDueDate(a) then -1 else 1
    else
      var ka := DueDateSortKey(a.dueDate, parse);
      var kb := DueDateSortKey(b.dueDate, parse);
      if HasDueDate(a) && HasDueDate(b) && ka != kb then
        if ka.Millis? && kb.Millis? then ka.ms - kb.ms
        else localeCompare(KeyText(ka), KeyText(kb))
      else a.position - b.position
  }

  /** Places `x` before the first task it does not sort after. */
  function InsertTask(x: Task, s: seq<Task>, parse: string -> Option<int>, localeCompare: (string, string) -> int): (r: seq<Task>)
    ensures multiset(r) == multiset{x} + multiset(s)
    ensures |r| > 0 && (r[0] == x || (s != [] && r[0] == s[0]))
  {
    if s == [] || Compare(x, s[0], parse, localeCompare) <= 0 then [x] + s
    else
      assert s == [s[0]] + s[1..];
      [s[0]] + InsertTask(x, s[1..], parse, localeCompare)
  }

  /** `[...tasks].sort(comparator)`: a stable sort, here an insertion sort (equal tasks keep their
      order). */
  function SortTasks(tasks: seq<Task>, parse: string -> Option<int>, localeCompare: (string, string) -> int): (r: seq<Task>)
    ensures multiset(r) == multiset(tasks)
  {
    if tasks == [] then []
    else
      assert tasks == [tasks[0]] + tasks[1..];
      InsertTask(tasks[0], SortTasks(tasks[1..], parse, localeCompare), parse, localeCompare)
  }

  ghost predicate RanksAscending(s: seq<Task>) {
    forall i :: 0 <= i < |s| - 1 ==> Rank(s[i]) <= Rank(s[i + 1])
  }

  lemma {:induction false} InsertKeepsRanks(x: Task, s: seq<Task>, parse: string -> Option<int>, localeCompare: (string, string) -> int)
    requires RanksAscending(s)
    ensures RanksAscending(InsertTask(x, s, parse, localeCompare))
  {
    if !(s == [] || Compare(x, s[0], parse, localeCompare) <= 0) {
      InsertKeepsRanks(x, s[1..], parse, localeCompare);
      var t := InsertTask(x, s[1..], parse, localeCompare);
      assert Rank(s[0]) <= Rank(t[0]);
      assert forall i :: 1 <= i < |t| ==> ([s[0]] + t)[i] == t[i - 1];
    }
  }

  lemma {:induction false} RanksAscendingPairwise(s: seq<Task>, i: nat, j: nat)
    requires RanksAscending(s) && i <= j < |s|
    ensures Rank(s[i]) <= Rank(s[j])
    decreases j - i
  {
    if i < j {
      RanksAscendingPairwise(s, i + 1, j);
    }
  }

  /** Whatever `localeCompare` does, the sorted list shows every incomplete task before every completed
      one, and within each of the two, the tasks with a due date before those without. */
  lemma {:induction false} SortGroupsTasks(tasks: seq<Task>, parse: string -> Option<int>, localeCompare: (string, string) -> int)
    ensures var r := SortTasks(tasks, parse, localeCompare);
      forall i, j :: 0 <= i < j < |r| ==>
        && (!r[j].completed ==> !r[i].completed)
        && (r[i].completed == r[j].completed && HasDueDate(r[j]) ==> HasDueDate(r[i]))
  {
    SortRanksAscending(tasks, parse, localeCompare);
    var r := SortTasks(tasks, parse, localeCompare);
    forall i, j | 0 <= i < j < |r| ensures Rank(r[i]) <= Rank(r[j]) {
      RanksAscendingPairwise(r, i, j);
    }
  }

  lemma {:induction false} SortRanksAscending(tasks: seq<Task>, parse: string -> Option<int>, localeCompare: (string, string) -> int)
    ensures RanksAscending(SortTasks(tasks, parse, localeCompare))
  {
    if tasks != [] {
      SortRanksAscending(tasks[1..], parse, localeCompare);
      InsertKeepsRanks(tasks[0], SortTasks(tasks[1..], parse, localeCompare), parse, localeCompare);
    }
  }

  /** The task's due date parses, when it has one. */
  ghost predicate DateParses(t: Task, parse: string -> Option<int>) {
    HasDueDate(t) ==> DueDateSortKey(t.dueDate, parse).Millis?
  }

  /** The parsed due date, 0 for a task without one. */
  ghost function DueMillis(t: Task, parse: string -> Option<int>): int {
    var k := DueDateSortKey(t.dueDate, parse);
    if HasDueDate(t) && k.Millis? then k.ms else 0
  }

  /** The base order spelled out, for tasks whose due dates parse: by group, then by due date, then by
      position. */
  ghost predicate NotAfter(a: Task, b: Task, parse: string -> Option<int>) {
    || Rank(a) < Rank(b)
    || (Rank(a) == Rank(b) && DueMillis(a, parse) < DueMillis(b, parse))
    || (Rank(a) == Rank(b) && DueMillis(a, parse) == DueMillis(b, parse) && a.position <= b.position)
  }

  lemma CompareAgrees(a: Task, b: Task, parse: string -> Option<int>, localeCompare: (string, string) -> int)
    requires DateParses(a, parse) && DateParses(b, parse)
    ensures Compare(a, b, parse, localeCompare) <= 0 ==> NotAfter(a, b, parse)
    ensures Compare(a, b, parse, localeCompare) > 0 ==> NotAfter(b, a, parse)
  {
  }

  lemma NotAfterTransitive(a: Task, b: Task, c: Task, parse: string -> Option<int>)
    requires NotAfter(a, b, parse) && NotAfter(b, c, parse)
    ensures NotAfter(a, c, parse)
  {
  }

  ghost predicate SortedByBaseOrder(s: seq<Task>, parse: string -> Option<int>) {
    forall i :: 0 <= i < |s| - 1 ==> NotAfter(s[i], s[i + 1], parse)
  }

  lemma {:induction false} InsertKeepsOrder(x: Task, s: seq<Task>, parse: string -> Option<int>, localeCompare: (string, string) -> int)
    requires SortedByBaseOrder(s, parse)
    requires DateParses(x, parse) && forall y :: y in s ==> DateParses(y, parse)
    ensures SortedByBaseOrder(InsertTask(x, s, parse, localeCompare), parse)
  {
    if s == [] || Compare(x, s[0], parse, localeCompare) <= 0 {
      if s != [] {
        CompareAgrees(x, s[0], parse, localeCompare);
      }
      assert forall i :: 1 <= i < |s| + 1 ==> ([x] + s)[i] == s[i - 1];
    } else {
      CompareAgrees(x, s[0], parse, localeCompare);
      assert forall i :: 0 <= i < |s| - 1 ==> s[1..][i] == s[i + 1];
      InsertKeepsOrder(x, s[1..], parse, localeCompare);
      var t := InsertTask(x, s[1..], parse, localeCompare);
      assert NotAfter(s[0], t[0], parse);
      assert forall i :: 1 <= i < |t| + 1 ==> ([s[0]] + t)[i] == t[i - 1];
    }
  }

  lemma {:induction false} SortOrdersParsedTasks(tasks: seq<Task>, parse: string -> Option<int>, localeCompare: (string, string) -> int)
    requires forall t :: t in tasks ==> DateParses(t, parse)
    ensures SortedByBaseOrder(SortTasks(tasks, parse, localeCompare), parse)
  {
    if tasks != [] {
      SortOrdersParsedTasks(tasks[1..], parse, localeCompare);
      var rest := SortTasks(tasks[1..], parse, localeCompare);
      forall y | y in rest ensures DateParses(y, parse) {
        assert y in multiset(tasks[1..]);
      }
      InsertKeepsOrder(tasks[0], rest, parse, localeCompare);
    }
  }

  lemma {:induction false} SortedPairwise(s: seq<Task>, parse: string -> Option<int>, i: nat, j: nat)
    requires SortedByBaseOrder(s, parse) && i < j < |s|
    ensures NotAfter(s[i], s[j], parse)
    decreases j - i
  {
    if i + 1 < j {
      SortedPairwise(s, parse, i + 1, j);
      NotAfterTransitive(s[i], s[i + 1], s[j], parse);
    }
  }

  /** When every due date parses, the list is sorted by group, then due date, then position. */
  lemma SortIsBaseOrder(tasks: seq<Task>, parse: string -> Option<int>, localeCompare: (string, string) -> int)
    requires forall t :: t in tasks ==> DateParses(t, parse)
    ensures var r := SortTasks(tasks, parse, localeCompare);
      forall i, j :: 0 <= i < j < |r| ==> NotAfter(r[i], r[j], parse)
  {
    SortOrdersParsedTasks(tasks, parse, localeCompare);
    var r := SortTasks(tasks, parse, localeCompare);
    forall i, j | 0 <= i < j < |r| ensures NotAfter(r[i], r[j], parse) {
      SortedPairwise(r, parse, i, j);
    }
  }

  // ----- The frozen order -----

  /** No two tasks share an id (React's `key`). */
  ghost predicate DistinctIds(s: seq<Task>) {
    forall i, j :: 0 <= i < j < |s| ==> s[i].id != s[j].id
  }

  ghost predicate Distinct(ids: seq<string>) {
    forall i, j :: 0 <= i < j < |ids| ==> ids[i] != ids[j]
  }

  /** `tasks.find((task) => task.id === id)` */
  function FindById(tasks: seq<Task>, id: string): (r: Option<Task>)
    ensures r.Some? ==> r.value in tasks && r.value.id == id
    ensures r.None? ==> forall t :: t in tasks ==> t.id != id
  {
    if tasks == [] then None
    else if tasks[0].id == id then Some(tasks[0])
    else FindById(tasks[1..], id)
  }

  /** `frozenIds.map(find).filter(Boolean)`: the tasks still present, in frozen order. */
  function FrozenPresent(frozenIds: seq<string>, tasks: seq<Task>): seq<Task> {
    if frozenIds == [] then []
    else
      (match FindById(tasks, frozenIds[0]) case Some(t) => [t] case None => [])
      + FrozenPresent(frozenIds[1..], tasks)
  }

  /** `normal.filter((task) => !frozenIds.includes(task.id))` */
  function NotFrozen(normal: seq<Task>, frozenIds: seq<string>): seq<Task> {
    if normal == [] then []
    else (if normal[0].id in frozenIds then [] else [normal[0]]) + NotFrozen(normal[1..], frozenIds)
  }

  /** `sortedTasks` while the order is frozen. */
  function FrozenOrder(frozenIds: seq<string>, tasks: seq<Task>, normal: seq<Task>): seq<Task> {
    FrozenPresent(frozenIds, tasks) + NotFrozen(normal, frozenIds)
  }

  /** The ids of a list, in order (`lastRenderedOrderIds`). */
  function IdsOf(s: seq<Task>): (r: seq<string>)
    ensures |r| == |s| && forall i :: 0 <= i < |s| ==> r[i] == s[i].id
  {
    if s == [] then [] else [s[0].id] + IdsOf(s[1..])
  }

  lemma {:induction false} CountDistinct(s: seq<Task>, x: Task)
    requires DistinctIds(s)
    ensures multiset(s)[x] == if x in s then 1 else 0
  {
    if s != [] {
      assert s == [s[0]] + s[1..];
      assert DistinctIds(s[1..]) by {
        forall i, j | 0 <= i < j < |s[1..]| ensures s[1..][i].id != s[1..][j].id {
          assert s[1..][i] == s[i + 1] && s[1..][j] == s[j + 1];
        }
      }
      CountDistinct(s[1..], x);
      if x == s[0] {
        assert x !in s[1..] by {
          forall i | 0 <= i < |s[1..]| ensures s[1..][i] != x {
            assert s[1..][i] == s[i + 1];
          }
        }
      }
    }
  }

  lemma {:induction false} CountNotFrozen(normal: seq<Task>, frozenIds: seq<string>, x: Task)
    ensures multiset(NotFrozen(normal, frozenIds))[x] == if x.id in frozenIds then 0 else multiset(normal)[x]
  {
    if normal != [] {
      assert normal == [normal[0]] + normal[1..];
      CountNotFrozen(normal[1..], frozenIds, x);
    }
  }

  lemma {:induction false} CountFrozenPresent(frozenIds: seq<string>, tasks: seq<Task>, x: Task)
    requires Distinct(frozenIds) && DistinctIds(tasks)
    ensures multiset(FrozenPresent(frozenIds, tasks))[x] == if x.id in frozenIds && x in tasks then 1 else 0
  {
    if frozenIds != [] {
      assert Distinct(frozenIds[1..]) by {
        forall i, j | 0 <= i < j < |frozenIds[1..]| ensures frozenIds[1..][i] != frozenIds[1..][j] {
          assert frozenIds[1..][i] == frozenIds[i + 1] && frozenIds[1..][j] == frozenIds[j + 1];
        }
      }
      CountFrozenPresent(frozenIds[1..], tasks, x);
      assert frozenIds[0] !in frozenIds[1..] by {
        forall i | 0 <= i < |frozenIds[1..]| ensures frozenIds[1..][i] != frozenIds[0] {
          assert frozenIds[1..][i] == frozenIds[i + 1];
        }
      }
      assert x.id in frozenIds <==> x.id == frozenIds[0] || x.id in frozenIds[1..] by {
        assert frozenIds == [frozenIds[0]] + frozenIds[1..];
      }
      var found := FindById(tasks, frozenIds[0]);
      if found.Some? && x in tasks && x.id == frozenIds[0] {
        var i :| 0 <= i < |tasks| && tasks[i] == x;
        var j :| 0 <= j < |tasks| && tasks[j] == found.value;
        assert i == j;
      }
    }
  }

  /** The frozen order shows each task exactly once, provided the tasks have distinct ids, the frozen
      ids are distinct and `normal` is a reordering of the tasks: first the frozen ids still present, in
      frozen order, then the other tasks in `normal` order. */
  lemma FrozenOrderIsPermutation(frozenIds: seq<string>, tasks: seq<Task>, normal: seq<Task>)
    requires DistinctIds(tasks) && Distinct(frozenIds)
    requires multiset(normal) == multiset(tasks)
    ensures multiset(FrozenOrder(frozenIds, tasks, normal)) == multiset(tasks)
  {
    var r := FrozenOrder(frozenIds, tasks, normal);
    forall x ensures multiset(r)[x] == multiset(tasks)[x] {
      CountFrozenPresent(frozenIds, tasks, x);
      CountNotFrozen(normal, frozenIds, x);
      CountDistinct(tasks, x);
    }
  }

  /** A reordering of tasks with distinct ids has distinct ids. */
  lemma PermutationKeepsDistinctIds(a: seq<Task>, b: seq<Task>)
    requires multiset(a) == multiset(b) && DistinctIds(b)
    ensures DistinctIds(a)
  {
    forall i, j | 0 <= i < j < |a| ensures a[i].id != a[j].id {
      if a[i].id == a[j].id {
        assert a[i] in multiset(b) && a[j] in multiset(b);
        var p :| 0 <= p < |b| && b[p] == a[i];
        var q :| 0 <= q < |b| && b[q] == a[j];
        assert p == q;
        assert a == a[..j] + [a[j]] + a[j + 1..];
        assert a[i] in a[..j];
        assert multiset(a)[a[i]] >= 2;
        CountDistinct(b, a[i]);
        assert false;
      }
    }
  }

  // ----- Drag and drop -----

  /** The position update `handleDrop` sends. */
  datatype PositionUpdate = PositionUpdate(id: string, position: int)

  /** `shown.findIndex((t) => t.id === id)`, None standing for -1. */
  function IndexOfId(shown: seq<Task>, id: string): (r: Option<nat>)
    ensures r.Some? ==>
      r.value < |shown| && shown[r.value].id == id && forall j :: 0 <= j < r.value ==> shown[j].id != id
    ensures r.None? ==> forall j :: 0 <= j < |shown| ==> shown[j].id != id
  {
    if shown == [] then None
    else if shown[0].id == id then Some(0)
    else match IndexOfId(shown[1..], id)
      case None => None
      case Some(i) => Some(i + 1)
  }

  /** `handleDrop`: nothing unless a task is being dragged onto another task of the list in the same
      project; then the dragged task is asked to take the target's position. `isTaskDrag` is whether
      the drag carries the task type, `sourceId` the dragged id it carries. */
  function DropRequest(isTaskDrag: bool, sourceId: string, targetId: string, shown: seq<Task>): (r: Option<PositionUpdate>)
    ensures r.Some? <==>
      && isTaskDrag && sourceId != targetId
      && (exists i :: 0 <= i < |shown| && shown[i].id == sourceId)
      && (exists j :: 0 <= j < |shown| && shown[j].id == targetId)
      && shown[IndexOfId(shown, sourceId).value].projectId == shown[IndexOfId(shown, targetId).value].projectId
    ensures r.Some? ==> r.value.id == sourceId && r.value.position == shown[IndexOfId(shown, targetId).value].position
  {
    if !isTaskDrag || sourceId == targetId then None
    else
      match (IndexOfId(shown, sourceId), IndexOfId(shown, targetId))
      case (Some(si), Some(ti)) =>
        if shown[si].projectId != shown[ti].projectId then None
        else Some(PositionUpdate(sourceId, shown[ti].position))
      case _ => None
  }

  // ----- The component -----

  /** `tasks.some(...)`: a task whose completion differs from the one recorded at the last render. */
  predicate CompletionChanged(completionById: map<string, bool>, tasks: seq<Task>) {
    exists i :: 0 <= i < |tasks| && tasks[i].id in completionById && completionById[tasks[i].id] != tasks[i].completed
  }

  /** The ref fields and the delay flag of one `SortableTaskList` instance. */
  class SortableTaskList {
    var completionById: map<string, bool>
    var frozenOrderIds: seq<string>
    var lastRenderedOrderIds: seq<string>
    var delayReorder: bool
    /** A reorder-delay timer is running. */
    var timerPending: bool

    ghost predicate Valid()
      reads this
    {
      Distinct(frozenOrderIds) && Distinct(lastRenderedOrderIds)
    }

    constructor ()
      ensures Valid()
      ensures completionById == map[] && frozenOrderIds == [] && lastRenderedOrderIds == []
      ensures !delayReorder && !timerPending
    {
      completionById, frozenOrderIds, lastRenderedOrderIds := map[], [], [];
      delayReorder, timerPending := false, false;
    }

    /** `tasks.reduce(...)`: each task's completion under its id. */
    static method CompletionMap(tasks: seq<Task>) returns (acc: map<string, bool>)
      requires DistinctIds(tasks)
      ensures acc.Keys == set i | 0 <= i < |tasks| :: tasks[i].id
      ensures forall i :: 0 <= i < |tasks| ==> acc[tasks[i].id] == tasks[i].completed
    {
      acc := map[];
      for i := 0 to |tasks|
        invariant acc.Keys == set k | 0 <= k < i :: tasks[k].id
        invariant forall k :: 0 <= k < i ==> acc[tasks[k].id] == tasks[k].completed
      {
        acc := acc[tasks[i].id := tasks[i].completed];
      }
    }

    /** One render followed by its effect: returns the list shown. */
    method Render(tasks: seq<Task>, parse: string -> Option<int>, localeCompare: (string, string) -> int)
      returns (shown: seq<Task>)
      requires Valid() && DistinctIds(tasks)
      modifies this`completionById, this`delayReorder, this`frozenOrderIds, this`timerPending, this`lastRenderedOrderIds
      ensures Valid()
      ensures multiset(shown) == multiset(tasks)
      ensures var changed := CompletionChanged(old(completionById), tasks);
        var normal := SortTasks(tasks, parse, localeCompare);
        && (old(delayReorder) || changed ==>
              shown == FrozenOrder(if changed then old(lastRenderedOrderIds) else old(frozenOrderIds), tasks, normal))
        && (!(old(delayReorder) || changed) ==> shown == normal)
        && lastRenderedOrderIds == IdsOf(shown)
        && (changed ==> delayReorder && timerPending && frozenOrderIds == IdsOf(shown))
        && (!changed ==>
              && delayReorder == old(delayReorder) && timerPending == old(timerPending)
              && frozenOrderIds == old(frozenOrderIds))
      ensures completionById.Keys == set i | 0 <= i < |tasks| :: tasks[i].id
      ensures forall i :: 0 <= i < |tasks| ==> completionById[tasks[i].id] == tasks[i].completed
    {
      var changed := CompletionChanged(completionById, tasks);
      shown := ShowOrder(tasks, changed, parse, localeCompare);
      RunEffect(tasks, changed);
    }

    /** The render itself: freeze the last order if a completion changed, then pick the order. */
    method ShowOrder(tasks: seq<Task>, changed: bool, parse: string -> Option<int>, localeCompare: (string, string) -> int)
      returns (shown: seq<Task>)
      requires Valid() && DistinctIds(tasks)
      modifies this`frozenOrderIds, this`lastRenderedOrderIds
      ensures Valid()
      ensures multiset(shown) == multiset(tasks)
      ensures frozenOrderIds == if changed then old(lastRenderedOrderIds) else old(frozenOrderIds)
      ensures delayReorder || changed ==> shown == FrozenOrder(frozenOrderIds, tasks, SortTasks(tasks, parse, localeCompare))
      ensures !(delayReorder || changed) ==> shown == SortTasks(tasks, parse, localeCompare)
      ensures lastRenderedOrderIds == IdsOf(shown)
    {
      if changed {
        frozenOrderIds := lastRenderedOrderIds;
      }
      var normal := SortTasks(tasks, parse, localeCompare);
      if delayReorder || changed {
        FrozenOrderIsPermutation(frozenOrderIds, tasks, normal);
        shown := FrozenOrder(frozenOrderIds, tasks, normal);
      } else {
        shown := normal;
      }
      PermutationKeepsDistinctIds(shown, tasks);
      lastRenderedOrderIds := IdsOf(shown);
    }

    /** The effect after the render: on a completion change, start the delay and freeze the order just
        shown; then record every task's completion. */
    method RunEffect(tasks: seq<Task>, changed: bool)
      requires Valid() && DistinctIds(tasks)
      modifies this`completionById, this`delayReorder, this`frozenOrderIds, this`timerPending
      ensures Valid()
      ensures changed ==> delayReorder && timerPending && frozenOrderIds == lastRenderedOrderIds
      ensures !changed ==>
        delayReorder == old(delayReorder) && timerPending == old(timerPending) && frozenOrderIds == old(frozenOrderIds)
      ensures completionById.Keys == set i | 0 <= i < |tasks| :: tasks[i].id
      ensures forall i :: 0 <= i < |tasks| ==> completionById[tasks[i].id] == tasks[i].completed
    {
      var current := CompletionMap(tasks);
      if changed {
        delayReorder := true;
        frozenOrderIds := lastRenderedOrderIds;
        timerPending := true;
      }
      completionById := current;
    }

    /** The reorder-delay timer fires. */
    method ReorderDelayElapsed()
      modifies this`delayReorder, this`timerPending
      ensures !delayReorder && !timerPending
    {
      delayReorder, timerPending := false, false;
    }
  }
}
