/** The bottom sheet for adding a task on a phone (src/components/todoList/MobileTaskModal.tsx): a
    name, a due date picked from a quick-date chip or typed in, and a project. */
module MobileTaskModal {
  import opened Wrappers
  import opened Text
  import Js

  /** The quick-date chips, `'today'`, `'tomorrow'` and `'nextWeek'`. */
  datatype Chip = Today | Tomorrow | NextWeek

  /** The dates the chips stand for, as `toISOString().split('T')[0]` gives them on the day the
      sheet is used. */
  datatype Calendar = Calendar(today: string, tomorrow: string, nextWeek: string)

  /** `getDateFromChip` */
  function DateFromChip(calendar: Calendar, chip: Chip): string {
    match chip
    case Today => calendar.today
    case Tomorrow => calendar.tomorrow
    case NextWeek => calendar.nextWeek
  }

  /** The task `createTask` is asked for; a missing due date is sent as null. */
  datatype NewTask = NewTask(name: string, projectId: int, dueDate: Option<string>)

  /** `!selectedProjectId`: no project (null), NaN, or the placeholder option's 0. */
  predicate NoProject(selectedProjectId: Option<int>) {
    selectedProjectId.None? || selectedProjectId.value == 0
  }

  /** The task a submission creates, or None when the guard stops it: a blank name or no project. */
  function SubmitRequest(name: string, selectedProjectId: Option<int>, dueDate: string): (r: Option<NewTask>)
    ensures r.None? <==> IsBlank(name) || NoProject(selectedProjectId)
    ensures r.Some? ==>
      && r.value.name == Trim(name) && r.value.name != ""
      && Some(r.value.projectId) == selectedProjectId && r.value.projectId != 0
      && (r.value.dueDate.None? <==> dueDate == "")
      && (r.value.dueDate.Some? ==> r.value.dueDate.value == dueDate)
  {
    var trimmed := Trim(name);
    if trimmed == "" || NoProject(selectedProjectId) then None
    else Some(NewTask(trimmed, selectedProjectId.value, if dueDate == "" then None else Some(dueDate)))
  }

  /** The form filled in again with a task it sent sends that same task. */
  lemma ResubmitSameTask(name: string, selectedProjectId: Option<int>, dueDate: string)
    requires SubmitRequest(name, selectedProjectId, dueDate).Some?
    ensures var t := SubmitRequest(name, selectedProjectId, dueDate).value;
      SubmitRequest(t.name, Some(t.projectId), if t.dueDate.Some? then t.dueDate.value else "") == Some(t)
  {
    TrimIdempotent(name);
  }

  class MobileTaskModal {
    const calendar: Calendar
    var name: string
    var dueDate: string
    var selectedProjectId: Option<int>
    var activeChip: Option<Chip>
    /** The tasks handed to `createTask`, oldest first. */
    var requests: seq<NewTask>
    /** How many times `onClose` has been called. */
    var closes: nat

    /** An active chip always shows its own date as the due date. */
    ghost predicate Valid()
      reads this
    {
      activeChip.Some? ==> dueDate == DateFromChip(calendar, activeChip.value)
    }

    constructor (calendar: Calendar)
      ensures Valid() && this.calendar == calendar
      ensures name == "" && dueDate == "" && selectedProjectId == None && activeChip == None
      ensures requests == [] && closes == 0
    {
      this.calendar := calendar;
      name, dueDate, selectedProjectId, activeChip := "", "", None, None;
      requests, closes := [], 0;
    }

    /** The effect run when the sheet opens: a truthy default project becomes the selected one. */
    method Open(isOpen: bool, defaultProjectId: Option<int>)
      requires Valid()
      modifies this`selectedProjectId
      ensures Valid()
      ensures isOpen && !NoProject(defaultProjectId) ==> selectedProjectId == defaultProjectId
      ensures !(isOpen && !NoProject(defaultProjectId)) ==> selectedProjectId == old(selectedProjectId)
    {
      if isOpen && !NoProject(defaultProjectId) {
        selectedProjectId := defaultProjectId;
      }
    }

    /** Typing in the name field. */
    method SetName(value: string)
      requires Valid()
      modifies this`name
      ensures Valid() && name == value
    {
      name := value;
    }

    /** Choosing from the project list: `Number(e.target.value)`, the placeholder giving 0. */
    method SelectProject(value: string)
      requires Valid()
      modifies this`selectedProjectId
      ensures Valid() && selectedProjectId == Js.ToNumber(Js.Str(value))
    {
      selectedProjectId := Js.ToNumber(Js.Str(value));
    }

    /** `handleChipClick`: the active chip is switched off and clears the date; any other chip
        becomes the only active one and sets its date. */
    method ChipClick(chip: Chip)
      requires Valid()
      modifies this`activeChip, this`dueDate
      ensures Valid()
      ensures old(activeChip) == Some(chip) ==> activeChip == None && dueDate == ""
      ensures old(activeChip) != Some(chip) ==> activeChip == Some(chip) && dueDate == DateFromChip(calendar, chip)
    {
      if activeChip == Some(chip) {
        activeChip := None;
        dueDate := "";
      } else {
        activeChip := Some(chip);
        dueDate := DateFromChip(calendar, chip);
      }
    }

    /** `handleCustomDateChange`: a typed date replaces the due date and switches every chip off. */
    method CustomDateChange(value: string)
      requires Valid()
      modifies this`activeChip, this`dueDate
      ensures Valid()
      ensures dueDate == value && activeChip == None
    {
      dueDate := value;
      activeChip := None;
    }

    /** What the date field shows: nothing while a chip is active, the due date otherwise. */
    method DateInputValue() returns (v: string)
      requires Valid()
      ensures activeChip.Some? ==> v == ""
      ensures activeChip.None? ==> v == dueDate
    {
      v := if activeChip.Some? then "" else dueDate;
    }

    /** Whether the "Add Task" button is disabled: exactly when a submission would be stopped. */
    method AddDisabled() returns (disabled: bool)
      requires Valid()
      ensures disabled <==> IsBlank(name) || NoProject(selectedProjectId)
      ensures disabled <==> SubmitRequest(name, selectedProjectId, dueDate).None?
    {
      disabled := Trim(name) == "" || NoProject(selectedProjectId);
    }

    /** `handleSubmit`: unless the guard stops it, the task is created, the name, date and chip are
        reset (the project stays selected) and the sheet asks to be closed. */
    method Submit()
      requires Valid()
      modifies this`name, this`dueDate, this`activeChip, this`requests, this`closes
      ensures Valid()
      ensures SubmitRequest(old(name), old(selectedProjectId), old(dueDate)).None? ==>
        name == old(name) && dueDate == old(dueDate) && activeChip == old(activeChip)
        && requests == old(requests) && closes == old(closes)
      ensures SubmitRequest(old(name), old(selectedProjectId), old(dueDate)).Some? ==>
        && name == "" && dueDate == "" && activeChip == None && closes == old(closes) + 1
        && requests == old(requests) + [SubmitRequest(old(name), old(selectedProjectId), old(dueDate)).value]
    {
      var task := SubmitRequest(name, selectedProjectId, dueDate);
      if task.None? {
        return;
      }
      requests := requests + [task.value];
      name, dueDate, activeChip := "", "", None;
      closes := closes + 1;
    }

    /** A click on the overlay closes the sheet when it lands on the overlay itself. */
    method OverlayClick(onOverlay: bool)
      requires Valid()
      modifies this`closes
      ensures Valid()
      ensures closes == old(closes) + (if onOverlay then 1 else 0)
    {
      if onOverlay {
        closes := closes + 1;
      }
    }

    /** The Cancel button closes the sheet and keeps what was typed. */
    method Cancel()
      requires Valid()
      modifies this`closes
      ensures Valid() && closes == old(closes) + 1
    {
      closes := closes + 1;
    }
  }
}
