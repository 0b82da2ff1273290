/**
  The state of the App component and its handlers (`addAssignment`,
  `completeAssignment`, `confirmCompletion`) as pure functions over that state.
  The class in module Tracker runs these steps in place and is proved against them.
*/
module Store {
  import opened Wrappers
  import opened Scheduler

  datatype Assignment = Assignment(title: string, deadline: string)

  /** The answer of the confirmation dialog. */
  datatype Answer = Yes | Cancel | Dismissed

  /** A message box shown with `Alert.alert`. */
  datatype Alert = Alert(heading: string, message: string)

  const MissingFieldsAlert: Alert := Alert("Error", "Please fill in both fields.")
  const CompletedAlert: Alert := Alert("Completed", "Assignment marked as completed.")
  const ConfirmDialog: Alert := Alert("Complete Assignment", "Have you completed this assignment?")

  /**
    Everything the component owns or produces: the list and the two form fields
    (its React state), the notification requests submitted so far and the
    alerts shown so far.
  */
  datatype AppState = AppState(
    assignments: seq<Assignment>,
    title: string,
    deadline: string,
    scheduled: seq<Request>,
    alerts: seq<Alert>)

  /** The state at mount: no assignments, empty fields. */
  const Initial: AppState := AppState([], "", "", [], [])

  // ---------------------------------------------------------------------------
  // Array.prototype.splice(start, 1)

  /** Where `splice` starts for a list of length `len`: negative starts count from the end. */
  function ActualStart(len: nat, start: int): (k: nat)
    ensures k <= len
    ensures 0 < len && 0 <= len + start && start < len ==> k == start % len
    ensures k < len <==> 0 < len && start < len
  {
    if start < 0 then (if len + start < 0 then 0 else len + start)
    else if start < len then start
    else len
  }

  /** Whether `splice(start, 1)` on a list of length `len` removes an element. */
  predicate RemovesOne(len: nat, start: int) {
    ActualStart(len, start) < len
  }

  /**
    A copy of `s` after `splice(start, 1)`: the element at the actual start is
    removed, those before it keep their positions and those after it move down
    by one; when the start is past the end nothing is removed.
  */
  function SpliceOne<T>(s: seq<T>, start: int): (r: seq<T>)
    ensures var k := ActualStart(|s|, start);
      if k < |s| then
        |r| == |s| - 1
        && (forall j :: 0 <= j < k ==> r[j] == s[j])
        && (forall j :: k <= j < |r| ==> r[j] == s[j + 1])
      else r == s
  {
    var k := ActualStart(|s|, start);
    if k < |s| then s[..k] + s[k + 1..] else s
  }

  /** Removal by a valid position: the element at `i` goes, and putting it back restores the list. */
  lemma SpliceInRange<T>(s: seq<T>, i: int)
    requires 0 <= i < |s|
    ensures var r := SpliceOne(s, i);
      |r| == |s| - 1 && r[..i] + [s[i]] + r[i..] == s
  {
  }

  /**
    A negative start removes the record it counts back to from the end, and a
    start further back than the first record removes the first record.
  */
  lemma SpliceNegativeStart<T>(s: seq<T>, start: int)
    requires start < 0 < |s|
    ensures SpliceOne(s, start) == SpliceOne(s, if |s| + start < 0 then 0 else |s| + start)
  {
  }

  /** Removal keeps every other element: the multiset shrinks by exactly the removed one. */
  lemma {:induction false} SpliceMultiset<T>(s: seq<T>, start: int)
    ensures var k := ActualStart(|s|, start);
      if k < |s| then multiset(SpliceOne(s, start)) + multiset{s[k]} == multiset(s)
      else multiset(SpliceOne(s, start)) == multiset(s)
  {
    var k := ActualStart(|s|, start);
    if k < |s| {
      assert s == s[..k] + [s[k]] + s[k + 1..];
    }
  }

  // ---------------------------------------------------------------------------
  // The handlers

  /** `addAssignment` accepts the form only when both fields are non-empty strings. */
  predicate CanAdd(s: AppState) {
    s.title != "" && s.deadline != ""
  }

  /**
    `addAssignment`, with `parsed` the result of parsing the deadline field and
    `now` the clock: on an empty field only the error alert appears; otherwise
    the record from the form goes to the front, its reminders are submitted and
    the form is cleared.
  */
  function Add(s: AppState, parsed: Option<int>, now: int): (r: AppState)
    ensures |r.assignments| == |s.assignments| + (if CanAdd(s) then 1 else 0)
    ensures !CanAdd(s) ==>
      r.assignments == s.assignments && r.title == s.title && r.deadline == s.deadline
      && r.scheduled == s.scheduled && r.alerts == s.alerts + [MissingFieldsAlert]
    ensures CanAdd(s) ==>
      r.assignments[0] == Assignment(s.title, s.deadline) && r.assignments[1..] == s.assignments
      && r.title == "" && r.deadline == ""
      && r.scheduled == s.scheduled + Reminders(parsed, now)
      && r.alerts == s.alerts
  {
    if !CanAdd(s) then
      s.(alerts := s.alerts + [MissingFieldsAlert])
    else
      s.(assignments := [Assignment(s.title, s.deadline)] + s.assignments,
         scheduled := s.scheduled + Reminders(parsed, now),
         title := "", deadline := "")
  }

  /**
    `completeAssignment`: the list loses the record at `index` (with the
    semantics of `splice`), the "Completed" alert is shown, and reminders
    already submitted stay submitted.
  */
  function Complete(s: AppState, index: int): (r: AppState)
    ensures 0 <= index < |s.assignments| ==>
      |r.assignments| == |s.assignments| - 1
      && (forall j :: 0 <= j < index ==> r.assignments[j] == s.assignments[j])
      && (forall j :: index <= j < |r.assignments| ==> r.assignments[j] == s.assignments[j + 1])
    ensures index >= |s.assignments| ==> r.assignments == s.assignments
    ensures r.assignments == SpliceOne(s.assignments, index)
    ensures r.title == s.title && r.deadline == s.deadline && r.scheduled == s.scheduled
    ensures r.alerts == s.alerts + [CompletedAlert]
  {
    s.(assignments := SpliceOne(s.assignments, index), alerts := s.alerts + [CompletedAlert])
  }

  /**
    `confirmCompletion`: the dialog is shown; only the answer Yes completes the
    record, Cancel and a dismissed dialog change nothing else.
  */
  function Confirm(s: AppState, index: int, answer: Answer): (r: AppState)
    ensures answer != Yes ==> r == s.(alerts := s.alerts + [ConfirmDialog])
    ensures answer == Yes ==>
      r.assignments == SpliceOne(s.assignments, index) && r.alerts == s.alerts + [ConfirmDialog, CompletedAlert]
    ensures r.title == s.title && r.deadline == s.deadline && r.scheduled == s.scheduled
  {
    var shown := s.(alerts := s.alerts + [ConfirmDialog]);
    if answer == Yes then Complete(shown, index) else shown
  }

  /** Adding a record and then confirming the completion of the first row restores the list. */
  lemma AddThenCompleteFirst(s: AppState, parsed: Option<int>, now: int)
    requires CanAdd(s)
    ensures Confirm(Add(s, parsed, now), 0, Yes).assignments == s.assignments
  {
  }

  // ---------------------------------------------------------------------------
  // Sessions: the component driven by a sequence of user events

  datatype Event =
    | EditTitle(text: string)                  // onChangeText of the title field
    | EditDeadline(text: string)               // onChangeText of the deadline field
    | PressAdd(parsed: Option<int>, now: int)  // the "Add Assignment" button
    | PressItem(index: int, answer: Answer)    // a row pressed, then the dialog answered

  /**
    The effect of one event: only a press of the add button submits reminders
    (at most two, after the earlier ones), typing leaves the list alone, and
    the list grows by one record at most.
  */
  function Step(s: AppState, e: Event): (r: AppState)
    ensures |s.scheduled| <= |r.scheduled| <= |s.scheduled| + 2 && r.scheduled[..|s.scheduled|] == s.scheduled
    ensures !e.PressAdd? ==> r.scheduled == s.scheduled
    ensures (e.EditTitle? || e.EditDeadline?) ==> r.assignments == s.assignments
    ensures |r.assignments| <= |s.assignments| + 1
  {
    match e
    case EditTitle(text) => s.(title := text)
    case EditDeadline(text) => s.(deadline := text)
    case PressAdd(parsed, now) => Add(s, parsed, now)
    case PressItem(index, answer) => Confirm(s, index, answer)
  }

  /** The state after a session of events; each event adds one record at most. */
  function Run(s: AppState, events: seq<Event>): (r: AppState)
    ensures |r.assignments| <= |s.assignments| + |events|
    decreases |events|
  {
    if events == [] then s else Run(Step(s, events[0]), events[1..])
  }

  /**
    What every reachable state satisfies: each listed record has a non-empty
    title and deadline, and each submitted request is a noon or a 23:30 reminder.
  */
  ghost predicate WellFormed(s: AppState) {
    (forall i :: 0 <= i < |s.assignments| ==> s.assignments[i].title != "" && s.assignments[i].deadline != "")
    && (forall i :: 0 <= i < |s.scheduled| ==> IsReminder(s.scheduled[i]))
  }

  /** One event changes the number of records by one at most: up on an accepted add, down on a confirmed removal. */
  lemma StepCount(s: AppState, e: Event)
    ensures |Step(s, e).assignments| ==
      |s.assignments|
      + (if e.PressAdd? && CanAdd(s) then 1 else 0)
      - (if e.PressItem? && e.answer == Yes && RemovesOne(|s.assignments|, e.index) then 1 else 0)
  {
  }

  lemma StepWellFormed(s: AppState, e: Event)
    requires WellFormed(s)
    ensures WellFormed(Step(s, e))
  {
  }

  /** Every state a session reaches from a well-formed state (such as Initial) is well-formed. */
  lemma {:induction false} RunWellFormed(s: AppState, events: seq<Event>)
    requires WellFormed(s)
    ensures WellFormed(Run(s, events))
    decreases |events|
  {
    if events != [] {
      StepWellFormed(s, events[0]);
      RunWellFormed(Step(s, events[0]), events[1..]);
    }
  }

  /** Every state a session reaches from the mounted component is well-formed. */
  lemma ReachableWellFormed(events: seq<Event>)
    ensures WellFormed(Run(Initial, events))
  {
    RunWellFormed(Initial, events);
  }

  /** A session submits at most two reminders per event, and never retracts one. */
  lemma {:induction false} RunScheduledGrows(s: AppState, events: seq<Event>)
    ensures var r := Run(s, events);
      |s.scheduled| <= |r.scheduled| <= |s.scheduled| + 2 * |events|
      && r.scheduled[..|s.scheduled|] == s.scheduled
    decreases |events|
  {
    if events != [] {
      var t := Step(s, events[0]);
      RunScheduledGrows(t, events[1..]);
      var r := Run(t, events[1..]);
      assert r.scheduled[..|s.scheduled|] == r.scheduled[..|t.scheduled|][..|s.scheduled|];
    }
  }
}
