/**
  The App component as an object: its React state (`assignments`, `title`,
  `deadline`) are fields that the handlers update, and the notification
  library and `Alert.alert` are the two output sequences `scheduled` and
  `alerts`. Each handler runs to completion on the current state and is
  proved to perform the corresponding step of module Store.
*/
module Tracker {
  import opened Wrappers
  import opened Scheduler
  import opened Store

  class AssignmentTracker {
    var assignments: seq<Assignment>
    var title: string
    var deadline: string
    /** The requests handed to the notification library, oldest first. */
    var scheduled: seq<Request>
    /** The alerts and dialogs shown, oldest first. */
    var alerts: seq<Alert>

    function State(): AppState
      reads this
    {
      AppState(assignments, title, deadline, scheduled, alerts)
    }

    /** Mounting: empty list and empty form fields. */
    constructor ()
      ensures State() == Initial
    {
      assignments, title, deadline := [], "", "";
      scheduled, alerts := [], [];
    }

    /** The setter the title field calls on every change. */
    method SetTitle(text: string)
      modifies this
      ensures State() == old(State()).(title := text)
    {
      title := text;
    }

    /** The setter the deadline field calls on every change. */
    method SetDeadline(text: string)
      modifies this
      ensures State() == old(State()).(deadline := text)
    {
      deadline := text;
    }

    /**
      `scheduleNotifications`: move the parsed deadline to 12:00 and then to
      23:30 of its day, submitting each instant that is after `now`.
    */
    method ScheduleNotifications(deadlineDate: Option<int>, now: int)
      modifies this
      ensures scheduled == old(scheduled) + Reminders(deadlineDate, now)
      ensures assignments == old(assignments) && title == old(title) && deadline == old(deadline)
      ensures alerts == old(alerts)
    {
      var date := deadlineDate;
      date := SetHours(date, 12, 0);
      var noonTime := date;
      if After(noonTime, now) {
        scheduled := scheduled + [Request(ReminderTitle, NoonBody, noonTime.value)];
      }
      date := SetHours(date, 23, 30);
      var lateTime := date;
      if After(lateTime, now) {
        scheduled := scheduled + [Request(ReminderTitle, LateBody, lateTime.value)];
      }
    }

    /**
      `addAssignment`; `parsed` is what parsing the deadline field yields and
      `now` the clock at the press.
    */
    method AddAssignment(parsed: Option<int>, now: int)
      modifies this
      ensures State() == Add(old(State()), parsed, now)
    {
      if title == "" || deadline == "" {
        alerts := alerts + [MissingFieldsAlert];
        return;
      }
      var newAssignment := Assignment(title, deadline);
      assignments := [newAssignment] + assignments;
      ScheduleNotifications(parsed, now);
      title := "";
      deadline := "";
    }

    /** `completeAssignment`: splice a copy of the list and store it. */
    method CompleteAssignment(index: int)
      modifies this
      ensures State() == Complete(old(State()), index)
    {
      var updated := assignments;
      updated := SpliceOne(updated, index);
      assignments := updated;
      alerts := alerts + [CompletedAlert];
    }

    /** `confirmCompletion`: show the dialog, complete the record only on Yes. */
    method ConfirmCompletion(index: int, answer: Answer)
      modifies this
      ensures State() == Confirm(old(State()), index, answer)
    {
      alerts := alerts + [ConfirmDialog];
      if answer == Yes {
        CompleteAssignment(index);
      }
    }
  }
}
