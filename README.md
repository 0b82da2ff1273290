# Assignment Tracker — a Dafny model of its list state and reminder scheduler

Assignment Tracker is a React Native screen (`App.js`). The user types a title
and a deadline (`YYYY-MM-DD`) and presses "Add Assignment". The record is put at
the front of an in-memory list, and up to two local notifications are requested:
one at 12:00 and one at 23:30 of the local calendar day that the parsed deadline
falls on. Pressing a row opens a confirmation dialog. Answering "Yes" removes that row by its position.

The model has four modules:

- `Wrappers` (`wrappers.dfy`): `Option`. A deadline that does not parse is `None`, as JavaScript's "Invalid Date" is.
- `Scheduler` (`scheduler.dfy`): `scheduleNotifications` as pure functions.
  - Time is whole minutes of local time. Minute `m` of calendar day `d` is the instant `d * 1440 + m`.
  - `SetHours` is `Date.prototype.setHours`. It keeps the calendar day and sets the time of day, and an invalid date stays invalid.
  - `After` is the `>` comparison. A comparison with NaN is false.
  - `Reminders` is the list of requests submitted for one deadline at one clock reading.
- `Store` (`store.dfy`): the component's state as a value (`AppState`), and each handler as a function on it.
  - `SpliceOne` gives `Array.prototype.splice(start, 1)` its full JavaScript meaning. A negative start counts back from the end, and one below minus the length is clamped to the first record. A start at or past the end removes nothing.
  - `Step` and `Run` drive the component with a sequence of user events, and the lemmas state what every reachable state satisfies.
- `Tracker` (`tracker.dfy`): the component as the class `AssignmentTracker`.
  - Its fields are the React state (`assignments`, `title`, `deadline`), plus two output sequences. `scheduled` holds the requests handed to the notification library, and `alerts` the alerts and dialogs shown.
  - Each handler is a method that updates the fields step by step, as the source does. The three handlers below are proved to end in exactly the state a `Store` function gives:

    | method | `Store` function |
    |---|---|
    | `AddAssignment` | `Add` |
    | `CompleteAssignment` | `Complete` |
    | `ConfirmCompletion` | `Confirm` |

    `SetTitle` and `SetDeadline` replace only their field. `ScheduleNotifications` appends exactly `Reminders(deadline, now)` to `scheduled`.

The clock (`new Date()`) and the parsing of the deadline string (`new Date(deadline)`) are parameters: `now: int` and `parsed: Option<int>`. The dialog's outcome is the parameter `answer: Answer` (`Yes`, `Cancel` or `Dismissed`).

`completeAssignment` removes with `splice(index, 1)` and does not check the index:

- An index at or past the end removes nothing.
- A negative index counts back from the end of the list.
- An index below minus the length removes the first record.
- The "Completed" alert is shown in every case.

## Model

| member | source | states |
|---|---|---|
| `Scheduler.MinuteOf` | App.js:25 | the minute of the day of any instant lies in 0..1439 |
| `Scheduler.DayOf` | App.js:25 | the calendar day of an instant is the one whose minutes 0..1439 contain it |
| `Scheduler.At` | App.js:25 | the instant built from a day and a minute falls on that day at that minute |
| `Scheduler.AtDayMinute` | App.js:25 | every instant is rebuilt exactly from its day and its minute of the day, so `SetHours`' contract fixes its result |
| `Scheduler.SetHours` | App.js:25 | `setHours(h, m, 0, 0)` keeps the calendar day of a valid date and sets its minute of the day to h*60+m; an invalid date stays invalid |
| `Scheduler.After` | App.js:26 | a comparison `date > now` with an invalid date (NaN) is false; for a valid date the minute comparison agrees with the millisecond comparison against every clock reading within the minute `now`, and it holds exactly when the date is on a later day, or on the same day at a later minute |
| `Scheduler.Reminders` | App.js:21-47 | at most two requests; none for an unparseable deadline; each is strictly after `now`, is the noon or the 23:30 reminder, and falls on the deadline's calendar day; triggers strictly increase, so the noon one comes first |
| `Scheduler.NoonReminderIff` | App.js:25-34 | the noon reminder is submitted if and only if 12:00 of the deadline day is strictly after `now` |
| `Scheduler.LateReminderIff` | App.js:37-46 | the 23:30 reminder is submitted if and only if 23:30 of the deadline day is strictly after `now` |
| `Scheduler.NoonImpliesLate` | App.js:24-46 | if the noon reminder is submitted, the 23:30 one is too, and the result is exactly [noon, 23:30] |
| `Scheduler.ReminderCount` | App.js:21-47 | before 12:00 of the deadline day both reminders are requested; from 12:00 until 23:30 only the 23:30 one is; from 23:30 on, none is |
| `Store.ActualStart` | App.js:70 | where `splice` starts lies in 0..len; any start from minus the length up to the last position is taken modulo the length; a record is removed exactly when the list is non-empty and the start is below its length |
| `Store.SpliceOne` | App.js:69-70 | when the actual start is inside the list, one element goes: the length drops by one, earlier elements keep their positions and later ones move down by one; otherwise the list is unchanged |
| `Store.SpliceInRange` | App.js:68-71 | for a valid position i, the length drops by exactly one, and putting the removed record back at i restores the old list |
| `Store.SpliceNegativeStart` | App.js:70 | a negative index removes the record it counts back to from the end; an index below minus the length removes the first record |
| `Store.SpliceMultiset` | App.js:69-70 | splice removes exactly the one element at its actual start and no other (multiset equality) |
| `Store.Add` | App.js:50-65 | an empty title or deadline changes the list, the fields and the submitted requests not at all and shows the error alert; otherwise `{title, deadline}` is at index 0 with the old list after it, the length grows by exactly one, both fields are reset to "", and exactly the reminders for the parsed deadline at `now` are appended to the old requests (none when it does not parse) |
| `Store.Complete` | App.js:68-73 | removal at a valid index: length drops by one, records before it are unchanged, later ones shift down by one; an index past the end removes nothing; for every index the list is the `splice(index, 1)` result; form fields and submitted reminders are untouched; the "Completed" alert is shown |
| `Store.Confirm` | App.js:76-85 | the dialog is always shown; Cancel or a dismissed dialog changes nothing else; only Yes removes, by splicing at the index |
| `Store.AddThenCompleteFirst` | App.js:56-85 | adding a record and then confirming completion of row 0 gives back the old list |
| `Store.Step` | App.js:98-119 | one user event: only pressing add submits reminders, at most two, after the old ones; typing in a field leaves the list alone; the list grows by one record at most |
| `Store.Run` | App.js:6-119 | the state after a session of events has at most one more record per event |
| `Store.StepCount` | App.js:50-85 | one event changes the number of records by +1 on an accepted add, -1 on a confirmed removal that hits an element, 0 otherwise |
| `Store.StepWellFormed` | App.js:50-85 | one event keeps the invariant: every record has a non-empty title and deadline, and every submitted request is a noon or 23:30 reminder |
| `Store.RunWellFormed` | App.js:6-85 | every state reached from a well-formed state (such as the initial one) by any sequence of events is well-formed |
| `Store.ReachableWellFormed` | App.js:6-119 | every state reached from the mounted component (empty list, empty fields) by any sequence of events is well-formed |
| `Store.RunScheduledGrows` | App.js:21-85 | submitted reminders are never retracted (the old requests stay as a prefix), and each event adds at most two |
| `Tracker.AssignmentTracker.constructor` | App.js:6-8 | the component mounts with an empty list and empty form fields |
| `Tracker.AssignmentTracker.SetTitle` | App.js:7 | the new state is the old one with only the title replaced |
| `Tracker.AssignmentTracker.SetDeadline` | App.js:8 | the new state is the old one with only the deadline replaced |
| `Tracker.AssignmentTracker.ScheduleNotifications` | App.js:21-47 | moving the parsed date to 12:00 and then to 23:30 in place, and submitting each future instant, appends exactly `Reminders(deadline, now)` to the submitted requests and changes nothing else |
| `Tracker.AssignmentTracker.AddAssignment` | App.js:50-65 | the in-place handler produces exactly the state `Store.Add` describes |
| `Tracker.AssignmentTracker.CompleteAssignment` | App.js:68-73 | splicing a copy and storing it produces exactly the state `Store.Complete` describes |
| `Tracker.AssignmentTracker.ConfirmCompletion` | App.js:76-85 | the dialog handler produces exactly the state `Store.Confirm` describes |

## Left out

- Rendering is not modelled: the JSX tree, the `FlatList`/`TextInput`/`Button` wiring and the style sheet (App.js:88-160). It has no logic. A row press and the field edits appear only as the events `PressItem`, `EditTitle` and `EditDeadline`.
- The startup permission request and its alert (App.js:10-18) are not modelled. They are an asynchronous platform call whose result only shows a message and gates nothing.
- The notification library and `Alert.alert` are not called. Their calls are recorded as entries appended to `scheduled` and `alerts`, and delivery is outside the model.
- Parsing `new Date(deadline)` is a parameter (`parsed`), not a function of the deadline string. The model does not capture which strings are invalid, nor time zones or DST. In particular, the day a date-only ISO string lands on in local time is not modelled, because JavaScript reads such a string as UTC midnight. West of UTC that instant falls on the local day before the typed date, so `setHours` puts both reminders on that earlier day.
- The range of a JavaScript time value is not modelled. A time value beyond ±8.64e15 ms becomes NaN, so `setHours` near that edge yields Invalid Date and no reminder. Here `parsed`, `now` and every instant are unbounded integers.
- Instants are whole minutes, not milliseconds. No comparison changes because of this: both triggers fall on whole minutes, so `trigger > now` has the same value for `now` in milliseconds and for `now` rounded down to its minute (the second ensures of `After`).
- Scheduler.Reminders: compares both triggers against one clock reading `now`. The source reads the clock separately on lines 26 and 38, microseconds apart.
- React's asynchronous, batched `setState` is not modelled. Each handler runs to completion on the current state.
- A non-integer or non-numeric splice index is not modelled. The index is an `int`, since `FlatList` only supplies integer row positions.
