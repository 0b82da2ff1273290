/**
  The reminder scheduler of App.js (`scheduleNotifications`), as pure functions.

  Time is counted in whole minutes of local time: the instant of minute `m` of
  calendar day `d` is `d * 1440 + m`. A JavaScript `Date` is either an instant
  or "Invalid Date" (time value NaN), which is `None` here.
*/
module Scheduler {
  import opened Wrappers

  const MinutesPerDay: int := 1440
  /** 12:00, the first reminder of the deadline day. */
  const NoonMinute: int := 12 * 60
  /** 23:30, the second reminder of the deadline day. */
  const LateMinute: int := 23 * 60 + 30

  const ReminderTitle: string := "Assignment Reminder"
  const NoonBody: string := "Your assignment is due today at 11:59 PM."
  const LateBody: string := "Your assignment is due in 30 minutes."

  /** One one-shot notification request handed to the notification library. */
  datatype Request = Request(title: string, body: string, trigger: int)

  /** The calendar day an instant falls on (floor division, also before day 0). */
  function DayOf(t: int): (d: int)
    ensures d * MinutesPerDay <= t < (d + 1) * MinutesPerDay
  {
    t / MinutesPerDay
  }

  /** The minute of its day at which an instant falls. */
  function MinuteOf(t: int): (m: int)
    ensures 0 <= m < MinutesPerDay
  { t % MinutesPerDay }

  /** The instant of minute `minute` of day `day`. */
  function At(day: int, minute: int): (t: int)
    requires 0 <= minute < MinutesPerDay
    ensures DayOf(t) == day && MinuteOf(t) == minute
  {
    day * MinutesPerDay + minute
  }

  /** Every instant is the minute of its day on its day: the encoding loses nothing. */
  lemma AtDayMinute(t: int)
    ensures At(DayOf(t), MinuteOf(t)) == t
  {
  }

  /**
    `date.setHours(hours, minutes, 0, 0)`: the same calendar day at the given
    time of day; an invalid date stays invalid.
  */
  function SetHours(date: Option<int>, hours: int, minutes: int): (r: Option<int>)
    requires 0 <= hours < 24 && 0 <= minutes < 60
    ensures r.Some? <==> date.Some?
    ensures r.Some? ==> DayOf(r.value) == DayOf(date.value) && MinuteOf(r.value) == hours * 60 + minutes
  {
    match date
    case None => None
    case Some(t) => Some(At(DayOf(t), hours * 60 + minutes))
  }

  /**
    `date > now`: a comparison with an invalid date (NaN) is false. Comparing
    whole minutes agrees with the source's comparison in milliseconds against
    any clock reading `nowMs` within the minute `now`, and a valid date is later
    exactly when it falls on a later day, or on the same day at a later minute.
  */
  predicate After(date: Option<int>, now: int)
    ensures date.None? ==> !After(date, now)
    ensures date.Some? ==> forall nowMs :: nowMs / 60000 == now ==> (After(date, now) <==> 60000 * date.value > nowMs)
    ensures date.Some? ==> (After(date, now) <==>
      DayOf(now) < DayOf(date.value) || (DayOf(now) == DayOf(date.value) && MinuteOf(now) < MinuteOf(date.value)))
  {
    date.Some? && date.value > now
  }

  function NoonRequest(day: int): Request {
    Request(ReminderTitle, NoonBody, At(day, NoonMinute))
  }

  function LateRequest(day: int): Request {
    Request(ReminderTitle, LateBody, At(day, LateMinute))
  }

  /** The two kinds of request the scheduler can ever submit. */
  predicate IsReminder(q: Request) {
    q == NoonRequest(DayOf(q.trigger)) || q == LateRequest(DayOf(q.trigger))
  }

  /**
    The requests `scheduleNotifications` submits, in order, for the parsed
    deadline at clock reading `now`: the noon one, then the 23:30 one, each only
    if it is strictly in the future.
  */
  function Reminders(deadline: Option<int>, now: int): (r: seq<Request>)
    ensures |r| <= 2
    ensures deadline.None? ==> r == []
    ensures forall i :: 0 <= i < |r| ==>
      r[i].trigger > now && IsReminder(r[i]) && DayOf(r[i].trigger) == DayOf(deadline.value)
    ensures forall i, j :: 0 <= i < j < |r| ==> r[i].trigger < r[j].trigger
  {
    var noon := SetHours(deadline, 12, 0);
    var late := SetHours(noon, 23, 30);
    (if After(noon, now) then [Request(ReminderTitle, NoonBody, noon.value)] else [])
    + (if After(late, now) then [Request(ReminderTitle, LateBody, late.value)] else [])
  }

  /** The noon reminder is submitted exactly when 12:00 of the deadline day is after `now`. */
  lemma NoonReminderIff(t: int, now: int)
    ensures NoonRequest(DayOf(t)) in Reminders(Some(t), now) <==> At(DayOf(t), NoonMinute) > now
  {
  }

  /** The 23:30 reminder is submitted exactly when 23:30 of the deadline day is after `now`. */
  lemma LateReminderIff(t: int, now: int)
    ensures LateRequest(DayOf(t)) in Reminders(Some(t), now) <==> At(DayOf(t), LateMinute) > now
  {
  }

  /** A submitted noon reminder is always followed by the 23:30 one, which comes second. */
  lemma NoonImpliesLate(t: int, now: int)
    requires NoonRequest(DayOf(t)) in Reminders(Some(t), now)
    ensures Reminders(Some(t), now) == [NoonRequest(DayOf(t)), LateRequest(DayOf(t))]
  {
  }

  /**
    How many requests one deadline yields: two before noon of its day, one
    from noon until 23:30, none from 23:30 on.
  */
  lemma ReminderCount(t: int, now: int)
    ensures var r := Reminders(Some(t), now);
      if now < At(DayOf(t), NoonMinute) then r == [NoonRequest(DayOf(t)), LateRequest(DayOf(t))]
      else if now < At(DayOf(t), LateMinute) then r == [LateRequest(DayOf(t))]
      else r == []
  {
  }
}
