/** When a round opens, closes and reminds.

    Instants are whole seconds since the start of day 0 UTC, and a loop's
    timezone is a fixed offset in seconds east of UTC. */
module RoundTiming {
  import opened Calendar

  type Instant = int

  const HOUR := 3600
  const DAY := 86400
  const REMINDER_LOCAL_HOUR := 10
  const DEADLINE_LOCAL_HOUR := 21
  const NEXT_OPEN_LOCAL_HOUR := 9
  const MIN_REMINDER_LEAD := 12 * HOUR
  const MIN_SUBMISSION_WINDOW_DAYS := 3
  const MAX_SUBMISSION_WINDOW_DAYS := 21

  function LocalDay(t: Instant, zone: int): int { (t + zone) / DAY }

  function SecondOfDay(t: Instant, zone: int): int { (t + zone) % DAY }

  function AtLocalHour(t: Instant, hour: int, zone: int): Instant {
    LocalDay(t, zone) * DAY + hour * HOUR - zone
  }

  /** Pinning keeps the local date and sets the wall clock. */
  lemma AtLocalHourPins(t: Instant, hour: int, zone: int)
    requires 0 <= hour < 24
    ensures LocalDay(AtLocalHour(t, hour, zone), zone) == LocalDay(t, zone)
    ensures SecondOfDay(AtLocalHour(t, hour, zone), zone) == hour * HOUR
    ensures AtLocalHour(t, hour, zone) - hour * HOUR <= t < AtLocalHour(t, hour, zone) + DAY - hour * HOUR
  {
  }

  function EffectiveWindowDays(submissionWindowDays: int): int {
    if submissionWindowDays < MIN_SUBMISSION_WINDOW_DAYS then 7 else submissionWindowDays
  }

  function DefaultDeadline(open: Instant, submissionWindowDays: int, zone: int): Instant {
    AtLocalHour(open + EffectiveWindowDays(submissionWindowDays) * DAY, DEADLINE_LOCAL_HOUR, zone)
  }

  /** A derived deadline is a local 21:00, as many dates after the opening as
      the window has days, or seven where that is fewer than three, and so
      leaves at least two days and 21 hours to answer. */
  lemma DefaultDeadlineWindow(open: Instant, submissionWindowDays: int, zone: int)
    ensures var close := DefaultDeadline(open, submissionWindowDays, zone);
            && SecondOfDay(close, zone) == 21 * 3600
            && LocalDay(close, zone)
               == LocalDay(open, zone) + (if submissionWindowDays >= 3 then submissionWindowDays else 7)
            && close > open + 2 * DAY + 21 * HOUR
  {
    var window := EffectiveWindowDays(submissionWindowDays);
    AtLocalHourPins(open + window * DAY, DEADLINE_LOCAL_HOUR, zone);
    assert (open + window * DAY + zone) / DAY == (open + zone) / DAY + window;
  }

  // ---- The cadence -------------------------------------------------------

  /** A loop's frequency; every unknown value counts as monthly. */
  datatype Frequency = Biweekly | Quarterly | Monthly

  function AddMonths(t: Instant, months: int, zone: int): Instant {
    AddMonthsClamped(LocalDay(t, zone), months) * DAY + SecondOfDay(t, zone) - zone
  }

  /** The next slot of the cadence. Month arithmetic happens in the zone the
      instant itself carries, which need not be the loop's. */
  function CadenceSlot(currentOpen: Instant, openZone: int, frequency: Frequency): Instant {
    match frequency
    case Biweekly => currentOpen + 14 * DAY
    case Quarterly => AddMonths(currentOpen, 3, openZone)
    case Monthly => AddMonths(currentOpen, 1, openZone)
  }

  function NextIssueOpenTime(currentOpen: Instant, openZone: int, frequency: Frequency, now: Instant): Instant {
    var next := CadenceSlot(currentOpen, openZone, frequency);
    if next < now + 24 * HOUR then now + 48 * HOUR else next
  }

  function CadenceNextOpen(lastOpensAt: Instant, openZone: int, frequency: Frequency, loc: int, now: Instant): Instant {
    var next := AtLocalHour(NextIssueOpenTime(lastOpensAt, openZone, frequency, now), NEXT_OPEN_LOCAL_HOUR, loc);
    if next < now + 12 * HOUR then AtLocalHour(next + DAY, NEXT_OPEN_LOCAL_HOUR, loc) else next
  }

  function Max(a: int, b: int): int { if a >= b then a else b }

  /** Whatever the last opening and the frequency, the next round opens at a
      local 09:00, at least 12 hours ahead, and at most 9 hours after the
      later of its slot and the two-day breather. */
  lemma CadenceOpensAtNine(lastOpensAt: Instant, openZone: int, frequency: Frequency, loc: int, now: Instant)
    ensures var next := CadenceNextOpen(lastOpensAt, openZone, frequency, loc, now);
            && SecondOfDay(next, loc) == 9 * HOUR
            && next >= now + 12 * HOUR
            && next <= Max(CadenceSlot(lastOpensAt, openZone, frequency), now + 48 * HOUR) + 9 * HOUR
  {
    hide AddMonthsClamped;
    var slot := NextIssueOpenTime(lastOpensAt, openZone, frequency, now);
    AtLocalHourPins(slot, NEXT_OPEN_LOCAL_HOUR, loc);
    AtLocalHourPins(AtLocalHour(slot, NEXT_OPEN_LOCAL_HOUR, loc) + DAY, NEXT_OPEN_LOCAL_HOUR, loc);
  }

  /** A loop on a rhythm stays on it: a monthly or quarterly round that opened
      at a local 09:00, with its next slot at least a day ahead, is followed
      exactly that many months later, on the same day of the month (or the
      month's last), again at 09:00. */
  lemma CadenceKeepsTheDate(lastOpensAt: Instant, frequency: Frequency, loc: int, now: Instant)
    requires !frequency.Biweekly?
    ensures var next := CadenceNextOpen(lastOpensAt, loc, frequency, loc, now);
            var months := if frequency.Quarterly? then 3 else 1;
            SecondOfDay(lastOpensAt, loc) == 9 * HOUR && CadenceSlot(lastOpensAt, loc, frequency) >= now + 24 * HOUR ==>
            && next == CadenceSlot(lastOpensAt, loc, frequency)
            && SecondOfDay(next, loc) == 9 * HOUR
            && MonthOf(LocalDay(next, loc)) == MonthOf(LocalDay(lastOpensAt, loc)) + months
            && DayOfMonth(LocalDay(next, loc))
               == Min(DayOfMonth(LocalDay(lastOpensAt, loc)), DaysInMonth(MonthOf(LocalDay(lastOpensAt, loc)) + months))
  {
    hide AddMonthsClamped, MonthOf, MonthStart, DayOfMonth, DaysInMonth;
    var months := if frequency.Quarterly? then 3 else 1;
    var day := LocalDay(lastOpensAt, loc);
    AddMonthsLands(day, months);
    var slot := CadenceSlot(lastOpensAt, loc, frequency);
    if SecondOfDay(lastOpensAt, loc) == 9 * HOUR {
      assert slot + loc == AddMonthsClamped(day, months) * DAY + 9 * HOUR;
      assert LocalDay(slot, loc) == AddMonthsClamped(day, months);
      assert AtLocalHour(slot, NEXT_OPEN_LOCAL_HOUR, loc) == slot;
    }
  }

  /** The date on which a round is followed: two weeks on, or one or three
      calendar months, on the same day of the month or the month's last. */
  predicate NextDate(frequency: Frequency, date: int, next: int) {
    match frequency
    case Biweekly => next == date + 14
    case Quarterly => MonthsLater(date, next, 3)
    case Monthly => MonthsLater(date, next, 1)
  }

  predicate MonthsLater(date: int, next: int, months: int) {
    && MonthOf(next) == MonthOf(date) + months
    && DayOfMonth(next) == Min(DayOfMonth(date), DaysInMonth(MonthOf(next)))
  }

  /** The slot of the cadence is the time of day of the last opening, on the
      date that follows its own, both in the zone that instant carries. A round
      opens at local 09:00 on the slot's local date, or a day later if that
      would leave less than 12 hours; a slot less than 24 hours off gives way to
      the local date 48 hours from now. */
  lemma CadenceDates(
    lastOpensAt: Instant, openZone: int, frequency: Frequency, loc: int, now: Instant, slot: Instant)
    requires NextDate(frequency, LocalDay(lastOpensAt, openZone), LocalDay(slot, openZone))
    requires SecondOfDay(slot, openZone) == SecondOfDay(lastOpensAt, openZone)
    ensures var next := CadenceNextOpen(lastOpensAt, openZone, frequency, loc, now);
            && SecondOfDay(next, loc) == 9 * 3600
            && LocalDay(next, loc)
               == if slot < now + 24 * 3600 then LocalDay(now + 48 * 3600, loc)
                  else if LocalDay(slot, loc) * 86400 + 9 * 3600 - loc < now + 12 * 3600 then LocalDay(slot, loc) + 1
                  else LocalDay(slot, loc)
  {
    hide CadenceSlot, NextDate, AtLocalHour, LocalDay, SecondOfDay;
    SlotOfDate(lastOpensAt, openZone, frequency, slot);
    var open := NextIssueOpenTime(lastOpensAt, openZone, frequency, now);
    NineOClock(open, loc);
    NineOClock(AtLocalHour(open, NEXT_OPEN_LOCAL_HOUR, loc) + DAY, loc);
  }

  lemma NineOClock(t: Instant, loc: int)
    ensures var nine := AtLocalHour(t, NEXT_OPEN_LOCAL_HOUR, loc);
            && nine == LocalDay(t, loc) * 86400 + 9 * 3600 - loc
            && t - 15 * 3600 < nine
            && LocalDay(nine, loc) == LocalDay(t, loc) && LocalDay(nine + DAY, loc) == LocalDay(t, loc) + 1
            && SecondOfDay(nine, loc) == 9 * 3600
  {
  }

  lemma SlotOfDate(lastOpensAt: Instant, openZone: int, frequency: Frequency, slot: Instant)
    requires NextDate(frequency, LocalDay(lastOpensAt, openZone), LocalDay(slot, openZone))
    requires SecondOfDay(slot, openZone) == SecondOfDay(lastOpensAt, openZone)
    ensures CadenceSlot(lastOpensAt, openZone, frequency) == slot
  {
    hide AddMonthsClamped, MonthOf, MonthStart, DayOfMonth, DaysInMonth;
    var date, next := LocalDay(lastOpensAt, openZone), LocalDay(slot, openZone);
    if !frequency.Biweekly? {
      var months := if frequency.Quarterly? then 3 else 1;
      AddMonthsLands(date, months);
      SameDate(next, AddMonthsClamped(date, months));
    }
  }

  lemma SlotFollows(lastOpensAt: Instant, openZone: int, frequency: Frequency)
    ensures var slot := CadenceSlot(lastOpensAt, openZone, frequency);
            && NextDate(frequency, LocalDay(lastOpensAt, openZone), LocalDay(slot, openZone))
            && SecondOfDay(slot, openZone) == SecondOfDay(lastOpensAt, openZone)
  {
    hide AddMonths, AddMonthsClamped, MonthOf, MonthStart, DayOfMonth, DaysInMonth, LocalDay, SecondOfDay;
    var date := LocalDay(lastOpensAt, openZone);
    DateMoves(lastOpensAt, openZone, AddMonthsClamped(date, 1));
    DateMoves(lastOpensAt, openZone, AddMonthsClamped(date, 3));
    DateMoves(lastOpensAt, openZone, date + 14);
    AddMonthsLands(date, 1);
    AddMonthsLands(date, 3);
  }

  lemma DateMoves(t: Instant, zone: int, date: int)
    ensures LocalDay(date * DAY + SecondOfDay(t, zone) - zone, zone) == date
    ensures SecondOfDay(date * DAY + SecondOfDay(t, zone) - zone, zone) == SecondOfDay(t, zone)
    ensures t == LocalDay(t, zone) * DAY + SecondOfDay(t, zone) - zone
    ensures forall months :: date == AddMonthsClamped(LocalDay(t, zone), months) ==>
              AddMonths(t, months, zone) == date * DAY + SecondOfDay(t, zone) - zone
  {
    hide AddMonthsClamped;
  }

  lemma SameDate(a: int, b: int)
    requires MonthOf(a) == MonthOf(b) && DayOfMonth(a) == DayOfMonth(b)
    ensures a == b
  {
    DateOfParts(a);
    DateOfParts(b);
    hide MonthOf, MonthStart, DayOfMonth;
  }

  // ---- A round's lifecycle events ----------------------------------------

  datatype EventKind =
    Reminder1 | Reminder2 | AdminSummary | AutoClose | CreateNextIssue | TokenCleanup | SessionCleanup | CommentDigest
  {
    predicate IsReminder() { Reminder1? || Reminder2? }
  }

  datatype EventSpec = EventSpec(kind: EventKind, at: Instant)

  function EventSlots(deadline: Instant, zone: int): seq<EventSpec> {
    [EventSpec(Reminder1, AtLocalHour(deadline - 3 * DAY, REMINDER_LOCAL_HOUR, zone)),
     EventSpec(Reminder2, AtLocalHour(deadline - DAY, REMINDER_LOCAL_HOUR, zone)),
     EventSpec(AdminSummary, AtLocalHour(deadline - DAY, REMINDER_LOCAL_HOUR, zone)),
     EventSpec(AutoClose, deadline)]
  }

  predicate Queueable(slot: EventSpec, now: Instant) {
    slot.kind.AutoClose? || slot.at >= now + MIN_REMINDER_LEAD
  }

  function QueueableSlots(slots: seq<EventSpec>, now: Instant): seq<EventSpec> {
    if slots == [] then []
    else
      var last := slots[|slots| - 1];
      QueueableSlots(slots[..|slots| - 1], now) + (if Queueable(last, now) then [last] else [])
  }

  function CountReminders(specs: seq<EventSpec>): nat {
    if specs == [] then 0
    else CountReminders(specs[..|specs| - 1]) + (if specs[|specs| - 1].kind.IsReminder() then 1 else 0)
  }

  function IssueEventSpecs(deadline: Instant, zone: int, now: Instant): seq<EventSpec> {
    QueueableSlots(EventSlots(deadline, zone), now)
  }

  /** The loop that builds the list, and the reminder count it reports. */
  method BuildIssueEventSpecs(deadline: Instant, zone: int, now: Instant)
    returns (events: seq<EventSpec>, remindersQueued: nat)
    ensures events == IssueEventSpecs(deadline, zone, now)
    ensures remindersQueued == CountReminders(events)
  {
    hide AtLocalHour, EventSlots;
    var slots := EventSlots(deadline, zone);
    events, remindersQueued := [], 0;
    for i := 0 to |slots|
      invariant events == QueueableSlots(slots[..i], now)
      invariant remindersQueued == CountReminders(events)
    {
      assert slots[..i + 1][..i] == slots[..i];
      assert slots[..i + 1][i] == slots[i];
      if !slots[i].kind.AutoClose? && slots[i].at < now + MIN_REMINDER_LEAD {
        continue;
      }
      assert (events + [slots[i]])[..|events|] == events;
      events := events + [slots[i]];
      if slots[i].kind.IsReminder() {
        remindersQueued := remindersQueued + 1;
      }
    }
    assert slots[..|slots|] == slots;
  }

  lemma {:induction false} QueueableSlotsOfFour(a: EventSpec, b: EventSpec, c: EventSpec, d: EventSpec, now: Instant)
    ensures QueueableSlots([a, b, c, d], now)
         == (if Queueable(a, now) then [a] else []) + (if Queueable(b, now) then [b] else [])
            + (if Queueable(c, now) then [c] else []) + (if Queueable(d, now) then [d] else [])
  {
    hide Queueable;
    assert [a][..0] == [];
    assert QueueableSlots([a], now) == (if Queueable(a, now) then [a] else []);
    assert [a, b][..1] == [a];
    assert QueueableSlots([a, b], now) == QueueableSlots([a], now) + (if Queueable(b, now) then [b] else []);
    assert [a, b, c][..2] == [a, b];
    assert QueueableSlots([a, b, c], now) == QueueableSlots([a, b], now) + (if Queueable(c, now) then [c] else []);
    assert [a, b, c, d][..3] == [a, b, c];
  }

  /** A round's events: the close exactly once, last, at the deadline; every
      other one with 12 hours' notice and at least 14 hours before the close;
      and a slot is left out only for want of notice. */
  lemma IssueEventSpecsShape(deadline: Instant, zone: int, now: Instant)
    ensures var specs := IssueEventSpecs(deadline, zone, now);
            var slots := EventSlots(deadline, zone);
            && 1 <= |specs| <= 4
            && specs[|specs| - 1] == EventSpec(AutoClose, deadline)
            && (forall i :: 0 <= i < |specs| - 1 ==>
                  && !specs[i].kind.AutoClose? && !specs[i].kind.CreateNextIssue?
                  && now + 12 * HOUR <= specs[i].at <= deadline - 14 * HOUR)
            && (forall i, j :: 0 <= i < j < |specs| ==> specs[i].kind != specs[j].kind)
            && (forall i :: 0 <= i < 3 ==> (slots[i] in specs <==> slots[i].at >= now + 12 * HOUR))
  {
    var slots := EventSlots(deadline, zone);
    AtLocalHourPins(deadline - DAY, REMINDER_LOCAL_HOUR, zone);
    AtLocalHourPins(deadline - 3 * DAY, REMINDER_LOCAL_HOUR, zone);
    QueueableSlotsOfFour(slots[0], slots[1], slots[2], slots[3], now);
    assert slots == [slots[0], slots[1], slots[2], slots[3]];
    hide AtLocalHour;
    assert slots[1].at <= deadline - 14 * HOUR && slots[0].at <= deadline - 14 * HOUR;
  }

  lemma TenOClock(t: Instant, zone: int, at: Instant)
    ensures AtLocalHour(t, REMINDER_LOCAL_HOUR, zone) == at
            <==> LocalDay(at, zone) == LocalDay(t, zone) && SecondOfDay(at, zone) == 10 * 3600
  {
  }

  lemma DaysBefore(t: Instant, zone: int)
    ensures LocalDay(t - 3 * DAY, zone) == LocalDay(t, zone) - 3 && LocalDay(t - DAY, zone) == LocalDay(t, zone) - 1
  {
  }

  /** A round's events by their dates, all of them and no other: the first
      reminder at local 10:00 three dates before the deadline's, the last one
      and the admin's summary at 10:00 one date before, each with 12 hours'
      notice, and the close at the deadline. */
  lemma IssueEventDates(deadline: Instant, zone: int, now: Instant, kind: EventKind, at: Instant)
    ensures EventSpec(kind, at) in IssueEventSpecs(deadline, zone, now)
            <==> || (kind.AutoClose? && at == deadline)
                 || (&& at >= now + 12 * 3600 && SecondOfDay(at, zone) == 10 * 3600
                     && (|| (kind.Reminder1? && LocalDay(at, zone) == LocalDay(deadline, zone) - 3)
                         || (kind.Reminder2? && LocalDay(at, zone) == LocalDay(deadline, zone) - 1)
                         || (kind.AdminSummary? && LocalDay(at, zone) == LocalDay(deadline, zone) - 1)))
  {
    var slots := EventSlots(deadline, zone);
    TenOClock(deadline - 3 * DAY, zone, at);
    TenOClock(deadline - DAY, zone, at);
    DaysBefore(deadline, zone);
    QueueableSlotsOfFour(slots[0], slots[1], slots[2], slots[3], now);
    hide AtLocalHour, LocalDay, SecondOfDay;
    assert slots == [slots[0], slots[1], slots[2], slots[3]];
  }

  /** What the last-day reminder lookup reports. */
  datatype RecentReminder = Recent | NoneRecent | LookupFailed

  /** The events that replace a round's pending ones when its deadline moves. */
  function RescheduledIssueEventSpecs(
    oldDeadline: Instant, newDeadline: Instant, zone: int, now: Instant, recent: RecentReminder): seq<EventSpec>
  {
    var events := IssueEventSpecs(newDeadline, zone, now);
    var immediate := EventSpec(Reminder2, now);
    if newDeadline < oldDeadline then events + [immediate]
    else if CountReminders(events) != 0 then events
    else if recent.NoneRecent? then events + [immediate]
    else events
  }

  lemma {:induction false} CountRemindersZero(specs: seq<EventSpec>)
    ensures CountReminders(specs) == 0 <==> forall i :: 0 <= i < |specs| ==> !specs[i].kind.IsReminder()
  {
    if specs != [] {
      CountRemindersZero(specs[..|specs| - 1]);
    }
  }

  /** The events that replace a round's, all of them and no other: those of its
      new deadline, and a last reminder now, when the deadline moves earlier, or
      when it leaves room for none and none went out in the last day. */
  lemma RescheduledDates(
    oldDeadline: Instant, newDeadline: Instant, zone: int, now: Instant, recent: RecentReminder,
    kind: EventKind, at: Instant)
    ensures EventSpec(kind, at) in RescheduledIssueEventSpecs(oldDeadline, newDeadline, zone, now, recent)
            <==> || EventSpec(kind, at) in IssueEventSpecs(newDeadline, zone, now)
                 || (&& kind.Reminder2? && at == now
                     && (|| newDeadline < oldDeadline
                         || (&& recent.NoneRecent?
                             && (LocalDay(newDeadline, zone) - 1) * 86400 + 10 * 3600 - zone < now + 12 * 3600)))
  {
    var events := IssueEventSpecs(newDeadline, zone, now);
    LastReminder(newDeadline, zone, now);
    hide IssueEventSpecs, CountReminders, LocalDay;
  }

  /** A round has a reminder to come exactly when there is room for the last
      one. */
  lemma LastReminder(deadline: Instant, zone: int, now: Instant)
    ensures CountReminders(IssueEventSpecs(deadline, zone, now)) == 0
            <==> (LocalDay(deadline, zone) - 1) * 86400 + 10 * 3600 - zone < now + 12 * 3600
  {
    var specs := IssueEventSpecs(deadline, zone, now);
    var last := (LocalDay(deadline, zone) - 1) * 86400 + 10 * 3600 - zone;
    var first := (LocalDay(deadline, zone) - 3) * 86400 + 10 * 3600 - zone;
    CountRemindersZero(specs);
    TenOClock(last, zone, last);
    TenOClock(first, zone, first);
    OnTheHour(deadline, zone);
    IssueEventDates(deadline, zone, now, Reminder2, last);
    hide CountReminders, IssueEventSpecs, LocalDay, SecondOfDay;
    forall i | 0 <= i < |specs| && specs[i].kind.IsReminder() ensures last >= now + 12 * 3600 {
      assert specs[i] in specs;
      IssueEventDates(deadline, zone, now, specs[i].kind, specs[i].at);
      OneTenOClock(specs[i].at, zone);
    }
  }

  lemma OnTheHour(deadline: Instant, zone: int)
    ensures var last := (LocalDay(deadline, zone) - 1) * 86400 + 10 * 3600 - zone;
            LocalDay(last, zone) == LocalDay(deadline, zone) - 1 && SecondOfDay(last, zone) == 10 * 3600
  {
  }

  lemma OneTenOClock(at: Instant, zone: int)
    ensures at == LocalDay(at, zone) * 86400 + SecondOfDay(at, zone) - zone
  {
  }

  /** Moving a deadline earlier always sends word at once; moving it later
      leaves the round without any reminder only when one went out in the last
      day or the lookup failed. Either way the close is queued once. */
  lemma RescheduledReminders(
    oldDeadline: Instant, newDeadline: Instant, zone: int, now: Instant, recent: RecentReminder)
    ensures var specs := RescheduledIssueEventSpecs(oldDeadline, newDeadline, zone, now, recent);
            && EventSpec(AutoClose, newDeadline) in specs
            && (forall i, j :: 0 <= i < j < |specs| ==> specs[i] != specs[j])
            && (forall s :: s in specs ==>
                  && (s.kind.AutoClose? ==> s.at == newDeadline)
                  && !s.kind.CreateNextIssue?)
            && (newDeadline < oldDeadline ==> EventSpec(Reminder2, now) in specs)
            && ((forall s :: s in specs ==> !s.kind.IsReminder())
                <==> newDeadline >= oldDeadline && !recent.NoneRecent?
                     && CountReminders(IssueEventSpecs(newDeadline, zone, now)) == 0)
  {
    var events := IssueEventSpecs(newDeadline, zone, now);
    IssueEventSpecsShape(newDeadline, zone, now);
    CountRemindersZero(events);
    hide IssueEventSpecs, CountReminders;
    var specs := RescheduledIssueEventSpecs(oldDeadline, newDeadline, zone, now, recent);
    assert specs == events || specs == events + [EventSpec(Reminder2, now)];
    assert events[|events| - 1] in events && events[|events| - 1] in specs;
    if CountReminders(events) != 0 {
      var i :| 0 <= i < |events| && events[i].kind.IsReminder();
      assert events[i] in specs;
    }
    if specs != events {
      assert specs[|events|] == EventSpec(Reminder2, now);
    }
  }
}
