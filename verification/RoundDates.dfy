/** On which dates rounds open and close, and under which label, after each
    handler that sets them. */
module RoundDates {
  import opened Options
  import opened Calendar
  import opened RoundTiming
  import opened SchedulerPolicy
  import opened RoundTables
  import opened RoundHandlers
  import opened RoundInvariants
  import opened RoundRuns
  import opened RoundSafety
  import opened RoundOpenings

  /** A local time of day, in whole hours, on a date. */
  ghost predicate At(t: Instant, zone: int, date: int, hour: int) {
    LocalDay(t, zone) == date && SecondOfDay(t, zone) == hour * 3600
  }

  // ---- Labels ------------------------------------------------------------

  /** Another edition of the group has the n-th month's label, counted from
      January of year 0. */
  ghost predicate HeldByOther(issues: seq<Issue>, g: nat, d: nat, n: int) {
    exists i :: 0 <= i < |issues| && i != d && issues[i].group == g
                && 1 <= issues[i].month <= 12 && 12 * issues[i].year + issues[i].month - 1 == n
  }

  /** An edition carries the first label from some month on that no other
      edition of its group has. */
  ghost predicate FirstFreeLabel(issues: seq<Issue>, g: nat, d: nat, base: int)
    requires d < |issues|
  {
    && 1 <= issues[d].month <= 12
    && var n := 12 * issues[d].year + issues[d].month - 1;
       && base <= n
       && !HeldByOther(issues, g, d, n)
       && (forall m :: base <= m < n ==> HeldByOther(issues, g, d, m))
  }

  lemma LabelNumber(month: int, year: int, k: nat)
    requires 1 <= month <= 12
    ensures 1 <= LabelMonth(month, k) <= 12
    ensures 12 * LabelYear(month, year, k) + LabelMonth(month, k) - 1 == 12 * year + month - 1 + k
  {
  }

  lemma TakenIsHeld(issues: seq<Issue>, g: nat, d: nat, month: int, year: int)
    requires 1 <= month <= 12
    ensures LabelTaken(issues, g, Some(d), month, year) <==> HeldByOther(issues, g, d, 12 * year + month - 1)
  {
  }

  lemma DateNumber(date: int)
    ensures 12 * YearOf(date) + MonthOfYear(date) - 1 == MonthOf(date)
  {
    hide MonthOf, MonthStart;
  }

  /** A round relabelled by the walk. */
  lemma WalkedLabel(a: seq<Issue>, b: seq<Issue>, g: nat, exclude: Option<nat>, month: int, year: int)
    requires 1 <= month <= 12
    requires exclude.Some? ==> exclude.value < |a|
    requires |b| == (if exclude.Some? then |a| else |a| + 1)
    requires var d := if exclude.Some? then exclude.value else |a|;
             var masthead := NextAvailableLabel(a, g, exclude, month, year);
             && masthead.Some? && b[d].month == masthead.value.month && b[d].year == masthead.value.year
             && (forall i :: 0 <= i < |a| && i != d ==>
                   b[i].group == a[i].group && b[i].month == a[i].month && b[i].year == a[i].year)
    ensures FirstFreeLabel(b, g, if exclude.Some? then exclude.value else |a|, 12 * year + month - 1)
  {
    hide LabelWalk, LabelTaken, LabelMonth, LabelYear, HeldByOther;
    var d := if exclude.Some? then exclude.value else |a|;
    var base := 12 * year + month - 1;
    var k := LabelWalk(a, g, exclude, month, year, 0).value;
    forall j: nat | j <= k
      ensures HeldByOther(b, g, d, base + j)
              <==> LabelTaken(a, g, exclude, LabelMonth(month, j), LabelYear(month, year, j))
    {
      LabelNumber(month, year, j);
      TakenIsHeld(b, g, d, LabelMonth(month, j), LabelYear(month, year, j));
      SameTaken(a, b, g, exclude, LabelMonth(month, j), LabelYear(month, year, j));
    }
    LabelNumber(month, year, k);
    forall m | base <= m < base + k ensures HeldByOther(b, g, d, m) {
      var j: nat := m - base;
      assert LabelTaken(a, g, exclude, LabelMonth(month, j), LabelYear(month, year, j));
    }
  }

  lemma SameTaken(a: seq<Issue>, b: seq<Issue>, g: nat, exclude: Option<nat>, month: int, year: int)
    requires exclude.Some? ==> exclude.value < |a|
    requires |b| == (if exclude.Some? then |a| else |a| + 1)
    requires var d := if exclude.Some? then exclude.value else |a|;
             forall i :: 0 <= i < |a| && i != d ==>
               b[i].group == a[i].group && b[i].month == a[i].month && b[i].year == a[i].year
    ensures var d := if exclude.Some? then exclude.value else |a|;
            LabelTaken(b, g, Some(d), month, year) == LabelTaken(a, g, exclude, month, year)
  {
    var d := if exclude.Some? then exclude.value else |a|;
    if LabelTaken(a, g, exclude, month, year) {
      var i :| 0 <= i < |a| && Some(i) != exclude && a[i].group == g && a[i].month == month && a[i].year == year;
      assert b[i].group == g;
    }
  }

  // ---- The schedule editor -----------------------------------------------

  /** The group's one draft, and its one unfired opening, which is for that
      draft and at its opening time. */
  ghost predicate NextRound(w: World, g: nat, d: nat, e: nat)
    requires Keyed(w)
  {
    && d < |w.issues| && IsDraft(w.issues[d], g, None)
    && (forall j :: 0 <= j < |w.issues| && IsDraft(w.issues[j], g, None) ==> j == d)
    && e < |w.events| && w.events[e] == NewEvent(d, EventSpec(CreateNextIssue, w.issues[d].opensAt))
    && (forall f :: 0 <= f < |w.events| && IsOpening(w.events[f]) && w.issues[w.events[f].issue].group == g ==> f == e)
  }

  /** No round but one differs. */
  ghost predicate OthersStay(w: World, w1: World, d: nat) {
    && |w1.issues| == (if d < |w.issues| then |w.issues| else |w.issues| + 1)
    && (forall i :: 0 <= i < |w.issues| && i != d ==> w1.issues[i] == w.issues[i])
  }

  /** The group's unfired openings give way to one; no other row is touched. */
  ghost predicate OpeningReplaced(w: World, w1: World, g: nat)
    requires Keyed(w)
  {
    && |w1.events| == |w.events| + 1
    && (forall k :: 0 <= k < |w.events| ==>
          if IsOpening(w.events[k]) && w.issues[w.events[k].issue].group == g then !w1.events[k].Live()
          else w1.events[k] == w.events[k])
  }

  /** A draft with other dates and another label. */
  ghost predicate Redated(a: Issue, b: Issue) {
    b == a.(month := b.month, year := b.year, blindLabel := b.blindLabel, opensAt := b.opensAt, deadline := b.deadline)
  }

  /** The next round as pinned: its draft and opening, its label, the window
      saved, and nothing else. */
  ghost predicate Pinned(w: World, w1: World, g: nat, d: nat, windowDays: int, base: int)
    requires Keyed(w) && Keyed(w1) && g < |w.loops|
  {
    && NextRound(w1, g, d, |w.events|) && OpeningReplaced(w, w1, g) && OthersStay(w, w1, d)
    && (d < |w.issues| ==> IsDraft(w.issues[d], g, None) && Redated(w.issues[d], w1.issues[d]))
    && FirstFreeLabel(w1.issues, g, d, base)
    && w1 == w.(loops := w.loops[g := w.loops[g].(windowDays := windowDays)], issues := w1.issues, events := w1.events)
  }

  lemma {:induction false} PinningRound(w: World, g: nat, half: NextHalf, date: int) returns (d: nat)
    requires Keyed(w) && OneOfEach(w.issues) && half.month == MonthOfYear(date) && half.year == YearOf(date)
    requires ApplyNext(w, g, half).Committed?
    ensures var w1 := ApplyNext(w, g, half).world;
            && g < |w.loops| && Pinned(w, w1, g, d, half.windowDays, MonthOf(date))
            && w1.issues[d].opensAt == half.open && w1.issues[d].deadline == half.close
  {
    hide MonthOf, MonthStart, MonthOfYear, YearOf, LabelWalk, FirstFreeLabel, EventTaken, EarliestDraft, OneOfEach,
        NextRound;
    var saved := w.(loops := w.loops[g := w.loops[g].(windowDays := half.windowDays)]);
    var cleared := DeletePendingOfGroup(saved, g, true);
    var draft := NextDraft(cleared, g);
    d := if draft.Some? then draft.value else |w.issues|;
    var w1 := ApplyNext(w, g, half).world;
    DateNumber(date);
    WalkedLabel(w.issues, w1.issues, g, draft, MonthOfYear(date), YearOf(date));
    assert w1.issues == (if draft.Some? then w.issues else w.issues + [w1.issues[d]])[d := w1.issues[d]];
    OneDraft(w, g, draft);
    PinnedAlone(cleared, w1, g, d);
  }

  lemma OneDraft(w: World, g: nat, draft: Option<nat>)
    requires OneOfEach(w.issues) && draft == NextDraft(w, g)
    ensures forall j :: 0 <= j < |w.issues| && IsDraft(w.issues[j], g, None) ==> draft == Some(j)
  {
  }

  lemma PinnedAlone(w: World, w1: World, g: nat, d: nat)
    requires Keyed(w) && Keyed(w1) && NoOpening(w, g)
    requires |w.issues| <= |w1.issues| <= |w.issues| + 1 && d < |w1.issues| && IsDraft(w1.issues[d], g, None)
    requires forall j :: 0 <= j < |w.issues| && j != d ==> w1.issues[j] == w.issues[j] && !IsDraft(w.issues[j], g, None)
    requires d < |w.issues| ==> w.issues[d].group == g
    requires |w.issues| < |w1.issues| ==> d == |w.issues|
    requires w1.events == w.events + [NewEvent(d, EventSpec(CreateNextIssue, w1.issues[d].opensAt))]
    ensures NextRound(w1, g, d, |w.events|)
  {
  }

  // ---- Queueing the next round -------------------------------------------

  /** An opening on a loop's cadence: the slot is the date that follows the last
      opening's, at the same time of day, in the zone that instant carries. The
      round opens at local 09:00 of the slot's date, or a day later if that would
      leave less than 12 hours; a slot less than 24 hours off gives way to the
      date 48 hours from now. */
  ghost predicate OnCadence(open: Instant, last: Instant, loop: Loop, now: Instant) {
    exists slot :: IsSlot(slot, last, loop) && OpensFor(open, slot, loop, now)
  }

  ghost predicate IsSlot(slot: Instant, last: Instant, loop: Loop) {
    && NextDate(loop.frequency, LocalDay(last, loop.storedZone), LocalDay(slot, loop.storedZone))
    && SecondOfDay(slot, loop.storedZone) == SecondOfDay(last, loop.storedZone)
  }

  ghost predicate OpensFor(open: Instant, slot: Instant, loop: Loop, now: Instant) {
    At(open, loop.zone,
       if slot < now + 24 * 3600 then LocalDay(now + 48 * 3600, loop.zone)
       else if LocalDay(slot, loop.zone) * 86400 + 9 * 3600 - loop.zone < now + 12 * 3600 then LocalDay(slot, loop.zone) + 1
       else LocalDay(slot, loop.zone),
       9)
  }

  /** Answers are due at local 21:00, as many dates after the opening's as the
      window has days, or seven. */
  ghost predicate DueAfterWindow(deadline: Instant, open: Instant, loop: Loop) {
    At(deadline, loop.zone, LocalDay(open, loop.zone) + (if loop.windowDays >= 3 then loop.windowDays else 7), 21)
  }

  lemma SlotOnCadence(last: Instant, loop: Loop, now: Instant)
    ensures OnCadence(CadenceNextOpen(last, loop.storedZone, loop.frequency, loop.zone, now), last, loop, now)
  {
    var slot := CadenceSlot(last, loop.storedZone, loop.frequency);
    SlotFollows(last, loop.storedZone, loop.frequency);
    hide CadenceSlot, CadenceNextOpen, NextDate, LocalDay, SecondOfDay;
    CadenceDates(last, loop.storedZone, loop.frequency, loop.zone, now, slot);
    assert IsSlot(slot, last, loop);
  }

  lemma DueOnTime(open: Instant, loop: Loop)
    ensures DueAfterWindow(DefaultDeadline(open, loop.windowDays, loop.zone), open, loop)
  {
    DefaultDeadlineWindow(open, loop.windowDays, loop.zone);
    hide DefaultDeadline, LocalDay, SecondOfDay;
  }

  /** A round's label after a lookup from some month on: the first free one; or
      that month's, free or not, when the lookup fails or finds none. */
  ghost predicate LabelledFromMonth(issues: seq<Issue>, g: nat, d: nat, base: int, failed: bool)
    requires d < |issues|
  {
    if issues[d].blindLabel then
      && 1 <= issues[d].month <= 12 && 12 * issues[d].year + issues[d].month - 1 == base
      && (failed || forall m :: base <= m < base + 1200 ==> HeldByOther(issues, g, d, m))
    else !failed && FirstFreeLabel(issues, g, d, base)
  }

  /** A lookup from its opening's month on. */
  ghost predicate Labelled(issues: seq<Issue>, g: nat, d: nat, date: int, failed: bool)
    requires d < |issues|
  {
    LabelledFromMonth(issues, g, d, MonthOf(date), failed)
  }

  lemma LookedUp(
    a: seq<Issue>, b: seq<Issue>, g: nat, exclude: Option<nat>, month: int, year: int, failed: bool)
    requires 1 <= month <= 12
    requires exclude.Some? ==> exclude.value < |a|
    requires |b| == (if exclude.Some? then |a| else |a| + 1)
    requires var d := if exclude.Some? then exclude.value else |a|;
             var masthead := IssueLabel(a, g, exclude, month, year, failed);
             && b[d].month == masthead.month && b[d].year == masthead.year && b[d].blindLabel == masthead.blind
             && (forall i :: 0 <= i < |a| && i != d ==>
                   b[i].group == a[i].group && b[i].month == a[i].month && b[i].year == a[i].year)
    ensures LabelledFromMonth(b, g, if exclude.Some? then exclude.value else |a|, 12 * year + month - 1, failed)
  {
    hide LabelWalk, FirstFreeLabel, LabelTaken, HeldByOther, LabelMonth, LabelYear;
    var d := if exclude.Some? then exclude.value else |a|;
    if !failed && NextAvailableLabel(a, g, exclude, month, year).Some? {
      WalkedLabel(a, b, g, exclude, month, year);
    } else if !failed {
      var base := 12 * year + month - 1;
      forall m | base <= m < base + 1200 ensures HeldByOther(b, g, d, m) {
        var k: nat := m - base;
        assert LabelTaken(a, g, exclude, LabelMonth(month, k), LabelYear(month, year, k));
        LabelNumber(month, year, k);
        TakenIsHeld(b, g, d, LabelMonth(month, k), LabelYear(month, year, k));
        SameTaken(a, b, g, exclude, LabelMonth(month, k), LabelYear(month, year, k));
      }
    }
  }

  lemma LabelledFrom(a: seq<Issue>, b: seq<Issue>, g: nat, exclude: Option<nat>, open: Instant, zone: int, failed: bool)
    requires exclude.Some? ==> exclude.value < |a|
    requires |b| == (if exclude.Some? then |a| else |a| + 1)
    requires var d := if exclude.Some? then exclude.value else |a|;
             var masthead := LabelForOpening(a, g, exclude, open, zone, failed);
             && b[d].month == masthead.month && b[d].year == masthead.year && b[d].blindLabel == masthead.blind
             && (forall i :: 0 <= i < |a| && i != d ==>
                   b[i].group == a[i].group && b[i].month == a[i].month && b[i].year == a[i].year)
    ensures Labelled(b, g, if exclude.Some? then exclude.value else |a|, LocalDay(open, zone), failed)
  {
    hide MonthOf, MonthStart, MonthOfYear, YearOf, IssueLabel, LabelledFromMonth;
    var date := LocalDay(open, zone);
    DateNumber(date);
    LookedUp(a, b, g, exclude, MonthOfYear(date), YearOf(date), failed);
  }

  /** What queueing leaves: one draft and one opening. A draft that opens more
      than 12 hours from now stays as it is; any other, and a new one, opens on
      the cadence, with the loop's window and a label looked up from its opening
      on. */
  ghost predicate QueuedOnCadence(w: World, w1: World, g: nat, last: Instant, labelFails: bool, d: nat)
    requires Keyed(w) && Keyed(w1) && g < |w.loops|
  {
    && NextRound(w1, g, d, |w.events|) && OpeningReplaced(w, w1, g) && OthersStay(w, w1, d)
    && w1 == w.(issues := w1.issues, events := w1.events)
    && (d < |w.issues| ==> IsDraft(w.issues[d], g, None) && Redated(w.issues[d], w1.issues[d]))
    && d <= |w.issues| && (d == |w.issues| ==> forall i :: 0 <= i < |w.issues| ==> !IsDraft(w.issues[i], g, None))
    && if d < |w.issues| && w.issues[d].opensAt > w.now + 12 * 3600 then w1.issues[d] == w.issues[d]
       else
         && OnCadence(w1.issues[d].opensAt, last, w.loops[g], w.now)
         && DueAfterWindow(w1.issues[d].deadline, w1.issues[d].opensAt, w.loops[g])
         && Labelled(w1.issues, g, d, LocalDay(w1.issues[d].opensAt, w.loops[g].zone), labelFails)
  }

  /** Queueing without a failing call, but for the label lookup. */
  lemma {:induction false} QueueNextDates(w: World, g: nat, last: Instant, fault: QueueFault) returns (d: nat)
    requires Keyed(w) && OneOfEach(w.issues) && FiredPast(w.events, w.now) && g < |w.loops|
    requires PendingNextRound(w, g).None? && fault.stop.NoQueueStop?
    ensures QueuedOnCadence(w, QueueNextIssueEvent(w, g, last, fault), g, last, fault.labelFails, d)
  {
    hide CadenceNextOpen, DefaultDeadline, LabelForOpening, PendingNextRoundAmong, EarliestDraft, OneOfEach, OnCadence,
        DueAfterWindow, Labelled, NextRound, LocalDay, EventTaken, CadenceSlot, SecondOfDay;
    var loop := w.loops[g];
    var cleared := DeletePendingOfGroup(w, g, true);
    var slot := CadenceNextOpen(last, loop.storedZone, loop.frequency, loop.zone, w.now);
    CadenceOpensAtNine(last, loop.storedZone, loop.frequency, loop.zone, w.now);
    SlotOnCadence(last, loop, w.now);
    DueOnTime(slot, loop);
    var draft := NextDraft(cleared, g);
    OneDraft(w, g, draft);
    d := if draft.Some? then draft.value else |w.issues|;
    var w1 := QueueNextIssueEvent(w, g, last, fault);
    var at := if draft.Some? && w.issues[d].opensAt > w.now + 12 * HOUR then w.issues[d].opensAt else slot;
    FutureFree(cleared, d, at);
    PinnedAlone(cleared, w1, g, d);
    if !(draft.Some? && w.issues[d].opensAt > w.now + 12 * HOUR) {
      LabelledFrom(w.issues, w1.issues, g, draft, slot, loop.zone, fault.labelFails);
    }
  }

  /** No unfired opening is left in the group, and none has fired ahead of its
      time, so the slot is free. */
  lemma FutureFree(w: World, d: nat, at: Instant)
    requires Keyed(w) && FiredPast(w.events, w.now) && at > w.now
    requires forall f :: 0 <= f < |w.events| && IsOpening(w.events[f]) ==> w.events[f].issue != d
    ensures !EventTaken(w.events, d, EventSpec(CreateNextIssue, at))
  {
  }

  /** Publishing, whole. Of a published round it is a no-op; a failed write
      changes nothing; otherwise the round is published, and on a loop that goes
      on by itself, with nothing queued and no failing call, the next round is
      queued on the cadence of this one's opening. */
  lemma {:induction false} PublishDates(w: World, i: nat, writeFails: bool, fault: QueueFault) returns (d: nat)
    requires Inv(w) && i < |w.issues|
    ensures var (w1, ok) := PublishRound(w, i, writeFails, fault);
            var g := w.issues[i].group;
            var published := SetStatus(w, i, Published);
            if w.issues[i].status == Published then ok && w1 == w
            else if writeFails then !ok && w1 == w
            else
              && ok
              && (!w.loops[g].autoCreate || PendingNextRound(published, g).Some? ==> w1 == published)
              && (w.loops[g].autoCreate && PendingNextRound(published, g).None? && fault.stop.NoQueueStop? ==>
                    QueuedOnCadence(published, w1, g, w.issues[i].opensAt, fault.labelFails, d))
  {
    d := 0;
    var g := w.issues[i].group;
    var published := SetStatus(w, i, Published);
    PublishedFacts(w, i);
    hide InvBut, QueuedOnCadence, PendingNextRoundAmong;
    if w.loops[g].autoCreate && PendingNextRound(published, g).None? && fault.stop.NoQueueStop? {
      d := QueueNextDates(published, g, w.issues[i].opensAt, fault);
    }
  }

  lemma PublishedFacts(w: World, i: nat)
    requires Inv(w) && i < |w.issues|
    ensures var published := SetStatus(w, i, Published);
            Keyed(published) && OneOfEach(published.issues) && FiredPast(published.events, published.now)
  {
    hide SlotsUnique, Closing, OwnCloses, NoOverlap;
  }

  /** The last edition of a group's archive. */
  ghost predicate LastEdition(issues: seq<Issue>, g: nat, i: nat) {
    && i < |issues| && issues[i].group == g && issues[i].status == Published
    && (forall j :: 0 <= j < |issues| && j != i && issues[j].group == g && issues[j].status == Published ==>
          || issues[j].year < issues[i].year
          || (issues[j].year == issues[i].year && issues[j].month < issues[i].month)
          || (issues[j].year == issues[i].year && issues[j].month == issues[i].month && j < i))
  }

  /** The repair of one loop, whole: it leaves alone a loop that is archived, not
      set up or not going on by itself, one with a round collecting or an opening
      queued for a draft, and one that has published nothing; any other is
      queued on the cadence of its last edition's opening. */
  lemma {:induction false} RepairDates(w: World, g: nat, fault: QueueFault) returns (d: nat)
    requires Inv(w) && g < |w.loops|
    ensures var w1 := ReconcileLoop(w, g, fault);
            var loop := w.loops[g];
            var alive := (exists i :: 0 <= i < |w.issues| && IsCollecting(w.issues[i], g))
                         || (exists f :: 0 <= f < |w.events| && IsQueuedOpening(w, f, g));
            if !loop.active || !loop.setupComplete || !loop.autoCreate || alive
               || (forall i :: 0 <= i < |w.issues| ==> !(w.issues[i].group == g && w.issues[i].status == Published))
            then w1 == w
            else fault.stop.NoQueueStop? ==>
              exists last :: 0 <= last < |w.issues| && LastEdition(w.issues, g, last)
                             && QueuedOnCadence(w, w1, g, w.issues[last].opensAt, fault.labelFails, d)
  {
    d := 0;
    RepairFacts(w);
    hide InvBut, QueuedOnCadence, PendingNextRoundAmong, QueueNextIssueEvent, OneOfEach, FiredPast, IsQueuedOpening;
    if Stalled(w, g) {
      var last := LatestPublished(w.issues, g).value;
      assert LastEdition(w.issues, g, last);
      if fault.stop.NoQueueStop? {
        d := QueueNextDates(w, g, w.issues[last].opensAt, fault);
      }
    }
  }

  lemma RepairFacts(w: World)
    requires Inv(w)
    ensures Keyed(w) && OneOfEach(w.issues) && FiredPast(w.events, w.now)
  {
  }

  // ---- Opening the next round --------------------------------------------

  /** A round dated from now: it opens now, answers are due after the loop's
      window, and its label is looked up from this month on. */
  ghost predicate DatedFromNow(w: World, issues: seq<Issue>, g: nat, d: nat, labelFails: bool)
    requires g < |w.loops| && d < |issues|
  {
    && issues[d].group == g && issues[d].opensAt == w.now
    && DueAfterWindow(issues[d].deadline, w.now, w.loops[g])
    && Labelled(issues, g, d, LocalDay(w.now, w.loops[g].zone), labelFails)
  }

  /** A group's draft, whichever it is when there is one. */
  ghost predicate TheDraft(w: World, g: nat, d: nat) {
    if d < |w.issues| then
      IsDraft(w.issues[d], g, None) && forall j :: 0 <= j < |w.issues| && IsDraft(w.issues[j], g, None) ==> j == d
    else d == |w.issues| && forall j :: 0 <= j < |w.issues| ==> !IsDraft(w.issues[j], g, None)
  }

  /** How far CreateNextIssue gets with the draft: nowhere when one of its calls
      fails before it writes; and otherwise the round is what it was, or dated
      from now when it has 12 hours or less left or is new, and collects unless
      the last write fails. */
  ghost predicate Opened(w: World, w1: World, g: nat, d: nat, fault: OpenFault)
    requires g < |w.loops|
  {
    var kept := d < |w.issues| && w.issues[d].deadline > w.now + 12 * 3600;
    var lost := !kept && if d < |w.issues| then fault.stop == ReanchorFails else fault.stop == CreateFails;
    && OthersStay(w, w1, d) && d < |w1.issues|
    && w1.issues[d].status == (if fault.stop == OpenWriteFails then Draft else Collecting)
    && !lost
    && if kept then
         w1.issues[d] == w.issues[d].(status := w1.issues[d].status, noClose := w1.issues[d].noClose)
       else DatedFromNow(w, w1.issues, g, d, fault.labelFails)
  }

  /** Opening the next round, whole: nothing happens on a loop that does not go
      on by itself, beside a collecting round, or for a draft that was re-pinned
      past the event's own time; a failing read or write of the dates changes
      nothing; and otherwise the draft, or a new round, is opened. */
  lemma {:induction false} OpenNextDates(w: World, g: nat, scheduledAt: Instant, fault: OpenFault) returns (d: nat)
    requires Keyed(w) && OneOfEach(w.issues) && g < |w.loops|
    ensures var (w1, ok) := OpenNextIssue(w, g, scheduledAt, fault);
            && TheDraft(w, g, d)
            && if fault.stop == ReadFails then !ok && w1 == w
               else if !w.loops[g].autoCreate || (exists i :: 0 <= i < |w.issues| && IsCollecting(w.issues[i], g))
                    || (d < |w.issues| && w.issues[d].opensAt > scheduledAt)
               then ok && w1 == w
               else if d < |w.issues| && w.issues[d].deadline > w.now + 12 * 3600 && fault.stop == OpenWriteFails
               then !ok && w1 == w
               else if !(d < |w.issues| && w.issues[d].deadline > w.now + 12 * 3600)
                       && fault.stop == (if d < |w.issues| then ReanchorFails else CreateFails)
               then !ok && w1 == w
               else ok == (fault.stop != OpenWriteFails) && Opened(w, w1, g, d, fault)
  {
    hide DefaultDeadline, LabelForOpening, EarliestDraft, CollectingRound, OneOfEach, QueueEvents, DueAfterWindow, Labelled,
        LocalDay;
    var loop := w.loops[g];
    var draft := NextDraft(w, g);
    OneDraft(w, g, draft);
    d := if draft.Some? then draft.value else |w.issues|;
    DueOnTime(w.now, loop);
    if draft.Some? {
      ReanchorDates(w, d, fault);
      QueuedRound(SetStatus(w, d, Collecting), d, fault.lost);
    } else {
      CreatedDates(w, g, fault);
    }
  }

  lemma ReanchorDates(w: World, d: nat, fault: OpenFault)
    requires Keyed(w) && d < |w.issues| && w.issues[d].status == Draft
    ensures var g := w.issues[d].group;
            var moved := Reanchor(w, d, fault.labelFails);
            var w1 := OpenForCollecting(moved, d, fault).0;
            && OthersStay(w, w1, d)
            && w1.issues[d].status == (if fault.stop == OpenWriteFails then Draft else Collecting)
            && DatedFromNow(w, w1.issues, g, d, fault.labelFails)
  {
    hide DefaultDeadline, LabelForOpening, QueueEvents, DueAfterWindow, Labelled, LocalDay;
    var g := w.issues[d].group;
    var loop := w.loops[g];
    var moved := Reanchor(w, d, fault.labelFails);
    DueOnTime(w.now, loop);
    QueuedRound(SetStatus(moved, d, Collecting), d, fault.lost);
    LabelledFrom(w.issues, OpenForCollecting(moved, d, fault).0.issues, g, Some(d), w.now, loop.zone, fault.labelFails);
  }

  lemma CreatedDates(w: World, g: nat, fault: OpenFault)
    requires Keyed(w) && g < |w.loops|
    ensures var loop := w.loops[g];
            var masthead := LabelForOpening(w.issues, g, None, w.now, loop.zone, fault.labelFails);
            var created := InsertIssue(w, g, masthead, w.now, DefaultDeadline(w.now, loop.windowDays, loop.zone));
            var w1 := OpenForCollecting(created, |w.issues|, fault).0;
            && OthersStay(w, w1, |w.issues|)
            && w1.issues[|w.issues|].status == (if fault.stop == OpenWriteFails then Draft else Collecting)
            && DatedFromNow(w, w1.issues, g, |w.issues|, fault.labelFails)
  {
    hide DefaultDeadline, LabelForOpening, QueueEvents, DueAfterWindow, Labelled, LocalDay;
    var loop := w.loops[g];
    var masthead := LabelForOpening(w.issues, g, None, w.now, loop.zone, fault.labelFails);
    var created := InsertIssue(w, g, masthead, w.now, DefaultDeadline(w.now, loop.windowDays, loop.zone));
    DueOnTime(w.now, loop);
    QueuedRound(SetStatus(created, |w.issues|, Collecting), |w.issues|, fault.lost);
    LabelledFrom(
      w.issues, OpenForCollecting(created, |w.issues|, fault).0.issues, g, None, w.now, loop.zone, fault.labelFails);
  }

  // ---- Starting by hand --------------------------------------------------

  /** What a request for a round must satisfy: a month of the year and a year
      from 2020 on, each the opening's own where left out; 0 to 20 questions; a
      deadline past the opening; and no round under way or overdue to open. */
  ghost predicate Acceptable(w: World, g: nat, req: StartRequest) {
    var open := if req.opensAt.Some? then req.opensAt.value else w.now;
    var date := LocalDay(open, if req.opensAt.Some? then req.zone else 0);
    && 0 <= req.month <= 12
    && (if req.year == 0 then YearOf(date) >= 2020 else req.year >= 2020)
    && 0 <= req.questionCount <= 20
    && (req.deadline.Some? ==> req.deadline.value > open)
    && (forall i :: 0 <= i < |w.issues| && w.issues[i].group == g ==>
          w.issues[i].status != Collecting && !(w.issues[i].status == Draft && w.issues[i].opensAt <= w.now))
  }

  /** A round dated as asked: the opening and the deadline given, or now and the
      loop's window; the month and year given, or those of the opening, as the
      base of its label. */
  ghost predicate DatedAsAsked(w: World, issues: seq<Issue>, g: nat, i: nat, req: StartRequest, labelFails: bool)
    requires g < |w.loops| && i < |issues|
  {
    var open := if req.opensAt.Some? then req.opensAt.value else w.now;
    var date := LocalDay(open, if req.opensAt.Some? then req.zone else 0);
    var month := if req.month == 0 then MonthOfYear(date) else req.month;
    var year := if req.year == 0 then YearOf(date) else req.year;
    && issues[i].group == g && issues[i].opensAt == open
    && (if req.deadline.Some? then issues[i].deadline == req.deadline.value
        else DueAfterWindow(issues[i].deadline, open, w.loops[g]))
    && LabelledFromMonth(issues, g, i, 12 * year + month - 1, labelFails)
  }

  /** The earliest draft that opens later than now, or none. */
  ghost predicate Upcoming(w: World, g: nat, d: nat) {
    if d < |w.issues| then
      && IsDraft(w.issues[d], g, None) && w.issues[d].opensAt > w.now
      && (forall j :: 0 <= j < |w.issues| && IsDraft(w.issues[j], g, None) && w.issues[j].opensAt > w.now ==>
            w.issues[d].opensAt <= w.issues[j].opensAt)
    else
      d == |w.issues| && forall j :: 0 <= j < |w.issues| ==> !(IsDraft(w.issues[j], g, None) && w.issues[j].opensAt > w.now)
  }

  /** A start by hand, whole: what it refuses; which round it is about; and how
      that round is dated, a new one as asked, and an upcoming draft from now,
      with the group's queued openings gone. */
  lemma StartDates(w: World, g: nat, req: StartRequest, fault: StartFault)
    requires Keyed(w) && g < |w.loops|
    ensures var (w1, response) := StartRound(w, g, req, fault);
            var i := StartedRound(w, g, fault);
            && (!fault.draftLookupFails ==> Upcoming(w, g, i)) && (fault.draftLookupFails ==> i == |w.issues|)
            && (response.Refused? <==> !Acceptable(w, g, req))
            && (!response.Accepted? ==> w1 == w)
            && (fault.writeFails ==> !response.Accepted?)
            && (Acceptable(w, g, req) && !fault.writeFails && i == |w.issues| ==> response.Accepted?)
            && (response.Accepted? ==>
                  && OthersStay(w, w1, i) && i < |w1.issues|
                  && w1.issues[i].status == (if i == |w.issues| && fault.statusFails then Draft else Collecting)
                  && (w1.issues[i].halfStarted <==>
                        if i < |w.issues| then w.issues[i].halfStarted else fault.statusFails)
                  && (if i == |w.issues| then DatedAsAsked(w, w1.issues, g, i, req, fault.labelFails)
                      else DatedFromNow(w, w1.issues, g, i, fault.labelFails) && NoOpening(w1, g)))
  {
    hide DefaultDeadline, LabelForOpening, IssueLabel, IssueEventSpecs, StartFresh, OpenDraftEarly, EarliestDraft,
        DatedFromNow, DatedAsAsked, NoOpening, MonthOf, MonthStart, YearOf, MonthOfYear, LocalDay, OthersStay;
    var asked := Requested(w, g, req);
    DefaultDeadlineWindow(asked.opensAt, w.loops[g].windowDays, w.loops[g].zone);
    hide SecondOfDay;
    if StartRound(w, g, req, fault).1.Accepted? {
      var i := StartedRound(w, g, fault);
      if i < |w.issues| {
        EarlyDates(w, g, i, fault.labelFails);
      } else {
        FreshDates(w, g, req, fault);
      }
    }
  }

  /** A slot that opening a draft now would fill is held already. */
  ghost predicate SlotHeld(w: World, g: nat, d: nat)
    requires g < |w.loops|
  {
    var loop := w.loops[g];
    exists close, e ::
      && DueAfterWindow(close, w.now, loop)
      && 0 <= e < |w.events| && w.events[e].Live() && w.events[e].issue == d
      && EventSpec(w.events[e].kind, w.events[e].at) in IssueEventSpecs(close, loop.zone, w.now)
  }

  /** And when an acceptable start fails: its write does, or the upcoming draft
      has an event already in a slot of its own new window. */
  lemma StartFails(w: World, g: nat, req: StartRequest, fault: StartFault)
    requires Keyed(w) && g < |w.loops| && Acceptable(w, g, req)
    ensures var i := StartedRound(w, g, fault);
            StartRound(w, g, req, fault).1.ServerError?
            <==> fault.writeFails || (i < |w.issues| && SlotHeld(w, g, i))
  {
    StartDates(w, g, req, fault);
    hide DefaultDeadline, LabelForOpening, IssueLabel, IssueEventSpecs, StartFresh, OpenDraftEarly, EarliestDraft,
        Acceptable, SlotHeld, DatedFromNow, DatedAsAsked, NoOpening, MonthOf, MonthStart, YearOf, MonthOfYear, LocalDay,
        OthersStay, Requested;
    var i := StartedRound(w, g, fault);
    if i < |w.issues| {
      EarlyFits(w, g, i, fault.labelFails);
    }
  }

  lemma EarlyFits(w: World, g: nat, d: nat, labelFails: bool)
    requires Keyed(w) && d < |w.issues| && g < |w.loops| && IsDraft(w.issues[d], g, None)
    ensures var loop := w.loops[g];
            var close := DefaultDeadline(w.now, loop.windowDays, loop.zone);
            var masthead := LabelForOpening(w.issues, g, Some(d), w.now, loop.zone, labelFails);
            OpenDraftEarly(w, g, d, masthead, w.now, close, IssueEventSpecs(close, loop.zone, w.now)).None?
            <==> SlotHeld(w, g, d)
  {
    var loop := w.loops[g];
    var close := DefaultDeadline(w.now, loop.windowDays, loop.zone);
    var masthead := LabelForOpening(w.issues, g, Some(d), w.now, loop.zone, labelFails);
    var specs := IssueEventSpecs(close, loop.zone, w.now);
    IssueEventSpecsShape(close, loop.zone, w.now);
    DueOnTime(w.now, loop);
    forall other | DueAfterWindow(other, w.now, loop) ensures other == close {
    }
    hide DefaultDeadline, LabelForOpening, IssueEventSpecs, DueAfterWindow, InsertAll;
    var consumed := DeletePendingOfGroup(SetStatus(SetSchedule(w, d, masthead, w.now, close), d, Collecting), g, true);
    if InsertAll(consumed, d, specs).Some? {
      forall k: nat | k < |specs| ensures !EventTaken(w.events, d, specs[k]) {
        InsertedWereFree(consumed, d, specs, k);
      }
    } else if !SlotHeld(w, g, d) {
      InsertAllFits(consumed, d, specs);
    }
  }

  lemma EarlyDates(w: World, g: nat, d: nat, labelFails: bool)
    requires Keyed(w) && d < |w.issues| && g < |w.loops|
    ensures var loop := w.loops[g];
            var close := DefaultDeadline(w.now, loop.windowDays, loop.zone);
            var masthead := LabelForOpening(w.issues, g, Some(d), w.now, loop.zone, labelFails);
            var r := OpenDraftEarly(w, g, d, masthead, w.now, close, IssueEventSpecs(close, loop.zone, w.now));
            r.Some? ==>
              && OthersStay(w, r.value, d) && r.value.issues[d].status == Collecting
              && r.value.issues[d].halfStarted == w.issues[d].halfStarted
              && DatedFromNow(w, r.value.issues, g, d, labelFails) && NoOpening(r.value, g)
  {
    hide DefaultDeadline, LabelForOpening, DueAfterWindow, Labelled, LocalDay, SecondOfDay;
    var loop := w.loops[g];
    var close := DefaultDeadline(w.now, loop.windowDays, loop.zone);
    var masthead := LabelForOpening(w.issues, g, Some(d), w.now, loop.zone, labelFails);
    var specs := IssueEventSpecs(close, loop.zone, w.now);
    IssueEventSpecsShape(close, loop.zone, w.now);
    hide IssueEventSpecs, InsertAll, EventSlots;
    var r := OpenDraftEarly(w, g, d, masthead, w.now, close, specs);
    if r.Some? {
      var consumed := DeletePendingOfGroup(SetStatus(SetSchedule(w, d, masthead, w.now, close), d, Collecting), g, true);
      InsertAllKeeps(consumed, d, specs);
      DueOnTime(w.now, loop);
      LabelledFrom(w.issues, r.value.issues, g, Some(d), w.now, loop.zone, labelFails);
    }
  }

  lemma FreshDates(w: World, g: nat, req: StartRequest, fault: StartFault)
    requires Keyed(w) && g < |w.loops|
    requires 1 <= Requested(w, g, req).month <= 12
    ensures var asked := Requested(w, g, req);
            var masthead := IssueLabel(w.issues, g, None, asked.month, asked.year, fault.labelFails);
            var w1 := StartFresh(w, g, masthead, asked.opensAt, asked.deadline, fault.statusFails, fault.lost);
            && OthersStay(w, w1, |w.issues|)
            && w1.issues[|w.issues|].status == (if fault.statusFails then Draft else Collecting)
            && w1.issues[|w.issues|].halfStarted == fault.statusFails
            && DatedAsAsked(w, w1.issues, g, |w.issues|, req, fault.labelFails)
  {
    hide DefaultDeadline, IssueLabel, QueueEvents, DueAfterWindow, LabelledFromMonth, MonthOf, MonthStart, YearOf,
        MonthOfYear, LocalDay;
    var asked := Requested(w, g, req);
    var i := |w.issues|;
    var masthead := IssueLabel(w.issues, g, None, asked.month, asked.year, fault.labelFails);
    var created := InsertIssue(w, g, masthead, asked.opensAt, asked.deadline);
    var begun := if fault.statusFails then NoteHalfStart(created, i) else SetStatus(created, i, Collecting);
    QueuedRound(begun, i, fault.lost);
    DueOnTime(asked.opensAt, w.loops[g]);
    LookedUp(w.issues, QueueEvents(begun, i, fault.lost).issues, g, None, asked.month, asked.year, fault.labelFails);
  }

  // ---- Moving a deadline -------------------------------------------------

  /** An opening queued at or before an instant. */
  ghost predicate OpensBy(w: World, g: nat, t: Instant)
    requires Keyed(w)
  {
    exists e :: 0 <= e < |w.events| && IsQueuedOpening(w, e, g) && w.events[e].at <= t
  }

  /** A last reminder goes out at once: the deadline moves earlier, or leaves no
      room for a reminder and none went out in the last day. */
  ghost predicate RemindsNow(w: World, i: nat, deadline: Instant, zone: int, recent: RecentReminder)
    requires i < |w.issues|
  {
    || deadline < w.issues[i].deadline
    || (recent == NoneRecent && (LocalDay(deadline, zone) - 1) * 86400 + 10 * 3600 - zone < w.now + 12 * 3600)
  }

  /** What a round with a new deadline has queued. */
  ghost predicate Wanted(
    w: World, i: nat, deadline: Instant, zone: int, recent: RecentReminder, kind: EventKind, at: Instant)
    requires i < |w.issues|
  {
    || (kind == AutoClose && at == deadline)
    || (&& at >= w.now + 12 * 3600 && SecondOfDay(at, zone) == 10 * 3600
        && (|| (kind == Reminder1 && LocalDay(at, zone) == LocalDay(deadline, zone) - 3)
            || (kind == Reminder2 && LocalDay(at, zone) == LocalDay(deadline, zone) - 1)
            || (kind == AdminSummary && LocalDay(at, zone) == LocalDay(deadline, zone) - 1)))
    || (kind == Reminder2 && at == w.now && RemindsNow(w, i, deadline, zone, recent))
  }

  /** A round moved to a new deadline: its unfired events are replaced by those
      wanted, and nothing else changes. */
  ghost predicate Rescheduled(w: World, w1: World, i: nat, deadline: Instant, zone: int, recent: RecentReminder)
    requires i < |w.issues|
  {
    && w1 == w.(issues := w.issues[i := w.issues[i].(deadline := deadline, noClose := false)], events := w1.events)
    && |w.events| <= |w1.events|
    && (forall e :: 0 <= e < |w.events| ==>
          if w.events[e].issue != i || w.events[e].state.Fired? then w1.events[e] == w.events[e]
          else !w1.events[e].Live())
    && (forall e :: |w.events| <= e < |w1.events| ==>
          && w1.events[e].issue == i && w1.events[e].state == Pending
          && Wanted(w, i, deadline, zone, recent, w1.events[e].kind, w1.events[e].at))
    && (forall kind: EventKind, at: Instant {:trigger Event(i, kind, at, Pending)} ::
          Wanted(w, i, deadline, zone, recent, kind, at) ==> Event(i, kind, at, Pending) in w1.events[|w.events|..])
  }

  /** Whether a last reminder has gone out this very second already. */
  ghost predicate RemindedNow(w: World, i: nat) {
    exists e :: 0 <= e < |w.events| && w.events[e].issue == i && w.events[e].kind == Reminder2
                && w.events[e].at == w.now && w.events[e].state.Fired?
  }

  function ZoneRead(w: World, i: nat, settingsFail: bool): int
    requires Keyed(w) && i < |w.issues|
  {
    if settingsFail then 0 else w.loops[w.issues[i].group].zone
  }

  lemma WantedSpecs(w: World, i: nat, deadline: Instant, lookups: RescheduleLookups, kind: EventKind, at: Instant)
    requires Keyed(w) && i < |w.issues|
    ensures EventSpec(kind, at) in RescheduledHalf(w, i, deadline, lookups).events
            <==> Wanted(w, i, deadline, ZoneRead(w, i, lookups.settingsFail), lookups.recent, kind, at)
  {
    var zone := ZoneRead(w, i, lookups.settingsFail);
    RescheduledDates(w.issues[i].deadline, deadline, zone, w.now, lookups.recent, kind, at);
    IssueEventDates(deadline, zone, w.now, kind, at);
    hide RescheduledIssueEventSpecs, IssueEventSpecs, LocalDay, SecondOfDay;
  }

  /** The inserts go through unless a last reminder that went out this second
      stands in the way of another. */
  lemma {:induction false} InsertsFit(w: World, i: nat, deadline: Instant, lookups: RescheduleLookups)
    requires Keyed(w) && FiredPast(w.events, w.now) && i < |w.issues| && deadline > w.now
    ensures var half := RescheduledHalf(w, i, deadline, lookups);
            var zone := ZoneRead(w, i, lookups.settingsFail);
            var cleared := DeletePendingOfIssue(SetDeadline(w, i, deadline), i);
            InsertAll(cleared, i, half.events).None?
            <==> RemindsNow(w, i, deadline, zone, lookups.recent) && RemindedNow(w, i)
  {
    var half := RescheduledHalf(w, i, deadline, lookups);
    var zone := ZoneRead(w, i, lookups.settingsFail);
    var cleared := DeletePendingOfIssue(SetDeadline(w, i, deadline), i);
    RescheduledReminders(w.issues[i].deadline, deadline, zone, w.now, lookups.recent);
    hide RescheduledIssueEventSpecs, LocalDay, SecondOfDay, RemindsNow, InsertAll;
    WantedSpecs(w, i, deadline, lookups, Reminder2, w.now);
    assert EventTaken(cleared.events, i, EventSpec(Reminder2, w.now)) <==> RemindedNow(w, i) by {
      if RemindedNow(w, i) {
        var e :| 0 <= e < |w.events| && w.events[e].issue == i && w.events[e].kind == Reminder2
                 && w.events[e].at == w.now && w.events[e].state.Fired?;
        assert cleared.events[e] == w.events[e];
      }
    }
    if RemindsNow(w, i, deadline, zone, lookups.recent) && RemindedNow(w, i) {
      if InsertAll(cleared, i, half.events).Some? {
        var k :| 0 <= k < |half.events| && half.events[k] == EventSpec(Reminder2, w.now);
        InsertedWereFree(cleared, i, half.events, k);
      }
    } else {
      forall k | 0 <= k < |half.events| ensures !EventTaken(cleared.events, i, half.events[k]) {
        assert half.events[k] in half.events;
        WantedSpecs(w, i, deadline, lookups, half.events[k].kind, half.events[k].at);
      }
      InsertAllFits(cleared, i, half.events);
    }
  }

  /** The transaction behind every move of a live deadline. */
  lemma {:induction false} MoveOutcome(w: World, i: nat, deadline: Instant, lookups: RescheduleLookups)
    requires Keyed(w) && FiredPast(w.events, w.now) && i < |w.issues| && deadline > w.now
    requires w.issues[i].status.Collecting?
    ensures var g := w.issues[i].group;
            var zone := ZoneRead(w, i, lookups.settingsFail);
            var applied := ApplyCurrent(w, g, RescheduledHalf(w, i, deadline, lookups));
            && (applied.Committed? <==> !(RemindsNow(w, i, deadline, zone, lookups.recent) && RemindedNow(w, i)))
            && (applied.RolledBack? ==> applied.error == Constraint)
            && (applied.Committed? ==> Rescheduled(w, applied.world, i, deadline, zone, lookups.recent))
  {
    var g := w.issues[i].group;
    var zone := ZoneRead(w, i, lookups.settingsFail);
    var half := RescheduledHalf(w, i, deadline, lookups);
    InsertsFit(w, i, deadline, lookups);
    hide RemindsNow, RemindedNow, LocalDay, SecondOfDay, Wanted;
    if ApplyCurrent(w, g, half).Committed? {
      RescheduleReplacesEvents(w, g, half);
      MovedRound(w, g, half);
      WantedSpecs(w, i, deadline, lookups, AutoClose, deadline);
      assert Wanted(w, i, deadline, zone, lookups.recent, AutoClose, deadline) by {
        ClosesAtDeadline(w, i, deadline, zone, lookups.recent);
      }
      NothingElseMoves(w, g, half);
      hide ApplyCurrent, RescheduledHalf;
      var w1 := ApplyCurrent(w, g, half).world;
      forall e | |w.events| <= e < |w1.events|
        ensures w1.events[e].issue == i && w1.events[e].state == Pending
        ensures Wanted(w, i, deadline, zone, lookups.recent, w1.events[e].kind, w1.events[e].at)
      {
        var k := e - |w.events|;
        assert w1.events[|w.events| + k] == NewEvent(half.issue, half.events[k]) && half.events[k] in half.events;
        WantedSpecs(w, i, deadline, lookups, half.events[k].kind, half.events[k].at);
      }
      forall kind: EventKind, at: Instant | Wanted(w, i, deadline, zone, lookups.recent, kind, at)
        ensures Event(i, kind, at, Pending) in w1.events[|w.events|..]
      {
        WantedSpecs(w, i, deadline, lookups, kind, at);
        var k :| 0 <= k < |half.events| && half.events[k] == EventSpec(kind, at);
        assert w1.events[|w.events|..][k] == w1.events[|w.events| + k] == NewEvent(i, half.events[k]);
      }
    }
  }

  lemma ClosesAtDeadline(w: World, i: nat, deadline: Instant, zone: int, recent: RecentReminder)
    requires i < |w.issues|
    ensures Wanted(w, i, deadline, zone, recent, AutoClose, deadline)
  {
  }

  lemma NothingElseMoves(w: World, g: nat, half: CurrentHalf)
    requires Keyed(w) && ApplyCurrent(w, g, half).Committed?
    ensures var w1 := ApplyCurrent(w, g, half).world;
            w1 == w.(issues := w.issues[half.issue := w1.issues[half.issue]], events := w1.events)
  {
    InsertAllKeeps(DeletePendingOfIssue(SetDeadline(w, half.issue, half.deadline), half.issue), half.issue, half.events);
    hide InsertAll;
  }

  lemma OpensByIff(w: World, g: nat, t: Instant)
    requires Keyed(w)
    ensures PinnedRoundOverlaps(w, g, t) <==> OpensBy(w, g, t)
  {
    assert PendingNextRound(w, g) == PendingNextRoundAmong(w, g, |w.events|);
  }

  /** Extending a deadline, whole: what refuses it, the one way its transaction
      can fail, and what it leaves. */
  lemma ExtendOutcome(w: World, i: nat, deadline: Instant, lookups: RescheduleLookups)
    requires Inv(w) && i < |w.issues|
    ensures var (w1, response) := ExtendDeadline(w, i, deadline, lookups);
            var zone := ZoneRead(w, i, lookups.settingsFail);
            var refused := w.issues[i].status != Collecting || deadline <= w.now || deadline <= w.issues[i].deadline
                           || OpensBy(w, w.issues[i].group, deadline);
            && (response.Refused? <==> refused)
            && (response.ServerError? <==>
                  !refused && RemindsNow(w, i, deadline, zone, lookups.recent) && RemindedNow(w, i))
            && (if response.Accepted? then Rescheduled(w, w1, i, deadline, zone, lookups.recent) else w1 == w)
  {
    RepairFacts(w);
    OpensByIff(w, w.issues[i].group, deadline);
    hide InvBut, ApplyCurrent, RescheduledHalf, Rescheduled, RemindsNow, RemindedNow, OpensBy, PendingNextRoundAmong;
    if w.issues[i].status == Collecting && deadline > w.now {
      MoveOutcome(w, i, deadline, lookups);
    }
  }

  /** Editing one likewise; a draft's is only written down. */
  lemma EditOutcome(w: World, i: nat, deadline: Instant, lookups: RescheduleLookups)
    requires Inv(w) && i < |w.issues|
    ensures var (w1, response) := EditDeadline(w, i, deadline, lookups);
            var zone := ZoneRead(w, i, lookups.settingsFail);
            var live := w.issues[i].status == Collecting;
            var refused := w.issues[i].status == Published || deadline <= w.now || deadline <= w.issues[i].opensAt
                           || (live && OpensBy(w, w.issues[i].group, deadline));
            && (response.Refused? <==> refused)
            && (response.ServerError? <==>
                  !refused && live && RemindsNow(w, i, deadline, zone, lookups.recent) && RemindedNow(w, i))
            && (if !response.Accepted? then w1 == w
                else if live then Rescheduled(w, w1, i, deadline, zone, lookups.recent)
                else w1 == w.(issues := w.issues[i := w.issues[i].(deadline := deadline)]))
  {
    RepairFacts(w);
    OpensByIff(w, w.issues[i].group, deadline);
    hide InvBut, ApplyCurrent, RescheduledHalf, Rescheduled, RemindsNow, RemindedNow, OpensBy, PendingNextRoundAmong;
    if w.issues[i].status == Collecting && deadline > w.now {
      MoveOutcome(w, i, deadline, lookups);
    }
  }

  // ---- The schedule editor, whole ----------------------------------------

  function Clock(date: int, hour: int, zone: int): Instant { date * 86400 + hour * 3600 - zone }

  /** What the editor refuses of a new close: it must be of the collecting round
      it was meant for, within 90 days, to come, after that round's opening, and,
      unless the next round moves too, before any queued opening. */
  ghost predicate CloseRefused(w: World, g: nat, req: ScheduleRequest, active: Option<nat>)
    requires Keyed(w) && g < |w.loops|
    requires active.Some? ==> active.value < |w.issues|
  {
    var today := LocalDay(w.now, w.loops[g].zone);
    && req.currentClose.Some?
    && var close := Clock(req.currentClose.value, 21, w.loops[g].zone);
       || active != Some(req.currentIssue) || w.issues[active.value].status != Collecting
       || req.currentClose.value < today || req.currentClose.value > today + 90
       || close <= w.now || close <= w.issues[active.value].opensAt
       || (req.nextOpen.None? && OpensBy(w, g, close))
  }

  /** A round still collects at an instant. */
  ghost predicate CollectsAt(w: World, g: nat, t: Instant) {
    exists i :: 0 <= i < |w.issues| && IsCollecting(w.issues[i], g) && t <= w.issues[i].deadline
  }

  /** And of the next round: the loop must go on by itself; it opens within 180
      days, from tomorrow on, for 3 to 21 days, and after the round that collects
      has closed, at its new deadline if it has one. */
  ghost predicate NextRefused(w: World, g: nat, req: ScheduleRequest)
    requires Keyed(w) && g < |w.loops|
  {
    var zone := w.loops[g].zone;
    var today := LocalDay(w.now, zone);
    && req.nextOpen.Some? && req.nextClose.Some?
    && var days := req.nextClose.value - req.nextOpen.value;
       || !w.loops[g].autoCreate
       || req.nextOpen.value < today + 1 || req.nextOpen.value > today + 180 || days < 3 || days > 21
       || (if req.currentClose.Some? then Clock(req.nextOpen.value, 9, zone) <= Clock(req.currentClose.value, 21, zone)
           else CollectsAt(w, g, Clock(req.nextOpen.value, 9, zone)))
  }

  ghost predicate ScheduleRefused(w: World, g: nat, req: ScheduleRequest, active: Option<nat>)
    requires Keyed(w) && g < |w.loops|
    requires active.Some? ==> active.value < |w.issues|
  {
    || (req.currentClose.None? && req.nextOpen.None? && req.nextClose.None?)
    || req.nextOpen.Some? != req.nextClose.Some?
    || CloseRefused(w, g, req, active)
    || NextRefused(w, g, req)
  }

  lemma Hours(date: int, hour: nat, zone: int)
    requires hour < 24
    ensures LocalInstant(date, hour, zone) == Clock(date, hour, zone)
    ensures At(Clock(date, hour, zone), zone, date, hour)
  {
  }

  lemma {:induction false} OnlyCollecting(w: World, g: nat, t: Instant)
    requires OneOfEach(w.issues)
    ensures (CollectingRound(w.issues, g).Some? && t <= w.issues[CollectingRound(w.issues, g).value].deadline)
            <==> CollectsAt(w, g, t)
    ensures forall i :: 0 <= i < |w.issues| && IsCollecting(w.issues[i], g) ==>
              (CollectsAt(w, g, t) <==> t <= w.issues[i].deadline)
  {
    if i :| 0 <= i < |w.issues| && IsCollecting(w.issues[i], g) && t <= w.issues[i].deadline {
      assert CollectingRound(w.issues, g) == Some(i);
    }
  }

  lemma CloseFitsIff(w: World, i: nat, date: int, alone: bool)
    requires Keyed(w) && i < |w.issues|
    ensures var g := w.issues[i].group;
            var zone := w.loops[g].zone;
            var close := Clock(date, 21, zone);
            CloseDateFits(w, i, date, alone)
            <==> && LocalDay(w.now, zone) <= date <= LocalDay(w.now, zone) + 90
                 && close > w.now && close > w.issues[i].opensAt && !(alone && OpensBy(w, g, close))
  {
    Hours(date, 21, w.loops[w.issues[i].group].zone);
    OpensByIff(w, w.issues[i].group, Clock(date, 21, w.loops[w.issues[i].group].zone));
    hide PinnedRoundOverlaps, OpensBy, LocalDay, LocalInstant;
  }

  lemma NextFitsIff(loop: Loop, today: int, open: int, close: int, deadline: Option<Instant>)
    ensures NextDatesFit(loop, today, open, close, deadline)
            <==> && today + 1 <= open <= today + 180 && 3 <= close - open <= 21
                 && (deadline.Some? ==> Clock(open, 9, loop.zone) > deadline.value)
  {
    Hours(open, 9, loop.zone);
  }

  /** The update an accepted request comes to. */
  function UpdateFor(w: World, g: nat, req: ScheduleRequest, active: Option<nat>, recent: RecentReminder): ScheduleUpdate
    requires Keyed(w) && g < |w.loops|
    requires req.currentClose.Some? ==> active.Some? && active.value < |w.issues|
    requires req.nextOpen.Some? ==> req.nextClose.Some?
  {
    ScheduleUpdate(
      g,
      if req.currentClose.Some? then
        Some(RescheduledHalf(w, active.value, Clock(req.currentClose.value, 21, w.loops[g].zone),
                             RescheduleLookups(recent, false)))
      else None,
      if req.nextOpen.Some? then Some(PinnedHalf(w.loops[g], req.nextOpen.value, req.nextClose.value)) else None)
  }

  lemma OverlapIff(w: World, g: nat, req: ScheduleRequest, active: Option<nat>, recent: RecentReminder)
    requires Keyed(w) && OneOfEach(w.issues) && g < |w.loops|
    requires req.currentClose.Some? ==> active.Some? && active.value < |w.issues|
    requires req.nextOpen.Some? ==> req.nextClose.Some?
    ensures var zone := w.loops[g].zone;
            Overlaps(w, UpdateFor(w, g, req, active, recent))
            <==> if req.nextOpen.Some? then
                   if req.currentClose.Some? then
                     Clock(req.nextOpen.value, 9, zone) <= Clock(req.currentClose.value, 21, zone)
                   else CollectsAt(w, g, Clock(req.nextOpen.value, 9, zone))
                 else req.currentClose.Some? && OpensBy(w, g, Clock(req.currentClose.value, 21, zone))
  {
    var zone := w.loops[g].zone;
    if req.nextOpen.Some? {
      Hours(req.nextOpen.value, 9, zone);
      OnlyCollecting(w, g, Clock(req.nextOpen.value, 9, zone));
    }
    if req.currentClose.Some? {
      OpensByIff(w, g, Clock(req.currentClose.value, 21, zone));
    }
    hide OneOfEach, OpensBy, CollectsAt, CollectingRound, PendingNextRoundAmong, RescheduledIssueEventSpecs, LocalInstant,
        MonthOfYear, YearOf;
  }

  ghost function CurrentOf(w: World, active: Option<nat>): Option<nat>
    requires active.Some? ==> active.value < |w.issues|
  {
    if active.Some? && w.issues[active.value].status == Collecting then active else None
  }

  /** The checks before the transaction, and then the transaction. */
  lemma EditorSteps(w: World, g: nat, req: ScheduleRequest, active: Option<nat>, recent: RecentReminder)
    requires Keyed(w) && g < |w.loops|
    requires active.Some? ==> active.value < |w.issues| && IsActive(w.issues[active.value], g, w.now)
    ensures var (w1, response) := UpdateSchedule(w, g, req, active, recent);
            var current := CurrentOf(w, active);
            var deadline := if req.currentClose.Some? then Some(Clock(req.currentClose.value, 21, w.loops[g].zone))
                            else if current.Some? then Some(w.issues[current.value].deadline) else None;
            if || (req.currentClose.None? && req.nextOpen.None? && req.nextClose.None?)
               || req.nextOpen.Some? != req.nextClose.Some?
               || (req.currentClose.Some?
                   && (current != Some(req.currentIssue)
                       || !CloseDateFits(w, current.value, req.currentClose.value, req.nextOpen.None?)))
               || (req.nextOpen.Some?
                   && (!w.loops[g].autoCreate
                       || !NextDatesFit(w.loops[g], LocalDay(w.now, w.loops[g].zone), req.nextOpen.value,
                                        req.nextClose.value, deadline)))
            then (w1, response) == (w, Refused)
            else
              match ApplySchedule(w, UpdateFor(w, g, req, active, recent))
              case Committed(after) => (w1, response) == (after, Accepted)
              case RolledBack(error) => (w1, response) == (w, if error.ScheduleOverlap? then Refused else ServerError)
  {
    hide CloseDateFits, NextDatesFit, ApplySchedule, RescheduledHalf, LocalDay, LocalInstant, PinnedHalf;
    if req.currentClose.Some? {
      Hours(req.currentClose.value, 21, w.loops[g].zone);
    }
  }

  lemma CloseRefusedIff(w: World, g: nat, req: ScheduleRequest, active: Option<nat>)
    requires Keyed(w) && g < |w.loops| && req.currentClose.Some?
    requires active.Some? ==> active.value < |w.issues| && IsActive(w.issues[active.value], g, w.now)
    ensures var current := CurrentOf(w, active);
            CloseRefused(w, g, req, active)
            <==> current != Some(req.currentIssue)
                 || !CloseDateFits(w, current.value, req.currentClose.value, req.nextOpen.None?)
  {
    hide CloseDateFits, OpensBy, LocalDay;
    if CurrentOf(w, active).Some? {
      CloseFitsIff(w, active.value, req.currentClose.value, req.nextOpen.None?);
    }
  }

  /** Both looks at the next round's dates, before the transaction and inside it,
      come to one. */
  lemma NextRefusedIff(w: World, g: nat, req: ScheduleRequest, active: Option<nat>)
    requires Keyed(w) && OneOfEach(w.issues) && g < |w.loops| && req.nextOpen.Some? && req.nextClose.Some?
    requires active.Some? ==> active.value < |w.issues| && IsActive(w.issues[active.value], g, w.now)
    ensures var zone := w.loops[g].zone;
            var open := Clock(req.nextOpen.value, 9, zone);
            var current := CurrentOf(w, active);
            var deadline := if req.currentClose.Some? then Some(Clock(req.currentClose.value, 21, zone))
                            else if current.Some? then Some(w.issues[current.value].deadline) else None;
            NextRefused(w, g, req)
            <==> || !w.loops[g].autoCreate
                 || !NextDatesFit(w.loops[g], LocalDay(w.now, zone), req.nextOpen.value, req.nextClose.value, deadline)
                 || (if req.currentClose.Some? then open <= Clock(req.currentClose.value, 21, zone)
                     else CollectsAt(w, g, open))
  {
    var zone := w.loops[g].zone;
    var current := CurrentOf(w, active);
    var deadline := if req.currentClose.Some? then Some(Clock(req.currentClose.value, 21, zone))
        else if current.Some? then Some(w.issues[current.value].deadline) else None;
    NextFitsIff(w.loops[g], LocalDay(w.now, zone), req.nextOpen.value, req.nextClose.value, deadline);
    OnlyCollecting(w, g, Clock(req.nextOpen.value, 9, zone));
    hide OneOfEach, NextDatesFit, CollectsAt, CollectingRound, LocalDay, Clock;
  }

  /** What the schedule editor refuses. */
  lemma EditorRefuses(w: World, g: nat, req: ScheduleRequest, active: Option<nat>, recent: RecentReminder)
    requires Inv(w) && g < |w.loops|
    requires active.Some? ==> active.value < |w.issues| && IsActive(w.issues[active.value], g, w.now)
    ensures UpdateSchedule(w, g, req, active, recent).1.Refused? <==> ScheduleRefused(w, g, req, active)
  {
    RepairFacts(w);
    hide InvBut, UpdateSchedule, ApplySchedule, Overlaps, OpensBy, LocalDay, OneOfEach, FiredPast, UpdateFor, CloseDateFits,
        NextDatesFit, CollectsAt, Clock, CloseRefused, NextRefused, IsActive;
    EditorSteps(w, g, req, active, recent);
    if req.nextOpen.Some? != req.nextClose.Some? {
      return;
    }
    if req.currentClose.Some? {
      CloseRefusedIff(w, g, req, active);
      if CloseRefused(w, g, req, active) {
        return;
      }
      ClosesAlone(w, g, req, active);
    }
    OverlapIff(w, g, req, active, recent);
    TransactionRefuses(w, UpdateFor(w, g, req, active, recent));
    if req.nextOpen.Some? {
      NextRefusedIff(w, g, req, active);
    } else {
      NoNextRefused(w, g, req, active);
    }
  }

  lemma ClosesAlone(w: World, g: nat, req: ScheduleRequest, active: Option<nat>)
    requires Keyed(w) && g < |w.loops| && req.currentClose.Some?
    requires active.Some? ==> active.value < |w.issues|
    requires !CloseRefused(w, g, req, active)
    ensures active == Some(req.currentIssue) && CurrentOf(w, active) == active
    ensures req.nextOpen.None? ==> !OpensBy(w, g, Clock(req.currentClose.value, 21, w.loops[g].zone))
  {
    hide OpensBy, LocalDay;
  }

  lemma NoNextRefused(w: World, g: nat, req: ScheduleRequest, active: Option<nat>)
    requires Keyed(w) && g < |w.loops| && req.nextOpen.None?
    requires active.Some? ==> active.value < |w.issues|
    ensures !NextRefused(w, g, req) && (req.currentClose.None? ==> !CloseRefused(w, g, req, active))
  {
    hide OpensBy, LocalDay;
  }

  lemma TransactionRefuses(w: World, u: ScheduleUpdate)
    requires Keyed(w) && (u.next.Some? ==> 1 <= u.next.value.month)
    ensures Overlaps(w, u) <==> ApplySchedule(w, u).RolledBack? && ApplySchedule(w, u).error.ScheduleOverlap?
  {
    hide LabelWalk, EventTaken, InsertAll, EarliestDraft, Overlaps;
  }

  /** No label is left for a round from some month on, for a hundred years. */
  ghost predicate NoLabelLeft(issues: seq<Issue>, g: nat, d: nat, base: int) {
    forall m :: base <= m < base + 1200 ==> HeldByOther(issues, g, d, m)
  }

  lemma LabelLeftIff(issues: seq<Issue>, g: nat, exclude: Option<nat>, month: int, year: int)
    requires 1 <= month <= 12
    requires exclude.Some? ==> exclude.value < |issues|
    ensures NextAvailableLabel(issues, g, exclude, month, year).None?
            <==> NoLabelLeft(issues, g, if exclude.Some? then exclude.value else |issues|, 12 * year + month - 1)
  {
    hide LabelWalk, LabelTaken, HeldByOther, LabelMonth, LabelYear;
    var d := if exclude.Some? then exclude.value else |issues|;
    var base := 12 * year + month - 1;
    forall k: nat ensures HeldByOther(issues, g, d, base + k)
                          <==> LabelTaken(issues, g, exclude, LabelMonth(month, k), LabelYear(month, year, k))
    {
      LabelNumber(month, year, k);
      TakenIsHeld(issues, g, d, LabelMonth(month, k), LabelYear(month, year, k));
      SameTakenHere(issues, g, exclude, LabelMonth(month, k), LabelYear(month, year, k));
    }
    if NextAvailableLabel(issues, g, exclude, month, year).None? {
      forall m | base <= m < base + 1200 ensures HeldByOther(issues, g, d, m) {
        var k: nat := m - base;
        assert LabelTaken(issues, g, exclude, LabelMonth(month, k), LabelYear(month, year, k));
      }
    } else {
      var k := LabelWalk(issues, g, exclude, month, year, 0).value;
      assert !HeldByOther(issues, g, d, base + k);
    }
  }

  lemma SameTakenHere(issues: seq<Issue>, g: nat, exclude: Option<nat>, month: int, year: int)
    ensures LabelTaken(issues, g, Some(if exclude.Some? then exclude.value else |issues|), month, year)
            == LabelTaken(issues, g, exclude, month, year)
  {
  }

  /** Pinning goes through unless no label is left. */
  lemma {:induction false} PinningFits(w: World, g: nat, half: NextHalf, date: int) returns (d: nat)
    requires Keyed(w) && FiredPast(w.events, w.now) && g < |w.loops| && half.open > w.now && OneOfEach(w.issues)
    requires half.month == MonthOfYear(date) && half.year == YearOf(date)
    ensures TheDraft(w, g, d)
    ensures var applied := ApplyNext(w, g, half);
            && (applied.Committed? <==> !NoLabelLeft(w.issues, g, d, MonthOf(date)))
            && (applied.RolledBack? ==> applied.error == NoFreeLabel)
  {
    hide MonthOf, MonthStart, MonthOfYear, YearOf, LabelWalk, EarliestDraft, OneOfEach, NoLabelLeft, EventTaken;
    var saved := w.(loops := w.loops[g := w.loops[g].(windowDays := half.windowDays)]);
    var cleared := DeletePendingOfGroup(saved, g, true);
    var draft := NextDraft(cleared, g);
    OneDraft(w, g, draft);
    d := if draft.Some? then draft.value else |w.issues|;
    DateNumber(date);
    LabelLeftIff(w.issues, g, draft, half.month, half.year);
    FutureFree(cleared, d, half.open);
  }

  /** A request that is not refused runs the transaction's two halves. */
  lemma EditorRuns(w: World, g: nat, req: ScheduleRequest, active: Option<nat>, recent: RecentReminder)
    requires Inv(w) && g < |w.loops|
    requires active.Some? ==> active.value < |w.issues| && IsActive(w.issues[active.value], g, w.now)
    requires !UpdateSchedule(w, g, req, active, recent).1.Refused?
    ensures var zone := w.loops[g].zone;
            && (req.currentClose.Some? ==>
                  && req.currentIssue < |w.issues| && IsCollecting(w.issues[req.currentIssue], g)
                  && Clock(req.currentClose.value, 21, zone) > w.now)
            && (req.nextOpen.Some? ==> req.nextClose.Some? && Clock(req.nextOpen.value, 9, zone) > w.now)
            && var half :=
                 if req.currentClose.Some? then
                   ApplyCurrent(w, g, RescheduledHalf(w, req.currentIssue, Clock(req.currentClose.value, 21, zone),
                                                      RescheduleLookups(recent, false)))
                 else Committed(w);
               var whole :=
                 if half.RolledBack? || req.nextOpen.None? then half
                 else ApplyNext(half.world, g, PinnedHalf(w.loops[g], req.nextOpen.value, req.nextClose.value));
               UpdateSchedule(w, g, req, active, recent)
               == (if whole.Committed? then (whole.world, Accepted) else (w, ServerError))
  {
    EditorRefuses(w, g, req, active, recent);
    EditorSteps(w, g, req, active, recent);
    InvKeyed(w);
    hide InvBut, UpdateSchedule, ApplySchedule, ApplyCurrent, ApplyNext, Overlaps, OpensBy, RescheduledHalf, PinnedHalf,
        CloseDateFits, NextDatesFit, CloseRefused, NextRefused, IsActive, LocalDay, Keyed;
    if req.currentClose.Some? {
      ClosesAlone(w, g, req, active);
      ClosesAhead(w, g, req, active);
    }
    if req.nextOpen.Some? {
      OpensAhead(w, g, req);
    }
    hide Clock;
    TransactionRefuses(w, UpdateFor(w, g, req, active, recent));
    TransactionHalves(w, UpdateFor(w, g, req, active, recent));
  }

  lemma TransactionHalves(w: World, u: ScheduleUpdate)
    requires Keyed(w) && (u.next.Some? ==> 1 <= u.next.value.month)
    ensures var half := if u.current.Some? then ApplyCurrent(w, u.group, u.current.value) else Committed(w);
            !Overlaps(w, u) ==>
              ApplySchedule(w, u)
              == if half.RolledBack? || u.next.None? then half else ApplyNext(half.world, u.group, u.next.value)
  {
    hide ApplyCurrent, ApplyNext, Overlaps;
  }

  lemma ClosesAhead(w: World, g: nat, req: ScheduleRequest, active: Option<nat>)
    requires Keyed(w) && g < |w.loops| && req.currentClose.Some?
    requires active.Some? ==> active.value < |w.issues| && IsActive(w.issues[active.value], g, w.now)
    requires !CloseRefused(w, g, req, active)
    ensures req.currentIssue < |w.issues| && IsCollecting(w.issues[req.currentIssue], g)
    ensures Clock(req.currentClose.value, 21, w.loops[g].zone) > w.now
  {
    hide OpensBy, LocalDay;
  }

  lemma OpensAhead(w: World, g: nat, req: ScheduleRequest)
    requires Keyed(w) && g < |w.loops| && req.nextOpen.Some? && req.nextClose.Some?
    requires !NextRefused(w, g, req)
    ensures Clock(req.nextOpen.value, 9, w.loops[g].zone) > w.now
  {
    hide CollectsAt;
  }

  lemma RescheduledSame(w: World, w1: World, i: nat, deadline: Instant, zone: int, recent: RecentReminder, g: nat)
    requires i < |w.issues| && FiredPast(w.events, w.now) && OneOfEach(w.issues)
    requires Rescheduled(w, w1, i, deadline, zone, recent)
    ensures FiredPast(w1.events, w1.now) && OneOfEach(w1.issues) && w1.now == w.now && w1.loops == w.loops
    ensures forall d :: TheDraft(w1, g, d) <==> TheDraft(w, g, d)
    ensures forall d, base :: NoLabelLeft(w1.issues, g, d, base) <==> NoLabelLeft(w.issues, g, d, base)
  {
    hide Wanted;
    StatusTransfer(w.issues, w1.issues);
    forall d: nat, m ensures HeldByOther(w1.issues, g, d, m) <==> HeldByOther(w.issues, g, d, m) {
      HeldAlike(w.issues, w1.issues, g, d, m);
      HeldAlike(w1.issues, w.issues, g, d, m);
    }
    hide HeldByOther, OneOfEach;
  }

  lemma HeldAlike(a: seq<Issue>, b: seq<Issue>, g: nat, d: nat, m: int)
    requires |a| == |b|
    requires forall i :: 0 <= i < |a| ==> b[i].group == a[i].group && b[i].month == a[i].month && b[i].year == a[i].year
    ensures HeldByOther(a, g, d, m) ==> HeldByOther(b, g, d, m)
  {
    if HeldByOther(a, g, d, m) {
      var i :| 0 <= i < |a| && i != d && a[i].group == g && 1 <= a[i].month <= 12 && 12 * a[i].year + a[i].month - 1 == m;
      assert b[i].group == g;
    }
  }

  /** The first half, when the request has one. */
  lemma {:induction false} EditorMoves(
    w: World, g: nat, req: ScheduleRequest, active: Option<nat>, recent: RecentReminder) returns (moved: World)
    requires Inv(w) && g < |w.loops|
    requires active.Some? ==> active.value < |w.issues| && IsActive(w.issues[active.value], g, w.now)
    requires !UpdateSchedule(w, g, req, active, recent).1.Refused?
    ensures var zone := w.loops[g].zone;
            var i := req.currentIssue;
            && (req.currentClose.Some? ==> i < |w.issues|)
            && (req.nextOpen.Some? ==> req.nextClose.Some? && Clock(req.nextOpen.value, 9, zone) > w.now)
            && Keyed(moved) && FiredPast(moved.events, moved.now) && OneOfEach(moved.issues)
            && moved.now == w.now && moved.loops == w.loops
            && (forall d :: TheDraft(moved, g, d) <==> TheDraft(w, g, d))
            && (forall d, base :: NoLabelLeft(moved.issues, g, d, base) <==> NoLabelLeft(w.issues, g, d, base))
            && if req.currentClose.Some? && RemindsNow(w, i, Clock(req.currentClose.value, 21, zone), zone, recent)
                  && RemindedNow(w, i)
               then UpdateSchedule(w, g, req, active, recent) == (w, ServerError)
               else
                 && (if req.currentClose.Some? then
                       Rescheduled(w, moved, i, Clock(req.currentClose.value, 21, zone), zone, recent)
                     else moved == w)
                 && var whole :=
                      if req.nextOpen.None? then Committed(moved)
                      else ApplyNext(moved, g, PinnedHalf(w.loops[g], req.nextOpen.value, req.nextClose.value));
                    UpdateSchedule(w, g, req, active, recent)
                    == (if whole.Committed? then (whole.world, Accepted) else (w, ServerError))
  {
    RepairFacts(w);
    hide InvBut, UpdateSchedule, ApplyCurrent, ApplyNext, RescheduledHalf, OneOfEach, FiredPast, Clock, IsActive,
        Rescheduled, RemindsNow, RemindedNow, NoLabelLeft, TheDraft, Keyed, PinnedHalf;
    EditorRuns(w, g, req, active, recent);
    moved := w;
    if req.currentClose.Some? {
      var zone := w.loops[g].zone;
      var close, lookups := Clock(req.currentClose.value, 21, zone), RescheduleLookups(recent, false);
      MoveOutcome(w, req.currentIssue, close, lookups);
      var half := RescheduledHalf(w, req.currentIssue, close, lookups);
      if ApplyCurrent(w, g, half).Committed? {
        moved := ApplyCurrent(w, g, half).world;
        RescheduledSame(w, moved, req.currentIssue, close, zone, recent, g);
      }
    }
  }

  /** What an accepted change of the schedule leaves: the collecting round, when
      it is given a new close, rescheduled for local 21:00 of that date; and then
      the next round, when it is dated, pinned: it opens at local 09:00 of the one
      date and closes at local 21:00 of the other, under the first free label
      from its opening's month on, and the group's window is as many days as lie
      between. It fails only where a reminder has gone out this second, or where
      no label is left. */
  lemma {:induction false} EditorLeaves(
    w: World, g: nat, req: ScheduleRequest, active: Option<nat>, recent: RecentReminder) returns (moved: World, d: nat)
    requires Inv(w) && g < |w.loops|
    requires active.Some? ==> active.value < |w.issues| && IsActive(w.issues[active.value], g, w.now)
    ensures Keyed(moved) && g < |moved.loops| && TheDraft(w, g, d)
    ensures var (w1, response) := UpdateSchedule(w, g, req, active, recent);
            var zone := w.loops[g].zone;
            var i := req.currentIssue;
            && (!response.Accepted? ==> w1 == w)
            && (!response.Refused? ==>
                  && (req.currentClose.Some? ==> i < |w.issues|) && (req.nextOpen.Some? ==> req.nextClose.Some?)
                  && (response.ServerError? <==>
                        || (&& req.currentClose.Some?
                            && RemindsNow(w, i, Clock(req.currentClose.value, 21, zone), zone, recent) && RemindedNow(w, i))
                        || (req.nextOpen.Some? && NoLabelLeft(w.issues, g, d, MonthOf(req.nextOpen.value)))))
            && (response.Accepted? ==>
                  && (if req.currentClose.Some? then
                        Rescheduled(w, moved, i, Clock(req.currentClose.value, 21, zone), zone, recent)
                      else moved == w)
                  && (if req.nextOpen.Some? then
                        && Pinned(moved, w1, g, d, req.nextClose.value - req.nextOpen.value, MonthOf(req.nextOpen.value))
                        && At(w1.issues[d].opensAt, zone, req.nextOpen.value, 9)
                        && At(w1.issues[d].deadline, zone, req.nextClose.value, 21)
                      else w1 == moved))
  {
    hide *;
    RepairFacts(w);
    moved := w;
    d := TheDraftOf(w, g);
    if !UpdateSchedule(w, g, req, active, recent).1.Refused? {
      moved := EditorMoves(w, g, req, active, recent);
      if req.nextOpen.Some? {
        EditorPins(moved, g, w.loops[g].zone, req.nextOpen.value, req.nextClose.value, d);
      }
    }
  }

  lemma TheDraftOf(w: World, g: nat) returns (d: nat)
    requires OneOfEach(w.issues)
    ensures TheDraft(w, g, d)
  {
    var draft := NextDraft(w, g);
    OneDraft(w, g, draft);
    d := if draft.Some? then draft.value else |w.issues|;
  }

  lemma {:induction false} EditorPins(w: World, g: nat, zone: int, open: int, close: int, d: nat)
    requires Keyed(w) && OneOfEach(w.issues) && FiredPast(w.events, w.now) && g < |w.loops| && w.loops[g].zone == zone
    requires Clock(open, 9, zone) > w.now && TheDraft(w, g, d)
    ensures var applied := ApplyNext(w, g, PinnedHalf(w.loops[g], open, close));
            && (applied.RolledBack? <==> NoLabelLeft(w.issues, g, d, MonthOf(open)))
            && (applied.Committed? ==>
                  && Pinned(w, applied.world, g, d, close - open, MonthOf(open))
                  && At(applied.world.issues[d].opensAt, zone, open, 9)
                  && At(applied.world.issues[d].deadline, zone, close, 21))
  {
    hide MonthOf, MonthStart, MonthOfYear, YearOf, At, Pinned, NoLabelLeft, OneOfEach, FiredPast, Clock, ApplyNext,
        LocalInstant;
    var half := PinnedHalf(w.loops[g], open, close);
    Hours(open, 9, zone);
    Hours(close, 21, zone);
    var found := PinningFits(w, g, half, open);
    assert found == d;
    if ApplyNext(w, g, half).Committed? {
      var pinned := PinningRound(w, g, half, open);
      SameDraft(w, g, ApplyNext(w, g, half).world, d, pinned, close - open, MonthOf(open));
    }
  }

  lemma SameDraft(w: World, g: nat, w1: World, d: nat, pinned: nat, windowDays: int, base: int)
    requires Keyed(w) && Keyed(w1) && g < |w.loops| && TheDraft(w, g, d) && Pinned(w, w1, g, pinned, windowDays, base)
    ensures pinned == d
  {
    hide FirstFreeLabel, OpeningReplaced;
  }
}
