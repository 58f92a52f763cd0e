/** The repair pass is self-stabilising: it needs nothing of the state it
    finds but that no event has fired ahead of its time. */
module RoundReconcile {
  import opened Options
  import opened RoundTiming
  import opened SchedulerPolicy
  import opened RoundTables
  import opened RoundHandlers
  import opened RoundInvariants
  import RoundRuns

  /** A loop the repair pass answers for. */
  predicate Eligible(w: World, g: nat)
    requires g < |w.loops|
  {
    var loop := w.loops[g];
    loop.active && loop.setupComplete && loop.autoCreate && LatestPublished(w.issues, g).Some?
  }

  predicate Alive(w: World, g: nat)
    requires Keyed(w) && g < |w.loops|
  {
    CollectingRound(w.issues, g).Some? || PendingNextRound(w, g).Some?
  }

  /** Nothing of group `g` differs. */
  ghost predicate SameGroup(w: World, w1: World, g: nat)
    requires Keyed(w) && Keyed(w1)
  {
    && |w.issues| <= |w1.issues| && |w.events| <= |w1.events|
    && (forall i :: 0 <= i < |w.issues| && w.issues[i].group == g ==> w1.issues[i] == w.issues[i])
    && (forall i :: 0 <= i < |w.issues| && w.issues[i].group != g ==> w1.issues[i].group != g)
    && (forall i :: |w.issues| <= i < |w1.issues| ==> w1.issues[i].group != g)
    && (forall e :: 0 <= e < |w.events| && w.issues[w.events[e].issue].group == g ==> w1.events[e] == w.events[e])
    && (forall e :: 0 <= e < |w.events| && w.issues[w.events[e].issue].group != g ==>
          w1.events[e].issue == w.events[e].issue)
    && (forall e :: |w.events| <= e < |w1.events| ==> w1.issues[w1.events[e].issue].group != g)
  }

  /** Exactly one unfired open event, for a draft, at the draft's own opening
      time, with at least 12 hours' notice. */
  ghost predicate QueuedOnce(w: World, g: nat)
    requires Keyed(w)
  {
    exists e :: 0 <= e < |w.events| && OnlyOpening(w, g, e)
  }

  ghost predicate OnlyOpening(w: World, g: nat, e: nat)
    requires Keyed(w) && e < |w.events|
  {
    && IsQueuedOpening(w, e, g)
    && w.events[e].at == w.issues[w.events[e].issue].opensAt
    && w.events[e].at >= w.now + 12 * HOUR
    && (forall f :: 0 <= f < |w.events| && f != e && IsOpening(w.events[f]) ==> w.issues[w.events[f].issue].group != g)
  }

  lemma QueueOpeningQueues(w: World, d: nat, at: Instant)
    requires Keyed(w) && FiredPast(w.events, w.now)
    requires d < |w.issues| && w.issues[d].status.Draft? && w.issues[d].opensAt == at
    requires at >= w.now + 12 * HOUR
    requires NoOpening(w, w.issues[d].group)
    ensures QueuedOnce(QueueOpening(w, d, at, NO_QUEUE_FAULT), w.issues[d].group)
  {
    var w1 := QueueOpening(w, d, at, NO_QUEUE_FAULT);
    assert w1.events == w.events + [NewEvent(d, EventSpec(CreateNextIssue, at))];
    assert OnlyOpening(w1, w.issues[d].group, |w.events|);
  }

  lemma QueueNextQueues(w: World, g: nat, lastOpensAt: Instant)
    requires Keyed(w) && g < |w.loops| && FiredPast(w.events, w.now)
    requires PendingNextRound(w, g).None?
    ensures QueuedOnce(QueueNextIssueEvent(w, g, lastOpensAt, NO_QUEUE_FAULT), g)
  {
    hide DefaultDeadline, LabelForOpening, PendingNextRoundAmong;
    var cleared := DeletePendingOfGroup(w, g, true);
    var loop := w.loops[g];
    var slot := CadenceNextOpen(lastOpensAt, loop.storedZone, loop.frequency, loop.zone, w.now);
    CadenceOpensAtNine(lastOpensAt, loop.storedZone, loop.frequency, loop.zone, w.now);
    hide CadenceNextOpen, QueuedOnce;
    var close := DefaultDeadline(slot, loop.windowDays, loop.zone);
    match NextDraft(cleared, g) {
      case Some(d) =>
        if cleared.issues[d].opensAt > w.now + 12 * HOUR {
          QueueOpeningQueues(cleared, d, cleared.issues[d].opensAt);
        } else {
          QueueOpeningQueues(
            SetSchedule(cleared, d, LabelForOpening(cleared.issues, g, Some(d), slot, loop.zone, false), slot, close),
            d, slot);
        }
      case None =>
        QueueOpeningQueues(
          InsertIssue(cleared, g, LabelForOpening(cleared.issues, g, None, slot, loop.zone, false), slot, close),
          |cleared.issues|, slot);
    }
  }

  lemma ClearingStaysInside(w: World, g: nat, h: nat)
    requires Keyed(w) && h != g
    ensures SameGroup(w, DeletePendingOfGroup(w, g, true), h)
  {
  }

  lemma OpeningStaysInside(w: World, d: nat, at: Instant, fault: QueueFault, h: nat)
    requires Keyed(w) && d < |w.issues| && w.issues[d].group != h
    ensures SameGroup(w, QueueOpening(w, d, at, fault), h)
  {
    hide EventTaken;
  }

  lemma MovingStaysInside(w: World, d: nat, masthead: Label, opensAt: Instant, deadline: Instant, h: nat)
    requires Keyed(w) && d < |w.issues| && w.issues[d].group != h
    ensures SameGroup(w, SetSchedule(w, d, masthead, opensAt, deadline), h)
  {
  }

  lemma InsertingStaysInside(w: World, g: nat, masthead: Label, opensAt: Instant, deadline: Instant, h: nat)
    requires Keyed(w) && g < |w.loops| && g != h
    ensures SameGroup(w, InsertIssue(w, g, masthead, opensAt, deadline), h)
  {
  }

  /** Queueing works inside its own group, and fires nothing. */
  lemma QueueNextStaysInside(w: World, g: nat, lastOpensAt: Instant, fault: QueueFault, h: nat)
    requires Keyed(w) && g < |w.loops| && h != g
    ensures SameGroup(w, QueueNextIssueEvent(w, g, lastOpensAt, fault), h)
  {
    hide SameGroup, CadenceNextOpen, DefaultDeadline, LabelForOpening, PendingNextRoundAmong, QueueOpening;
    SameGroupReflexive(w, h);
    if fault.stop.PendingLookupFails? || PendingNextRound(w, g).Some? || fault.stop.ClearFails? {
      return;
    }
    var cleared := DeletePendingOfGroup(w, g, true);
    ClearingStaysInside(w, g, h);
    if fault.stop.DraftLookupFails? {
      return;
    }
    var loop := w.loops[g];
    var slot := CadenceNextOpen(lastOpensAt, loop.storedZone, loop.frequency, loop.zone, w.now);
    var close := DefaultDeadline(slot, loop.windowDays, loop.zone);
    var draft := NextDraft(cleared, g);
    if draft.Some? && cleared.issues[draft.value].opensAt > w.now + 12 * HOUR {
      var at := cleared.issues[draft.value].opensAt;
      OpeningStaysInside(cleared, draft.value, at, fault, h);
      SameGroupTransitive(w, cleared, QueueOpening(cleared, draft.value, at, fault), h);
    } else if !fault.stop.DraftWriteFails? {
      var d := if draft.Some? then draft.value else |cleared.issues|;
      var masthead := LabelForOpening(cleared.issues, g, draft, slot, loop.zone, fault.labelFails);
      var moved :=
        if draft.Some? then SetSchedule(cleared, d, masthead, slot, close)
        else InsertIssue(cleared, g, masthead, slot, close);
      if draft.Some? {
        MovingStaysInside(cleared, d, masthead, slot, close, h);
      } else {
        InsertingStaysInside(cleared, g, masthead, slot, close, h);
      }
      OpeningStaysInside(moved, d, slot, fault, h);
      SameGroupTransitive(w, cleared, moved, h);
      SameGroupTransitive(w, moved, QueueOpening(moved, d, slot, fault), h);
    }
  }

  lemma QueueNextFiresNothing(w: World, g: nat, lastOpensAt: Instant, fault: QueueFault)
    requires Keyed(w) && g < |w.loops| && FiredPast(w.events, w.now)
    ensures FiredPast(QueueNextIssueEvent(w, g, lastOpensAt, fault).events, w.now)
  {
    hide CadenceNextOpen, DefaultDeadline, LabelForOpening, PendingNextRoundAmong, EventTaken;
  }

  /** What the pass decides about a group depends on that group alone. */
  lemma SameGroupSameVerdict(w: World, w1: World, g: nat)
    requires Keyed(w) && Keyed(w1) && w1.loops == w.loops && g < |w.loops|
    requires SameGroup(w, w1, g)
    ensures Eligible(w1, g) == Eligible(w, g)
    ensures Alive(w1, g) == Alive(w, g)
    ensures Stalled(w1, g) == Stalled(w, g)
    ensures PendingNextRound(w1, g).Some? == PendingNextRound(w, g).Some?
  {
    if CollectingRound(w.issues, g).Some? {
      assert IsCollecting(w1.issues[CollectingRound(w.issues, g).value], g);
    }
    if PendingNextRound(w, g).Some? {
      assert IsQueuedOpening(w1, PendingNextRound(w, g).value, g);
    }
    if PendingNextRound(w1, g).Some? {
      assert IsQueuedOpening(w, PendingNextRound(w1, g).value, g);
    }
    if LatestPublished(w.issues, g).Some? {
      assert w1.issues[LatestPublished(w.issues, g).value].status.Published?;
    }
  }

  lemma SameGroupQueuedOnce(w: World, w1: World, g: nat)
    requires Keyed(w) && Keyed(w1) && w1.now == w.now
    requires SameGroup(w, w1, g)
    requires QueuedOnce(w, g)
    ensures QueuedOnce(w1, g)
  {
    var e :| 0 <= e < |w.events| && OnlyOpening(w, g, e);
    assert OnlyOpening(w1, g, e);
  }

  lemma SameGroupReflexive(w: World, g: nat)
    requires Keyed(w)
    ensures SameGroup(w, w, g)
  {
  }

  lemma SameGroupTransitive(w: World, w1: World, w2: World, g: nat)
    requires Keyed(w) && Keyed(w1) && Keyed(w2)
    requires SameGroup(w, w1, g) && SameGroup(w1, w2, g)
    ensures SameGroup(w, w2, g)
  {
  }

  /** The sweep from `g` on leaves the groups before `g` alone, re-queues every
      stalled group after, and leaves the rest of those alone too. */
  lemma {:induction false} SweepRepairs(w: World, g: nat, h: nat)
    requires Keyed(w) && FiredPast(w.events, w.now) && g <= |w.loops| && h < |w.loops|
    ensures var w1 := ReconcileFrom(w, g, []);
            && (h < g || !Stalled(w, h) ==> SameGroup(w, w1, h))
            && (h >= g && Stalled(w, h) ==> QueuedOnce(w1, h))
    decreases |w.loops| - g
  {
    hide SameGroup, QueuedOnce, FiredPast, Keyed, Stalled, ReconcileLoop;
    SameGroupReflexive(w, h);
    if g < |w.loops| {
      var w1 := ReconcileLoop(w, g, NO_QUEUE_FAULT);
      assert ReconcileFrom(w, g, []) == ReconcileFrom(w1, g + 1, []);
      LoopRepairs(w, g, h);
      SweepRepairs(w1, g + 1, h);
      var w2 := ReconcileFrom(w1, g + 1, []);
      if h == g && Stalled(w, g) {
        SameGroupQueuedOnce(w1, w2, g);
      } else if h < g || !Stalled(w, h) {
        SameGroupTransitive(w, w1, w2, h);
      }
    }
  }

  /** One loop's turn re-queues it if it had stalled, and touches no other. */
  lemma LoopRepairs(w: World, g: nat, h: nat)
    requires Keyed(w) && FiredPast(w.events, w.now) && g < |w.loops| && h < |w.loops|
    ensures var w1 := ReconcileLoop(w, g, NO_QUEUE_FAULT);
            && FiredPast(w1.events, w1.now)
            && (h != g || !Stalled(w, g) ==> SameGroup(w, w1, h) && Stalled(w1, h) == Stalled(w, h))
            && (h == g && Stalled(w, g) ==> QueuedOnce(w1, h))
  {
    hide QueueNextIssueEvent, SameGroup, QueuedOnce, FiredPast, PendingNextRoundAmong, LatestPublished,
        CollectingRound, Keyed;
    SameGroupReflexive(w, h);
    if Stalled(w, g) {
      var last := w.issues[LatestPublished(w.issues, g).value].opensAt;
      QueueNextFiresNothing(w, g, last, NO_QUEUE_FAULT);
      QueueNextQueues(w, g, last);
      if h != g {
        QueueNextStaysInside(w, g, last, NO_QUEUE_FAULT, h);
        SameGroupSameVerdict(w, ReconcileLoop(w, g, NO_QUEUE_FAULT), h);
      }
    }
  }

  /** Without store failures one pass repairs everything: every eligible group
      ends with a collecting round or a queued opening; a group that had
      stalled ends with exactly one, on its draft's own date, at least 12 hours
      ahead; and a group that had not is left as it was. */
  lemma ReconcileStabilises(w: World, g: nat)
    requires Keyed(w) && FiredPast(w.events, w.now) && g < |w.loops|
    ensures var w1 := ReconcileAutoCreate(w, []);
            && (Eligible(w, g) ==> Eligible(w1, g) && Alive(w1, g))
            && (Stalled(w, g) ==> QueuedOnce(w1, g))
            && (!Stalled(w, g) ==> SameGroup(w, w1, g))
  {
    var w1 := ReconcileAutoCreate(w, []);
    SweepRepairs(w, 0, g);
    if Stalled(w, g) {
      SweepKeepsPublished(w, 0, g, LatestPublished(w.issues, g).value);
    } else {
      SameGroupSameVerdict(w, w1, g);
    }
  }

  lemma {:induction false} SweepKeepsPublished(w: World, g: nat, h: nat, i: nat)
    requires Keyed(w) && g <= |w.loops| && i < |w.issues|
    requires w.issues[i].group == h && w.issues[i].status.Published?
    ensures ReconcileFrom(w, g, []).issues[i] == w.issues[i]
    decreases |w.loops| - g
  {
    hide ReconcileLoop, Keyed;
    if g < |w.loops| {
      LoopKeepsPublished(w, g, i);
      SweepKeepsPublished(ReconcileLoop(w, g, NO_QUEUE_FAULT), g + 1, h, i);
    }
  }

  lemma LoopKeepsPublished(w: World, g: nat, i: nat)
    requires Keyed(w) && g < |w.loops| && i < |w.issues| && w.issues[i].status.Published?
    ensures ReconcileLoop(w, g, NO_QUEUE_FAULT).issues[i] == w.issues[i]
  {
    hide QueueNextIssueEvent, LatestPublished;
    if Stalled(w, g) {
      RoundRuns.QueueNextTouchesDrafts(w, g, w.issues[LatestPublished(w.issues, g).value].opensAt, NO_QUEUE_FAULT);
    }
  }

  lemma {:induction false} NothingStalledNothingDone(w: World, g: nat, faults: seq<QueueFault>)
    requires Keyed(w) && g <= |w.loops|
    requires forall h :: g <= h < |w.loops| ==> !Stalled(w, h)
    ensures ReconcileFrom(w, g, faults) == w
    decreases |w.loops| - g
  {
    if g < |w.loops| {
      NothingStalledNothingDone(w, g + 1, faults);
    }
  }

  /** Running the pass again, at once or at any later time and with any faults,
      changes nothing. */
  lemma ReconcileIdempotent(w: World, later: Instant, faults: seq<QueueFault>)
    requires Keyed(w) && FiredPast(w.events, w.now)
    ensures var w1 := ReconcileAutoCreate(w, []).(now := later);
            ReconcileAutoCreate(w1, faults) == w1
  {
    var w1 := ReconcileAutoCreate(w, []).(now := later);
    forall h | 0 <= h < |w1.loops| ensures !Stalled(w1, h) {
      ReconcileStabilises(w, h);
      LaterVerdict(ReconcileAutoCreate(w, []), later, h);
    }
    NothingStalledNothingDone(w1, 0, faults);
  }

  lemma LaterVerdict(w: World, later: Instant, g: nat)
    requires Keyed(w) && g < |w.loops|
    requires Eligible(w, g) ==> Alive(w, g)
    ensures !Stalled(w.(now := later), g)
  {
    if PendingNextRound(w, g).Some? {
      assert IsQueuedOpening(w.(now := later), PendingNextRound(w, g).value, g);
    }
  }
}
