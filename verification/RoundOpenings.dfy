/** What a round has on file when it starts, what ends it, and how a lost close
    comes back. */
module RoundOpenings {
  import opened Options
  import opened Calendar
  import opened RoundTiming
  import opened SchedulerPolicy
  import opened RoundTables
  import opened RoundHandlers
  import opened RoundInvariants
  import opened RoundRuns
  import opened RoundSafety

  /** The only close a round has, queued at its deadline. */
  ghost predicate OnlyClose(w: World, i: nat, e: nat)
    requires i < |w.issues|
  {
    && e < |w.events|
    && w.events[e] == NewEvent(i, CloseSpec(w.issues[i]))
    && (forall f :: 0 <= f < |w.events| && IsClose(w.events[f], i) ==> f == e)
  }

  /** The events from `before` on are the round's, and pending: its close, at
      the deadline, and reminders with 12 hours' notice and 14 hours left to
      answer. */
  ghost predicate OnlyItsEvents(w: World, i: nat, before: nat)
    requires i < |w.issues|
  {
    forall f :: before <= f < |w.events| ==>
      && w.events[f].issue == i
      && w.events[f].state.Pending?
      && (w.events[f] == NewEvent(i, CloseSpec(w.issues[i]))
          || (!w.events[f].kind.AutoClose? && !w.events[f].kind.CreateNextIssue?
              && w.now + 12 * HOUR <= w.events[f].at <= w.issues[i].deadline - 14 * HOUR))
  }

  /** Every slot with enough notice is on file exactly when its insert was not
      lost or it was there before. */
  ghost predicate SlotsOnFile(w: World, i: nat, before: nat, lost: set<EventKind>)
    requires Keyed(w) && i < |w.issues| && before <= |w.events|
  {
    forall k :: 0 <= k < 4 ==>
      var slot := EventSlots(w.issues[i].deadline, w.loops[w.issues[i].group].zone)[k];
      Queueable(slot, w.now) ==>
        (EventTaken(w.events, i, slot) <==> slot.kind !in lost || EventTaken(w.events[..before], i, slot))
  }

  /** Its close, the last slot, in particular: queued, never already fired, and
      noted when it is missing; and the only one unless the draft came with a
      close. */
  ghost predicate CloseOnFile(w: World, i: nat, before: nat, lost: set<EventKind>)
    requires i < |w.issues| && before <= |w.events|
  {
    var close := CloseSpec(w.issues[i]);
    && (EventTaken(w.events, i, close) <==> AutoClose !in lost || EventTaken(w.events[..before], i, close))
    && (w.issues[i].noClose <==> !EventTaken(w.events, i, close))
    && (forall e :: 0 <= e < |w.events| && IsClose(w.events[e], i) && w.events[e].at == close.at ==>
          w.events[e].state.Pending?)
    && (AutoClose !in lost && (forall e :: 0 <= e < before ==> !IsClose(w.events[e], i)) ==>
          exists e :: before <= e && OnlyClose(w, i, e))
  }

  /** A round just opened, with `before` events already in the table. */
  ghost predicate OpenedProperly(w: World, i: nat, before: nat, lost: set<EventKind>)
    requires Keyed(w)
  {
    && i < |w.issues| && w.issues[i].status.Collecting? && before <= |w.events|
    && w.issues[i].deadline > w.now + 12 * HOUR
    && CloseOnFile(w, i, before, lost)
    && OnlyItsEvents(w, i, before)
    && SlotsOnFile(w, i, before, lost)
  }

  lemma {:induction false} InsertedEvents(w: World, i: nat, lost: set<EventKind>)
    requires Keyed(w) && i < |w.issues|
    ensures OnlyItsEvents(QueueEvents(w, i, lost), i, |w.events|)
  {
    var deadline, zone := w.issues[i].deadline, w.loops[w.issues[i].group].zone;
    var specs := IssueEventSpecs(deadline, zone, w.now);
    IssueEventSpecsShape(deadline, zone, w.now);
    hide IssueEventSpecs, EventSlots, InsertEach;
    InsertEachKeeps(w, i, specs, lost);
    var w1 := QueueEvents(w, i, lost);
    forall f | |w.events| <= f < |w1.events|
      ensures && w1.events[f].issue == i && w1.events[f].state.Pending?
              && (w1.events[f] == NewEvent(i, EventSpec(AutoClose, deadline))
                  || (!w1.events[f].kind.AutoClose? && !w1.events[f].kind.CreateNextIssue?
                      && w1.now + 12 * HOUR <= w1.events[f].at <= deadline - 14 * HOUR))
    {
      InsertEachAdds(w, i, specs, lost, f);
      var k :| 0 <= k < |specs| && w1.events[f] == NewEvent(i, specs[k]);
    }
  }

  lemma {:induction false} SlotsQueued(w: World, i: nat, lost: set<EventKind>)
    requires Keyed(w) && i < |w.issues|
    ensures |w.events| <= |QueueEvents(w, i, lost).events|
    ensures SlotsOnFile(QueueEvents(w, i, lost), i, |w.events|, lost)
  {
    var deadline, zone := w.issues[i].deadline, w.loops[w.issues[i].group].zone;
    var slots := EventSlots(deadline, zone);
    var specs := IssueEventSpecs(deadline, zone, w.now);
    IssueEventSpecsShape(deadline, zone, w.now);
    assert slots[3] == EventSpec(AutoClose, deadline);
    hide IssueEventSpecs, EventSlots, InsertEach;
    InsertEachKeeps(w, i, specs, lost);
    forall k | 0 <= k < 4 && Queueable(slots[k], w.now)
      ensures EventTaken(QueueEvents(w, i, lost).events, i, slots[k])
              <==> slots[k].kind !in lost || EventTaken(QueueEvents(w, i, lost).events[..|w.events|], i, slots[k])
    {
      assert slots[k] in specs by {
        if k == 3 { assert specs[|specs| - 1] in specs; }
      }
      SlotQueued(w, i, specs, lost, slots[k]);
    }
  }

  lemma {:induction false} SlotQueued(w: World, i: nat, specs: seq<EventSpec>, lost: set<EventKind>, slot: EventSpec)
    requires Keyed(w) && i < |w.issues| && slot in specs
    ensures var events := InsertEach(w, i, specs, lost).events;
            && |w.events| <= |events|
            && (EventTaken(events, i, slot) <==> slot.kind !in lost || EventTaken(events[..|w.events|], i, slot))
  {
    InsertEachKeeps(w, i, specs, lost);
    hide InsertEach;
    var events := InsertEach(w, i, specs, lost).events;
    if slot.kind !in lost {
      var j :| 0 <= j < |specs| && specs[j] == slot;
      var e := InsertEachCovers(w, i, specs, lost, j);
    } else if EventTaken(events, i, slot) {
      var e :| 0 <= e < |events| && events[e].Live()
               && events[e].issue == i && events[e].kind == slot.kind && events[e].at == slot.at;
      if e >= |w.events| {
        InsertEachAdds(w, i, specs, lost, e);
      } else {
        assert events[..|w.events|][e] == events[e];
      }
    }
    assert EventTaken(events[..|w.events|], i, slot) ==> EventTaken(events, i, slot) by {
      if EventTaken(events[..|w.events|], i, slot) {
        var e :| 0 <= e < |w.events| && events[..|w.events|][e].Live() && events[..|w.events|][e].issue == i
                 && events[..|w.events|][e].kind == slot.kind && events[..|w.events|][e].at == slot.at;
        assert events[e] == events[..|w.events|][e];
      }
    }
  }

  /** The close: it is among the slots, and the table's uniqueness leaves room
      for one only. */
  lemma {:induction false} CloseQueued(w: World, i: nat, lost: set<EventKind>)
    requires Keyed(w) && i < |w.issues|
    requires SlotsUnique(QueueEvents(w, i, lost).events)
    requires w.issues[i].deadline > w.now || forall e :: 0 <= e < |w.events| ==> !IsClose(w.events[e], i)
    requires FiredPast(w.events, w.now)
    ensures |w.events| <= |QueueEvents(w, i, lost).events|
    ensures CloseOnFile(QueueEvents(w, i, lost), i, |w.events|, lost)
  {
    var deadline, zone := w.issues[i].deadline, w.loops[w.issues[i].group].zone;
    var specs := IssueEventSpecs(deadline, zone, w.now);
    IssueEventSpecsShape(deadline, zone, w.now);
    hide IssueEventSpecs, InsertEach;
    InsertEachKeeps(w, i, specs, lost);
    var close := EventSpec(AutoClose, deadline);
    assert specs[|specs| - 1] in specs;
    SlotQueued(w, i, specs, lost, close);
    var w1 := QueueEvents(w, i, lost);
    assert forall e :: 0 <= e < |w.events| ==> w1.events[e] == w.events[e];
    forall e | 0 <= e < |w1.events| && IsClose(w1.events[e], i) && w1.events[e].at == deadline
      ensures w1.events[e].state.Pending?
    {
      if e >= |w.events| {
        InsertEachAdds(w, i, specs, lost, e);
      }
    }
    if AutoClose !in lost && forall e :: 0 <= e < |w.events| ==> !IsClose(w1.events[e], i) {
      var e := InsertEachCovers(w, i, specs, lost, |specs| - 1);
      forall f | 0 <= f < |w1.events| && IsClose(w1.events[f], i) ensures f == e {
        InsertEachAdds(w, i, specs, lost, f);
        assert SameRow(w1.events[f], w1.events[e]);
      }
      assert OnlyClose(w1, i, e);
    }
  }

  /** Opening a draft: its close is on file if and only if the insert was not
      lost or the slot was taken before. */
  lemma OpenedByTransition(w: World, i: nat, fault: OpenFault)
    requires Inv(w)
    requires i < |w.issues| && w.issues[i].status.Draft? && w.issues[i].deadline > w.now + 12 * HOUR
    requires forall j :: 0 <= j < |w.issues| ==> !IsCollecting(w.issues[j], w.issues[i].group)
    requires !fault.stop.OpenWriteFails? && (AutoClose in fault.lost ==> w.outages.closes)
    ensures OpenedProperly(OpenForCollecting(w, i, fault).0, i, |w.events|, fault.lost)
  {
    hide QueueEvents, InvBut, CloseOnFile, OnlyItsEvents, SlotsOnFile;
    FactsOfInv(w, NOTHING);
    OpenForCollectingKeeps(w, i, fault);
    FactsOfInv(OpenForCollecting(w, i, fault).0, NOTHING);
    var started := SetStatus(w, i, Collecting);
    CloseQueued(started, i, fault.lost);
    InsertedEvents(started, i, fault.lost);
    SlotsQueued(started, i, fault.lost);
    QueuedRound(started, i, fault.lost);
  }

  lemma QueuedRound(w: World, i: nat, lost: set<EventKind>)
    requires Keyed(w) && i < |w.issues|
    ensures QueueEvents(w, i, lost).issues
         == w.issues[i := w.issues[i].(noClose := QueueEvents(w, i, lost).issues[i].noClose)]
  {
    hide IssueEventSpecs, InsertEach;
    InsertEachKeeps(w, i, IssueEventSpecs(w.issues[i].deadline, w.loops[w.issues[i].group].zone, w.now), lost);
  }

  lemma QueuedPrefix(w: World, i: nat, lost: set<EventKind>)
    requires Keyed(w) && i < |w.issues|
    ensures w.events <= QueueEvents(w, i, lost).events
  {
    hide IssueEventSpecs, InsertEach;
    InsertEachKeeps(w, i, IssueEventSpecs(w.issues[i].deadline, w.loops[w.issues[i].group].zone, w.now), lost);
  }

  /** A round of group `g` opened when an event set for `scheduledAt` fired. */
  ghost predicate OpenedOnTime(w: World, w1: World, g: nat, scheduledAt: Instant, i: nat, lost: set<EventKind>)
    requires Keyed(w1)
  {
    && OpenedProperly(w1, i, |w.events|, lost)
    && w1.issues[i].group == g
    && (i < |w.issues| ==> w.issues[i].status.Draft? && w.issues[i].opensAt <= scheduledAt)
  }

  /** A round collecting in `w1` that was not in `w`. */
  predicate Starts(w: World, w1: World, i: nat) {
    i < |w1.issues| && w1.issues[i].status.Collecting? && (i < |w.issues| ==> !w.issues[i].status.Collecting?)
  }

  /** The only round that CreateNextIssue can open. */
  lemma OpenNextOpens(w: World, g: nat, scheduledAt: Instant, fault: OpenFault, i: nat)
    requires Inv(w) && g < |w.loops| && OpeningsPast(w, g)
    requires AutoClose in fault.lost ==> w.outages.closes
    ensures var w1 := OpenNextIssue(w, g, scheduledAt, fault).0;
            Starts(w, w1, i) ==> OpenedOnTime(w, w1, g, scheduledAt, i, fault.lost)
  {
    hide InvBut, DefaultDeadline, LabelForOpening, Reanchor, OpenForCollecting, OpeningsPast, EarliestDraft, OpenedProperly;
    InvKeyed(w);
    if Starts(w, OpenNextIssue(w, g, scheduledAt, fault).0, i) {
      match NextDraft(w, g) {
        case Some(d) =>
          if w.issues[d].deadline > w.now + MIN_REMINDER_LEAD {
            OnlyOpens(w, d, fault, i);
            OpenedByTransition(w, d, fault);
          } else {
            ReanchorOpens(w, d, fault, i);
          }
        case None => FreshOpens(w, g, fault, i);
      }
    }
  }

  /** The transition opens the round it is given, or nothing. */
  lemma OnlyOpens(w: World, d: nat, fault: OpenFault, i: nat)
    requires Keyed(w) && d < |w.issues|
    requires Starts(w, OpenForCollecting(w, d, fault).0, i)
    ensures i == d && !fault.stop.OpenWriteFails?
    ensures OpenForCollecting(w, d, fault).0.issues[i].group == w.issues[d].group
  {
    hide QueueEvents;
    QueuedRound(SetStatus(w, d, Collecting), d, fault.lost);
  }

  lemma ReanchorOpens(w: World, d: nat, fault: OpenFault, i: nat)
    requires Inv(w)
    requires d < |w.issues| && w.issues[d].status.Draft?
    requires forall j :: 0 <= j < |w.issues| ==> !IsCollecting(w.issues[j], w.issues[d].group)
    requires OpeningsPast(w, w.issues[d].group)
    requires AutoClose in fault.lost ==> w.outages.closes
    ensures var w1 := OpenForCollecting(Reanchor(w, d, fault.labelFails), d, fault).0;
            Starts(w, w1, i) ==>
              i == d && OpenedProperly(w1, i, |w.events|, fault.lost) && w1.issues[i].group == w.issues[d].group
  {
    hide LabelForOpening, OpenForCollecting, OpenedProperly;
    var g := w.issues[d].group;
    var loop := w.loops[g];
    DefaultDeadlineWindow(w.now, loop.windowDays, loop.zone);
    hide DefaultDeadline;
    SetScheduleKeeps(w, d, LabelForOpening(w.issues, g, Some(d), w.now, loop.zone, fault.labelFails), w.now,
                     DefaultDeadline(w.now, loop.windowDays, loop.zone), NOTHING);
    hide InvBut;
    var reanchored := Reanchor(w, d, fault.labelFails);
    if Starts(w, OpenForCollecting(reanchored, d, fault).0, i) {
      OnlyOpens(reanchored, d, fault, i);
      OpenedByTransition(reanchored, d, fault);
    }
  }

  lemma FreshOpens(w: World, g: nat, fault: OpenFault, i: nat)
    requires Inv(w) && g < |w.loops|
    requires forall j :: 0 <= j < |w.issues| ==> !IsCollecting(w.issues[j], g) && !IsDraft(w.issues[j], g, None)
    requires AutoClose in fault.lost ==> w.outages.closes
    ensures var loop := w.loops[g];
            var created := InsertIssue(w, g, LabelForOpening(w.issues, g, None, w.now, loop.zone, fault.labelFails), w.now,
                                       DefaultDeadline(w.now, loop.windowDays, loop.zone));
            var w1 := OpenForCollecting(created, |w.issues|, fault).0;
            Starts(w, w1, i) ==>
              i == |w.issues| && OpenedProperly(w1, i, |w.events|, fault.lost) && w1.issues[i].group == g
  {
    hide LabelForOpening, OpenForCollecting, OpenedProperly;
    var loop := w.loops[g];
    DefaultDeadlineWindow(w.now, loop.windowDays, loop.zone);
    hide DefaultDeadline;
    var masthead := LabelForOpening(w.issues, g, None, w.now, loop.zone, fault.labelFails);
    var close := DefaultDeadline(w.now, loop.windowDays, loop.zone);
    var created := InsertIssue(w, g, masthead, w.now, close);
    InsertIssueKeeps(w, g, masthead, w.now, close, NOTHING);
    hide InvBut;
    if Starts(w, OpenForCollecting(created, |w.issues|, fault).0, i) {
      OnlyOpens(created, |w.issues|, fault, i);
      OpenedByTransition(created, |w.issues|, fault);
    }
  }

  /** Marking a fired open event leaves every slot as taken as it was. */
  lemma MarkKeepsSlots(events: seq<Event>, marked: seq<Event>, n: nat, i: nat, slot: EventSpec)
    requires n <= |events| == |marked|
    requires forall e :: 0 <= e < |events| ==> SameRow(marked[e], events[e]) && marked[e].Live() == events[e].Live()
    ensures EventTaken(marked[..n], i, slot) == EventTaken(events[..n], i, slot)
  {
    assert forall e :: 0 <= e < n ==> marked[..n][e] == marked[e] && events[..n][e] == events[e];
  }

  lemma MarkLeavesSlots(w: World, e: nat, reason: FiredReason, i: nat, before: nat, lost: set<EventKind>)
    requires Keyed(w) && e < before <= |w.events| && i < |w.issues|
    requires SlotsOnFile(w, i, before, lost)
    ensures SlotsOnFile(MarkFired(w, e, reason), i, before, lost)
  {
    hide EventTaken, AtLocalHour;
    var w1 := MarkFired(w, e, reason);
    forall k | 0 <= k < 4
      ensures var slot := EventSlots(w1.issues[i].deadline, w1.loops[w1.issues[i].group].zone)[k];
              Queueable(slot, w1.now) ==>
                (EventTaken(w1.events, i, slot) <==> slot.kind !in lost || EventTaken(w1.events[..before], i, slot))
    {
      MarkLeavesSlot(w, e, reason, i, before, EventSlots(w.issues[i].deadline, w.loops[w.issues[i].group].zone)[k]);
    }
  }

  lemma MarkLeavesSlot(w: World, e: nat, reason: FiredReason, i: nat, before: nat, slot: EventSpec)
    requires e < before <= |w.events|
    ensures var w1 := MarkFired(w, e, reason);
            && EventTaken(w1.events, i, slot) == EventTaken(w.events, i, slot)
            && EventTaken(w1.events[..before], i, slot) == EventTaken(w.events[..before], i, slot)
  {
    var w1 := MarkFired(w, e, reason);
    MarkKeepsSlots(w.events, w1.events, |w.events|, i, slot);
    MarkKeepsSlots(w.events, w1.events, before, i, slot);
    assert w.events[..|w.events|] == w.events && w1.events[..|w1.events|] == w1.events;
  }

  lemma MarkLeavesClose(w: World, e: nat, reason: FiredReason, i: nat, before: nat, lost: set<EventKind>)
    requires Keyed(w) && e < before <= |w.events| && i < |w.issues| && w.events[e].kind.CreateNextIssue?
    requires CloseOnFile(w, i, before, lost)
    ensures CloseOnFile(MarkFired(w, e, reason), i, before, lost)
  {
    var w1 := MarkFired(w, e, reason);
    MarkLeavesSlot(w, e, reason, i, before, CloseSpec(w.issues[i]));
    hide EventTaken;
    assert forall f :: 0 <= f < |w.events| && IsClose(w1.events[f], i) ==> w1.events[f] == w.events[f];
    if AutoClose !in lost && forall f :: 0 <= f < before ==> !IsClose(w1.events[f], i) {
      forall f | 0 <= f < before ensures !IsClose(w.events[f], i) {
        assert !IsClose(w1.events[f], i);
      }
      var c :| before <= c && OnlyClose(w, i, c);
      assert OnlyClose(w1, i, c);
    }
  }

  lemma MarkLeavesOpening(w: World, e: nat, reason: FiredReason, i: nat, before: nat, lost: set<EventKind>)
    requires Keyed(w) && e < |w.events| && e < before && w.events[e].kind.CreateNextIssue?
    requires OpenedProperly(w, i, before, lost)
    ensures OpenedProperly(MarkFired(w, e, reason), i, before, lost)
  {
    hide SlotsOnFile, CloseOnFile;
    MarkLeavesSlots(w, e, reason, i, before, lost);
    MarkLeavesClose(w, e, reason, i, before, lost);
  }

  /** A round the scheduler opens, on whatever overdue list and with whatever
      faults it survives: only a due, unfired open event of its own group opens
      it, never before the draft's opening time; it stays open for more than 12
      hours; its events keep their notice; and each slot with enough notice, its
      close among them, is on file if and only if its insert was not lost or it
      was there before. Unless the draft came with a close, it has its own
      exactly once. */
  lemma SchedulerOpensOnTime(w: World, e: nat, f: FireFaults, i: nat)
    requires Inv(w) && e < |w.events| && w.events[e].at <= w.now
    requires AutoClose in f.open.lost ==> w.outages.closes
    ensures var w1 := FireEvent(w, e, f);
            Starts(w, w1, i) ==>
              && IsOpening(w.events[e])
              && OpenedOnTime(w, w1, w.issues[w.events[e].issue].group, w.events[e].at, i, f.open.lost)
  {
    hide InvBut, OpenNextIssue, PublishRound, OpenedProperly, ShouldSkip;
    InvKeyed(w);
    var ev := w.events[e];
    var g := w.issues[ev.issue].group;
    if Starts(w, FireEvent(w, e, f), i) {
      match ev.kind {
        case AutoClose =>
          PublishOpensNothing(w, ev.issue, f.publishWriteFails, f.queue, i);
        case CreateNextIssue =>
          DuePastOpening(w, e);
          OpenNextOpens(w, g, ev.at, f.open, i);
          var (w1, succeeded) := HandleEvent(w, e, f);
          OpeningKeepsEvents(w, g, ev.at, f.open);
          MarkLeavesOpening(w1, e, Handled, i, |w.events|, f.open.lost);
        case _ =>
      }
    }
  }

  lemma PublishOpensNothing(w: World, i: nat, writeFails: bool, fault: QueueFault, j: nat)
    requires Keyed(w) && i < |w.issues|
    ensures !Starts(w, PublishRound(w, i, writeFails, fault).0, j)
  {
    hide CadenceNextOpen, DefaultDeadline, LabelForOpening, PendingNextRoundAmong, EventTaken;
  }

  /** No handler but the close's own publishes a collecting round. */
  lemma HandlingPublishes(w: World, e: nat, f: FireFaults, i: nat)
    requires Keyed(w) && e < |w.events| && i < |w.issues| && w.issues[i].status.Collecting?
    ensures HandleEvent(w, e, f).0.issues[i].status.Published?
            <==> w.events[e].kind.AutoClose? && w.events[e].issue == i && !f.publishWriteFails
  {
    hide OpenNextIssue, QueueNextIssueEvent;
    var ev := w.events[e];
    match ev.kind {
      case AutoClose =>
        QueueNextTouchesDrafts(SetStatus(w, ev.issue, Published), w.issues[ev.issue].group, w.issues[ev.issue].opensAt,
                               f.queue);
      case CreateNextIssue => OpeningPublishesNothing(w, w.issues[ev.issue].group, ev.at, f.open, i);
      case _ =>
    }
  }

  lemma OpeningPublishesNothing(w: World, g: nat, scheduledAt: Instant, fault: OpenFault, i: nat)
    requires Keyed(w) && g < |w.loops| && i < |w.issues| && w.issues[i].status.Collecting?
    ensures OpenNextIssue(w, g, scheduledAt, fault).0.issues[i].status.Collecting?
  {
    hide DefaultDeadline, LabelForOpening, QueueEvents, EarliestDraft, CollectingRound;
    var loop := w.loops[g];
    match NextDraft(w, g) {
      case Some(d) =>
        QueuedRound(SetStatus(w, d, Collecting), d, fault.lost);
        QueuedRound(SetStatus(Reanchor(w, d, fault.labelFails), d, Collecting), d, fault.lost);
      case None =>
        var created := InsertIssue(w, g, LabelForOpening(w.issues, g, None, w.now, loop.zone, fault.labelFails), w.now,
                                   DefaultDeadline(w.now, loop.windowDays, loop.zone));
        QueuedRound(SetStatus(created, |w.issues|, Collecting), |w.issues|, fault.lost);
    }
  }

  lemma FiringPublishes(w: World, e: nat, f: FireFaults, i: nat)
    requires Keyed(w) && e < |w.events| && w.events[e].at <= w.now
    requires i < |w.issues| && w.issues[i].status.Collecting?
    ensures FireEvent(w, e, f).issues[i].status.Published?
            <==> && IsPendingClose(w.events[e], i) && !f.confirmFails && !f.publishWriteFails
                 && (f.archiveReadFails || w.loops[w.issues[i].group].active)
                 && (f.revalidateFails || w.now - w.events[e].at <= STALE_EVENT_CEILING)
  {
    HandlingPublishes(w, e, f, i);
    hide HandleEvent;
  }

  /** What an unfired, due event comes to, whatever fails: left alone when it is
      not confirmed; marked when its loop is read as archived or its round as
      having overtaken it; and otherwise handled, after which a reminder or a
      summary is consumed exactly when its sends went through, a reminder only
      of a collecting round. */
  lemma FiredAsDecided(w: World, e: nat, f: FireFaults)
    requires Keyed(w) && e < |w.events| && w.events[e].at <= w.now && w.events[e].state.Pending?
    ensures var ev := w.events[e];
            var issue := w.issues[ev.issue];
            var archived := !f.archiveReadFails && !w.loops[issue.group].active;
            var overtaken := !f.revalidateFails && Overtaken(ev.kind, Round(issue.status, issue.deadline), ev.at, w.now);
            var w1 := FireEvent(w, e, f);
            e < |w1.events| &&
            if f.confirmFails then w1 == w
            else if archived then w1 == if f.markFails then w else MarkFired(w, e, ArchivedLoop)
            else if overtaken then w1 == if f.markFails then w else MarkFired(w, e, Skipped)
            else
              && (!ev.kind.IsReminder() && !ev.kind.AutoClose? && !ev.kind.CreateNextIssue? ==>
                    w1 == if f.sendFails || f.markFails then w else MarkFired(w, e, Handled))
              && (ev.kind.IsReminder() ==>
                    w1 == if !issue.status.Collecting? || f.sendFails || f.markFails then w else MarkFired(w, e, Handled))
              && (!f.markFails && w1.events[e].state.Pending? ==> !HandleEvent(w, e, f).1)
  {
    var ev := w.events[e];
    var issue := w.issues[ev.issue];
    DecidedByKind(if f.confirmFails then Failed else Found(true), true,
                  if f.archiveReadFails then Failed else Found(w.loops[issue.group].active),
                  if f.revalidateFails then Failed else Found(Round(issue.status, issue.deadline)), ev.kind, ev.at, w.now);
    hide ShouldSkip, Overtaken, PublishRound, OpenNextIssue, Decide;
  }

  /** A round the scheduler closes, on whatever overdue list and with whatever
      faults: a collecting round is published exactly by a due, unfired close
      of its own, confirmed so, of a loop not read as archived, within the
      lateness ceiling as far as that is read, whose write succeeds; and unless
      the round began as a half start, not before its present deadline. */
  lemma SchedulerClosesOnTime(w: World, e: nat, f: FireFaults, i: nat)
    requires Inv(w) && e < |w.events| && w.events[e].at <= w.now
    requires i < |w.issues| && w.issues[i].status.Collecting?
    ensures var published := FireEvent(w, e, f).issues[i].status.Published?;
            && (published
                <==> && IsPendingClose(w.events[e], i) && !f.confirmFails && !f.publishWriteFails
                     && (f.archiveReadFails || w.loops[w.issues[i].group].active)
                     && (f.revalidateFails || w.now - w.events[e].at <= STALE_EVENT_CEILING))
            && (published && !w.issues[i].halfStarted ==> w.events[e].at == w.issues[i].deadline <= w.now)
  {
    InvKeyed(w);
    FiringPublishes(w, e, f, i);
    OwnClosesOf(w, i);
    hide InvBut, FireEvent;
  }

  lemma OwnClosesOf(w: World, i: nat)
    requires Inv(w) && i < |w.issues| && w.issues[i].status.Collecting?
    ensures !w.issues[i].halfStarted ==> ClosesOnlyAt(w.events, i, w.issues[i].deadline)
  {
  }

  // ---- Starting by hand --------------------------------------------------

  /** The round that a start is about: the draft it opens early, or a new one. */
  function StartedRound(w: World, g: nat, fault: StartFault): (i: nat)
    requires g < |w.loops|
    ensures i <= |w.issues|
  {
    if !fault.draftLookupFails && UpcomingDraft(w, g).Some? then UpcomingDraft(w, g).value else |w.issues|
  }

  /** An accepted start: the round collects if and only if its status write was
      not lost, and its close is queued if and only if that insert was not;
      opening a draft early, as one transaction, loses neither. */
  lemma StartQueuesClose(w: World, g: nat, req: StartRequest, fault: StartFault)
    requires Keyed(w) && g < |w.loops| && StartRound(w, g, req, fault).1.Accepted?
    ensures var w1 := StartRound(w, g, req, fault).0;
            var i := StartedRound(w, g, fault);
            && i < |w1.issues|
            && (w1.issues[i].status.Collecting? <==> i < |w.issues| || !fault.statusFails)
            && (w1.issues[i].noClose <==> i == |w.issues| && AutoClose in fault.lost)
            && (w1.issues[i].noClose <==> !EventTaken(w1.events, i, CloseSpec(w1.issues[i])))
            && (!w1.issues[i].noClose ==>
                  exists e :: |w.events| <= e < |w1.events| && w1.events[e] == NewEvent(i, CloseSpec(w1.issues[i])))
  {
    hide DefaultDeadline, LabelForOpening, IssueLabel, IssueEventSpecs, Requested, StartFresh, OpenDraftEarly,
        EarliestDraft;
    var asked := Requested(w, g, req);
    if StartedRound(w, g, fault) < |w.issues| {
      var d := StartedRound(w, g, fault);
      var deadline := DefaultDeadline(w.now, w.loops[g].windowDays, w.loops[g].zone);
      var masthead := LabelForOpening(w.issues, g, Some(d), w.now, w.loops[g].zone, fault.labelFails);
      EarlyOpenQueuesClose(w, g, d, masthead, deadline);
    } else {
      FreshQueuesClose(w, g, IssueLabel(w.issues, g, None, asked.month, asked.year, fault.labelFails), asked.opensAt,
                       asked.deadline, fault);
    }
  }

  lemma EarlyOpenQueuesClose(w: World, g: nat, d: nat, masthead: Label, deadline: Instant)
    requires Keyed(w) && d < |w.issues| && g < |w.loops|
    requires OpenDraftEarly(w, g, d, masthead, w.now, deadline, IssueEventSpecs(deadline, w.loops[g].zone, w.now)).Some?
    ensures var w1 := OpenDraftEarly(w, g, d, masthead, w.now, deadline,
                        IssueEventSpecs(deadline, w.loops[g].zone, w.now)).value;
            && w1.issues[d].status.Collecting? && !w1.issues[d].noClose
            && EventTaken(w1.events, d, CloseSpec(w1.issues[d]))
            && exists e :: |w.events| <= e < |w1.events| && w1.events[e] == NewEvent(d, CloseSpec(w1.issues[d]))
  {
    var specs := IssueEventSpecs(deadline, w.loops[g].zone, w.now);
    IssueEventSpecsShape(deadline, w.loops[g].zone, w.now);
    hide IssueEventSpecs, InsertAll;
    var consumed := DeletePendingOfGroup(SetStatus(SetSchedule(w, d, masthead, w.now, deadline), d, Collecting), g, true);
    InsertAllKeeps(consumed, d, specs);
    var w1 := OpenDraftEarly(w, g, d, masthead, w.now, deadline, specs).value;
    assert w1.events[|w.events| + |specs| - 1] == NewEvent(d, specs[|specs| - 1]);
  }

  lemma FreshQueuesClose(w: World, g: nat, masthead: Label, opensAt: Instant, deadline: Instant, fault: StartFault)
    requires Keyed(w) && g < |w.loops|
    ensures var w1 := StartFresh(w, g, masthead, opensAt, deadline, fault.statusFails, fault.lost);
            var i := |w.issues|;
            && (w1.issues[i].status.Collecting? <==> !fault.statusFails)
            && (w1.issues[i].noClose <==> AutoClose in fault.lost)
            && (w1.issues[i].noClose <==> !EventTaken(w1.events, i, CloseSpec(w1.issues[i])))
            && (!w1.issues[i].noClose ==>
                  exists e :: |w.events| <= e < |w1.events| && w1.events[e] == NewEvent(i, CloseSpec(w1.issues[i])))
  {
    var i := |w.issues|;
    var specs := IssueEventSpecs(deadline, w.loops[g].zone, w.now);
    IssueEventSpecsShape(deadline, w.loops[g].zone, w.now);
    hide IssueEventSpecs, InsertEach;
    var created := InsertIssue(w, g, masthead, opensAt, deadline);
    var begun := if fault.statusFails then NoteHalfStart(created, i) else SetStatus(created, i, Collecting);
    InsertEachKeeps(begun, i, specs, fault.lost);
    assert specs[|specs| - 1] in specs;
    SlotQueued(begun, i, specs, fault.lost, EventSpec(AutoClose, deadline));
    if AutoClose !in fault.lost {
      var e := InsertEachCovers(begun, i, specs, fault.lost, |specs| - 1);
      assert e >= |w.events|;
    }
  }

  /** A started round waits for the closes queued for it before, none of them
      at its deadline, and for its own. */
  ghost predicate Inherits(w: World, w1: World, i: nat)
    requires i < |w1.issues|
  {
    && |w.events| <= |w1.events|
    && (forall e :: 0 <= e < |w.events| ==> IsPendingClose(w1.events[e], i) == IsPendingClose(w.events[e], i))
    && (forall e :: 0 <= e < |w1.events| && IsPendingClose(w1.events[e], i) ==>
          if e < |w.events| then w1.events[e] == w.events[e] && w1.events[e].at != w1.issues[i].deadline
          else w1.events[e].at == w1.issues[i].deadline)
  }

  lemma StartInherits(w: World, g: nat, req: StartRequest, fault: StartFault)
    requires Keyed(w) && g < |w.loops|
    ensures var (w1, response) := StartRound(w, g, req, fault);
            var i := StartedRound(w, g, fault);
            response.Accepted? ==> i < |w1.issues| && Inherits(w, w1, i)
  {
    hide DefaultDeadline, LabelForOpening, IssueLabel, IssueEventSpecs, Requested, StartFresh, OpenDraftEarly,
        EarliestDraft, Inherits;
    if StartRound(w, g, req, fault).1.Accepted? {
      var asked := Requested(w, g, req);
      var i := StartedRound(w, g, fault);
      if i < |w.issues| {
        EarlyOpenInherits(w, g, i, LabelForOpening(w.issues, g, Some(i), w.now, w.loops[g].zone, fault.labelFails),
                          DefaultDeadline(w.now, w.loops[g].windowDays, w.loops[g].zone));
      } else {
        FreshInherits(w, g, IssueLabel(w.issues, g, None, asked.month, asked.year, fault.labelFails), asked.opensAt,
                      asked.deadline, fault);
      }
    }
  }

  /** An accepted start of either sort: its round waits for a close at its
      deadline only if and only if none was queued for it before. */
  lemma StartClosesOnTimeIff(w: World, g: nat, req: StartRequest, fault: StartFault)
    requires Keyed(w) && g < |w.loops|
    ensures var (w1, response) := StartRound(w, g, req, fault);
            var i := StartedRound(w, g, fault);
            response.Accepted? ==>
              && i < |w1.issues|
              && (ClosesOnlyAt(w1.events, i, w1.issues[i].deadline)
                  <==> forall e :: 0 <= e < |w.events| ==> !IsPendingClose(w.events[e], i))
  {
    StartInherits(w, g, req, fault);
    hide StartRound, StartedRound;
    var w1 := StartRound(w, g, req, fault).0;
    if e :| 0 <= e < |w.events| && IsPendingClose(w.events[e], StartedRound(w, g, fault)) {
      assert StartRound(w, g, req, fault).1.Accepted? ==> IsPendingClose(w1.events[e], StartedRound(w, g, fault));
    }
  }

  /** A close left pending at the very deadline would have refused the
      transaction's own. */
  lemma EarlyOpenInherits(w: World, g: nat, d: nat, masthead: Label, deadline: Instant)
    requires Keyed(w) && d < |w.issues| && g < |w.loops|
    requires OpenDraftEarly(w, g, d, masthead, w.now, deadline, IssueEventSpecs(deadline, w.loops[g].zone, w.now)).Some?
    ensures var w1 := OpenDraftEarly(w, g, d, masthead, w.now, deadline,
                        IssueEventSpecs(deadline, w.loops[g].zone, w.now)).value;
            w1.issues[d].deadline == deadline && Inherits(w, w1, d)
  {
    var specs := IssueEventSpecs(deadline, w.loops[g].zone, w.now);
    IssueEventSpecsShape(deadline, w.loops[g].zone, w.now);
    hide IssueEventSpecs;
    var consumed := DeletePendingOfGroup(SetStatus(SetSchedule(w, d, masthead, w.now, deadline), d, Collecting), g, true);
    InsertAllKeeps(consumed, d, specs);
    var w1 := OpenDraftEarly(w, g, d, masthead, w.now, deadline, specs).value;
    assert !EventTaken(consumed.events, d, specs[|specs| - 1]) by { InsertedWereFree(consumed, d, specs, |specs| - 1); }
    hide InsertAll;
    assert w1.events[..|w.events|] == consumed.events;
  }

  lemma {:induction false} InsertAllFits(w: World, i: nat, specs: seq<EventSpec>)
    requires forall k :: 0 <= k < |specs| ==> !EventTaken(w.events, i, specs[k])
    requires forall j, k :: 0 <= j < k < |specs| ==> specs[j] != specs[k]
    ensures InsertAll(w, i, specs).Some?
    decreases |specs|
  {
    if specs != [] {
      InsertAllFits(InsertEvent(w, i, specs[0]).value, i, specs[1..]);
    }
  }

  lemma {:induction false} InsertedWereFree(w: World, i: nat, specs: seq<EventSpec>, k: nat)
    requires InsertAll(w, i, specs).Some? && k < |specs|
    ensures !EventTaken(w.events, i, specs[k])
    decreases |specs|
  {
    if k > 0 {
      var w1 := InsertEvent(w, i, specs[0]).value;
      InsertedWereFree(w1, i, specs[1..], k - 1);
      assert forall e :: 0 <= e < |w.events| ==> w1.events[e] == w.events[e];
    }
  }

  lemma FreshInherits(w: World, g: nat, masthead: Label, opensAt: Instant, deadline: Instant, fault: StartFault)
    requires Keyed(w) && g < |w.loops|
    ensures var w1 := StartFresh(w, g, masthead, opensAt, deadline, fault.statusFails, fault.lost);
            Inherits(w, w1, |w.issues|)
  {
    var i := |w.issues|;
    var created := InsertIssue(w, g, masthead, opensAt, deadline);
    var begun := if fault.statusFails then NoteHalfStart(created, i) else SetStatus(created, i, Collecting);
    hide QueueEvents;
    InsertedEvents(begun, i, fault.lost);
    QueuedPrefix(begun, i, fault.lost);
    QueuedRound(begun, i, fault.lost);
  }

  // ---- A lost close comes back -------------------------------------------

  /** A committed reschedule: what the round had pending is gone, what had fired
      stays, no other round's events are touched, and the events handed over
      are queued, all of them and nothing else. */
  lemma RescheduleReplacesEvents(w: World, g: nat, half: CurrentHalf)
    requires Keyed(w) && ApplyCurrent(w, g, half).Committed?
    ensures var w1 := ApplyCurrent(w, g, half).world;
            && |w1.events| == |w.events| + |half.events|
            && (forall e :: 0 <= e < |w.events| ==>
                  if w.events[e].issue != half.issue || w.events[e].state.Fired? then w1.events[e] == w.events[e]
                  else !w1.events[e].Live())
            && (forall k :: 0 <= k < |half.events| ==> w1.events[|w.events| + k] == NewEvent(half.issue, half.events[k]))
  {
    InsertAllKeeps(DeletePendingOfIssue(SetDeadline(w, half.issue, half.deadline), half.issue), half.issue, half.events);
  }

  /** A round's close, pending once, at its deadline, and noted. */
  ghost predicate CloseRestored(w: World, i: nat, deadline: Instant) {
    && i < |w.issues| && w.issues[i].status.Collecting? && w.issues[i].deadline == deadline && !w.issues[i].noClose
    && exists e :: 0 <= e < |w.events| && PendingClose(w, i, e)
  }

  ghost predicate PendingClose(w: World, i: nat, e: nat)
    requires i < |w.issues| && e < |w.events|
  {
    && w.events[e] == NewEvent(i, CloseSpec(w.issues[i]))
    && (forall f :: 0 <= f < |w.events| && IsPendingClose(w.events[f], i) ==> f == e)
  }

  lemma MovedRound(w: World, g: nat, half: CurrentHalf)
    requires Keyed(w) && ApplyCurrent(w, g, half).Committed?
    ensures var w1 := ApplyCurrent(w, g, half).world;
            && half.issue < |w.issues|
            && w1.issues[half.issue]
               == w.issues[half.issue].(deadline := half.deadline, noClose := w1.issues[half.issue].noClose)
            && w1.issues[half.issue].status.Collecting?
            && (EventSpec(AutoClose, half.deadline) in half.events ==> !w1.issues[half.issue].noClose)
  {
    var cleared := DeletePendingOfIssue(SetDeadline(w, half.issue, half.deadline), half.issue);
    InsertAllKeeps(cleared, half.issue, half.events);
    var w1 := InsertAll(cleared, half.issue, half.events).value;
    hide InsertAll;
    if EventSpec(AutoClose, half.deadline) in half.events {
      var k :| 0 <= k < |half.events| && half.events[k] == EventSpec(AutoClose, half.deadline);
      assert w1.events[|w.events| + k] == NewEvent(half.issue, half.events[k]);
      assert EventTaken(w1.events, half.issue, half.events[k]);
    }
  }

  ghost predicate ClosesOnce(half: CurrentHalf, k: nat) {
    && k < |half.events| && half.events[k] == EventSpec(AutoClose, half.deadline)
    && (forall j :: 0 <= j < |half.events| && half.events[j].kind.AutoClose? ==> j == k)
  }

  lemma RescheduledClosesOnce(w: World, i: nat, deadline: Instant, lookups: RescheduleLookups) returns (k: nat)
    requires Keyed(w) && i < |w.issues|
    ensures ClosesOnce(RescheduledHalf(w, i, deadline, lookups), k)
  {
    var zone := if lookups.settingsFail then 0 else w.loops[w.issues[i].group].zone;
    RescheduledReminders(w.issues[i].deadline, deadline, zone, w.now, lookups.recent);
    hide RescheduledIssueEventSpecs;
    var half := RescheduledHalf(w, i, deadline, lookups);
    k :| 0 <= k < |half.events| && half.events[k] == EventSpec(AutoClose, deadline);
    forall j | 0 <= j < |half.events| && half.events[j].kind.AutoClose? ensures j == k {
      assert half.events[j] in half.events;
    }
  }

  lemma MovedRestores(w: World, g: nat, half: CurrentHalf, k: nat)
    requires Keyed(w) && ClosesOnce(half, k) && ApplyCurrent(w, g, half).Committed?
    ensures CloseRestored(ApplyCurrent(w, g, half).world, half.issue, half.deadline)
  {
    RescheduleReplacesEvents(w, g, half);
    MovedRound(w, g, half);
    hide ApplyCurrent;
    assert half.events[k] in half.events;
    var w1 := ApplyCurrent(w, g, half).world;
    forall f | 0 <= f < |w1.events| && IsPendingClose(w1.events[f], half.issue) ensures f == |w.events| + k {
      if f >= |w.events| {
        assert w1.events[|w.events| + (f - |w.events|)] == NewEvent(half.issue, half.events[f - |w.events|]);
      }
    }
    assert w1.events[|w.events| + k] == NewEvent(half.issue, half.events[k]);
    assert PendingClose(w1, half.issue, |w.events| + k);
  }

  lemma PinningKeepsClose(w: World, g: nat, half: NextHalf, i: nat, deadline: Instant)
    requires Keyed(w) && 1 <= half.month && ApplyNext(w, g, half).Committed? && CloseRestored(w, i, deadline)
    ensures CloseRestored(ApplyNext(w, g, half).world, i, deadline)
  {
    hide LabelWalk, EventTaken;
    var e :| 0 <= e < |w.events| && PendingClose(w, i, e);
    assert PendingClose(ApplyNext(w, g, half).world, i, e);
  }

  /** Every accepted reschedule of a collecting round, by any of the three
      handlers, leaves its close pending exactly once at the new deadline, also
      when the round had lost it. */
  lemma RescheduleRestoresClose(w: World, i: nat, newDeadline: Instant, lookups: RescheduleLookups)
    requires Keyed(w) && i < |w.issues| && w.issues[i].status.Collecting?
    ensures ExtendDeadline(w, i, newDeadline, lookups).1.Accepted? ==>
              CloseRestored(ExtendDeadline(w, i, newDeadline, lookups).0, i, newDeadline)
    ensures EditDeadline(w, i, newDeadline, lookups).1.Accepted? ==>
              CloseRestored(EditDeadline(w, i, newDeadline, lookups).0, i, newDeadline)
  {
    hide ApplyCurrent, RescheduledIssueEventSpecs, CloseRestored;
    var g := w.issues[i].group;
    var half := RescheduledHalf(w, i, newDeadline, lookups);
    var k := RescheduledClosesOnce(w, i, newDeadline, lookups);
    if ApplyCurrent(w, g, half).Committed? {
      MovedRestores(w, g, half, k);
    }
  }

  lemma ScheduleRestoresClose(w: World, g: nat, req: ScheduleRequest, active: Option<nat>, recent: RecentReminder)
    requires Keyed(w) && g < |w.loops| && req.currentClose.Some?
    requires active.Some? ==> active.value < |w.issues| && IsActive(w.issues[active.value], g, w.now)
    ensures var (w1, response) := UpdateSchedule(w, g, req, active, recent);
            var close := LocalInstant(req.currentClose.value, DEADLINE_LOCAL_HOUR, w.loops[g].zone);
            response.Accepted? ==> CloseRestored(w1, req.currentIssue, close)
  {
    hide ApplyCurrent, ApplyNext, Overlaps, RescheduledIssueEventSpecs, CloseRestored, CloseDateFits,
        NextDatesFit, PinnedHalf;
    if UpdateSchedule(w, g, req, active, recent).1.Accepted? {
      var i := active.value;
      var close := LocalInstant(req.currentClose.value, DEADLINE_LOCAL_HOUR, w.loops[g].zone);
      var half := RescheduledHalf(w, i, close, RescheduleLookups(recent, false));
      var k := RescheduledClosesOnce(w, i, close, RescheduleLookups(recent, false));
      MovedRestores(w, g, half, k);
      if req.nextOpen.Some? {
        var next := PinnedHalf(w.loops[g], req.nextOpen.value, req.nextClose.value);
        PinningKeepsClose(ApplyCurrent(w, g, half).world, g, next, i, close);
      }
    }
  }
}
