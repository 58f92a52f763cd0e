/** Safety over whole runs: any sequence of handlers, ticks and repairs, with
    any store faults the handlers survive, keeps the invariant. */
module RoundRuns {
  import opened Options
  import opened Calendar
  import opened RoundTiming
  import opened SchedulerPolicy
  import opened RoundTables
  import opened RoundHandlers
  import opened RoundInvariants

  // ---- Handlers ----------------------------------------------------------

  lemma QueueOpeningKeeps(w: World, d: nat, at: Instant, fault: QueueFault)
    requires Inv(w)
    requires d < |w.issues| && w.issues[d].status.Draft? && at <= w.issues[d].opensAt
    requires NoOpening(w, w.issues[d].group)
    requires forall i :: 0 <= i < |w.issues| ==> !IsCollecting(w.issues[i], w.issues[d].group)
    ensures Inv(QueueOpening(w, d, at, fault))
  {
    if !fault.stop.EventWriteFails? && InsertEvent(w, d, EventSpec(CreateNextIssue, at)).Some? {
      InsertOpeningKeeps(w, d, at, NOTHING);
    }
  }

  lemma RequeueDraftKeeps(w: World, d: nat, slot: Instant, fault: QueueFault)
    requires Inv(w)
    requires d < |w.issues| && w.issues[d].status.Draft?
    requires NoOpening(w, w.issues[d].group)
    requires forall i :: 0 <= i < |w.issues| ==> !IsCollecting(w.issues[i], w.issues[d].group)
    ensures var loop := w.loops[w.issues[d].group];
            var masthead := LabelForOpening(w.issues, w.issues[d].group, Some(d), slot, loop.zone, fault.labelFails);
            Inv(QueueOpening(SetSchedule(w, d, masthead, slot, DefaultDeadline(slot, loop.windowDays, loop.zone)), d,
                slot, fault))
  {
    hide DefaultDeadline, LabelForOpening;
    var loop := w.loops[w.issues[d].group];
    var masthead := LabelForOpening(w.issues, w.issues[d].group, Some(d), slot, loop.zone, fault.labelFails);
    var close := DefaultDeadline(slot, loop.windowDays, loop.zone);
    SetScheduleKeeps(w, d, masthead, slot, close, NOTHING);
    hide InvBut;
    QueueOpeningKeeps(SetSchedule(w, d, masthead, slot, close), d, slot, fault);
  }

  lemma QueueFreshKeeps(w: World, g: nat, slot: Instant, fault: QueueFault)
    requires Inv(w) && g < |w.loops|
    requires NoOpening(w, g)
    requires forall i :: 0 <= i < |w.issues| ==> !IsCollecting(w.issues[i], g) && !IsDraft(w.issues[i], g, None)
    ensures var loop := w.loops[g];
            var masthead := LabelForOpening(w.issues, g, None, slot, loop.zone, fault.labelFails);
            Inv(QueueOpening(InsertIssue(w, g, masthead, slot, DefaultDeadline(slot, loop.windowDays, loop.zone)),
                |w.issues|, slot, fault))
  {
    hide DefaultDeadline, LabelForOpening;
    var loop := w.loops[g];
    var masthead := LabelForOpening(w.issues, g, None, slot, loop.zone, fault.labelFails);
    var close := DefaultDeadline(slot, loop.windowDays, loop.zone);
    InsertIssueKeeps(w, g, masthead, slot, close, NOTHING);
    QueueOpeningKeeps(InsertIssue(w, g, masthead, slot, close), |w.issues|, slot, fault);
  }

  /** Queueing needs no collecting round in the group: both its callers have
      just closed or ruled one out. */
  lemma QueueNextKeeps(w: World, g: nat, lastOpensAt: Instant, fault: QueueFault)
    requires Inv(w) && g < |w.loops|
    requires forall i :: 0 <= i < |w.issues| ==> !IsCollecting(w.issues[i], g)
    ensures Inv(QueueNextIssueEvent(w, g, lastOpensAt, fault))
  {
    hide InvBut, CadenceNextOpen, DefaultDeadline, LabelForOpening, QueueOpening, PendingNextRoundAmong, NoOpening;
    InvKeyed(w);
    if fault.stop.PendingLookupFails? || PendingNextRound(w, g).Some? || fault.stop.ClearFails? {
      assert QueueNextIssueEvent(w, g, lastOpensAt, fault) == w;
      return;
    }
    var cleared := DeletePendingOfGroup(w, g, true);
    ClearingKeeps(w, g, NOTHING);
    var loop := w.loops[g];
    var slot := CadenceNextOpen(lastOpensAt, loop.storedZone, loop.frequency, loop.zone, w.now);
    if fault.stop.DraftLookupFails? {
      return;
    }
    match NextDraft(cleared, g) {
      case Some(d) =>
        if cleared.issues[d].opensAt > w.now + 12 * HOUR {
          QueueOpeningKeeps(cleared, d, cleared.issues[d].opensAt, fault);
        } else if !fault.stop.DraftWriteFails? {
          RequeueDraftKeeps(cleared, d, slot, fault);
        }
      case None =>
        if !fault.stop.DraftWriteFails? {
          QueueFreshKeeps(cleared, g, slot, fault);
        }
    }
  }

  lemma PublishRoundKeeps(w: World, i: nat, writeFails: bool, fault: QueueFault)
    requires Inv(w) && i < |w.issues|
    requires w.issues[i].status.Draft? ==> forall j :: 0 <= j < |w.issues| ==> !IsCollecting(w.issues[j], w.issues[i].group)
    ensures Inv(PublishRound(w, i, writeFails, fault).0)
    ensures PublishRound(w, i, writeFails, fault).1 ==> PublishRound(w, i, writeFails, fault).0.issues[i].status.Published?
  {
    hide InvBut, QueueNextIssueEvent;
    InvKeyed(w);
    if !w.issues[i].status.Published? && !writeFails {
      CollectingAlone(w, i);
      PublishKeeps(w, i);
      var published := SetStatus(w, i, Published);
      assert forall j :: 0 <= j < |w.issues| ==> !IsCollecting(published.issues[j], w.issues[i].group);
      QueueNextKeeps(published, w.issues[i].group, w.issues[i].opensAt, fault);
      QueueNextTouchesDrafts(published, w.issues[i].group, w.issues[i].opensAt, fault);
    }
  }

  /** Queueing changes no issue that is not a draft, and no event's identity. */
  lemma QueueNextTouchesDrafts(w: World, g: nat, lastOpensAt: Instant, fault: QueueFault)
    requires Keyed(w) && g < |w.loops|
    ensures var w1 := QueueNextIssueEvent(w, g, lastOpensAt, fault);
            && (forall i :: 0 <= i < |w.issues| && !w.issues[i].status.Draft? ==> w1.issues[i] == w.issues[i])
            && |w.events| <= |w1.events|
            && (forall e :: 0 <= e < |w.events| ==> w1.events[e] == w.events[e].(state := w1.events[e].state))
            && (forall e :: 0 <= e < |w.events| && !w.events[e].kind.CreateNextIssue? ==> w1.events[e] == w.events[e])
  {
    hide CadenceNextOpen, DefaultDeadline, LabelForOpening, PendingNextRoundAmong, EventTaken;
    var cleared := DeletePendingOfGroup(w, g, true);
    var w1 := QueueNextIssueEvent(w, g, lastOpensAt, fault);
    assert |w1.events| > |w.events| ==> w1.events[..|w.events|] == cleared.events;
  }

  /** The events a round has when it starts, whichever inserts are lost. */
  lemma {:induction false} EventsKeep(w: World, i: nat, lost: set<EventKind>)
    requires InvBut(w, Except(Some(i), None))
    requires i < |w.issues| && (w.issues[i].status.Draft? ==> w.issues[i].halfStarted)
    requires AutoClose in lost ==> w.outages.closes
    requires w.issues[i].deadline > w.now || forall e :: 0 <= e < |w.events| ==> !IsClose(w.events[e], i)
    requires w.issues[i].halfStarted || forall e :: 0 <= e < |w.events| ==> !IsClose(w.events[e], i)
    ensures Inv(QueueEvents(w, i, lost))
  {
    var deadline, zone := w.issues[i].deadline, w.loops[w.issues[i].group].zone;
    var specs := IssueEventSpecs(deadline, zone, w.now);
    IssueEventSpecsShape(deadline, zone, w.now);
    hide IssueEventSpecs;
    var but := Except(Some(i), None);
    InsertEachKeepsInv(w, i, specs, lost, but);
    InsertEachKeeps(w, i, specs, lost);
    var w1 := InsertEach(w, i, specs, lost);
    FactsOfInv(w1, but);
    forall e | 0 <= e < |w1.events| && IsClose(w1.events[e], i)
      ensures w1.events[e].at == deadline ==> w1.events[e].state.Pending?
      ensures w.issues[i].halfStarted || w1.events[e].at == deadline
    {
      if e < |w.events| {
        assert w1.events[e] == w.events[e];
      } else {
        InsertEachAdds(w, i, specs, lost, e);
      }
    }
    if AutoClose !in lost {
      var e := InsertEachCovers(w, i, specs, lost, |specs| - 1);
    }
    hide InvBut;
    NotedKeeps(w1, i, but);
  }

  /** Opening a draft queues its close along with its reminders, or marks it
      lost. */
  lemma OpenWithEventsKeeps(w: World, i: nat, lost: set<EventKind>)
    requires Inv(w)
    requires i < |w.issues| && w.issues[i].status.Draft?
    requires forall j :: 0 <= j < |w.issues| ==> !IsCollecting(w.issues[j], w.issues[i].group)
    requires AutoClose in lost ==> w.outages.closes
    requires w.issues[i].deadline > w.now || forall e :: 0 <= e < |w.events| ==> !IsClose(w.events[e], i)
    ensures Inv(QueueEvents(SetStatus(w, i, Collecting), i, lost))
  {
    StatusKeeps(w, i);
    DraftCloses(w, i);
    hide InvBut, QueueEvents;
    EventsKeep(SetStatus(w, i, Collecting), i, lost);
  }

  lemma DraftCloses(w: World, i: nat)
    requires Inv(w) && i < |w.issues| && w.issues[i].status.Draft?
    ensures w.issues[i].halfStarted || forall e :: 0 <= e < |w.events| ==> !IsClose(w.events[e], i)
  {
  }

  /** Draft to collecting; its close is still to be queued. */
  lemma StatusKeeps(w: World, i: nat)
    requires Inv(w)
    requires i < |w.issues| && w.issues[i].status.Draft?
    requires forall j :: 0 <= j < |w.issues| ==> !IsCollecting(w.issues[j], w.issues[i].group)
    ensures InvBut(SetStatus(w, i, Collecting), Except(Some(i), None))
  {
    hide SlotsUnique, FiredPast;
    ClosingTransfer(w, SetStatus(w, i, Collecting), Some(i));
  }

  lemma OpenForCollectingKeeps(w: World, i: nat, fault: OpenFault)
    requires Inv(w)
    requires i < |w.issues| && w.issues[i].status.Draft?
    requires forall j :: 0 <= j < |w.issues| ==> !IsCollecting(w.issues[j], w.issues[i].group)
    requires w.issues[i].deadline > w.now
    requires AutoClose in fault.lost ==> w.outages.closes
    ensures Inv(OpenForCollecting(w, i, fault).0)
  {
    hide InvBut, QueueEvents;
    OpenWithEventsKeeps(w, i, fault.lost);
  }

  lemma ReanchorOpenKeeps(w: World, d: nat, fault: OpenFault)
    requires Inv(w)
    requires d < |w.issues| && w.issues[d].status.Draft?
    requires forall j :: 0 <= j < |w.issues| ==> !IsCollecting(w.issues[j], w.issues[d].group)
    requires OpeningsPast(w, w.issues[d].group)
    requires AutoClose in fault.lost ==> w.outages.closes
    ensures Inv(OpenForCollecting(Reanchor(w, d, fault.labelFails), d, fault).0)
  {
    var g := w.issues[d].group;
    var loop := w.loops[g];
    DefaultDeadlineWindow(w.now, loop.windowDays, loop.zone);
    hide DefaultDeadline, LabelForOpening;
    var masthead := LabelForOpening(w.issues, g, Some(d), w.now, loop.zone, fault.labelFails);
    SetScheduleKeeps(w, d, masthead, w.now, DefaultDeadline(w.now, loop.windowDays, loop.zone), NOTHING);
    hide InvBut;
    OpenForCollectingKeeps(Reanchor(w, d, fault.labelFails), d, fault);
  }

  lemma OpenFreshKeeps(w: World, g: nat, fault: OpenFault)
    requires Inv(w) && g < |w.loops|
    requires forall j :: 0 <= j < |w.issues| ==> !IsCollecting(w.issues[j], g) && !IsDraft(w.issues[j], g, None)
    requires AutoClose in fault.lost ==> w.outages.closes
    ensures var loop := w.loops[g];
            var masthead := LabelForOpening(w.issues, g, None, w.now, loop.zone, fault.labelFails);
            var created := InsertIssue(w, g, masthead, w.now, DefaultDeadline(w.now, loop.windowDays, loop.zone));
            Keyed(created) && Inv(OpenForCollecting(created, |w.issues|, fault).0)
  {
    var loop := w.loops[g];
    DefaultDeadlineWindow(w.now, loop.windowDays, loop.zone);
    hide DefaultDeadline, LabelForOpening;
    var masthead := LabelForOpening(w.issues, g, None, w.now, loop.zone, fault.labelFails);
    var close := DefaultDeadline(w.now, loop.windowDays, loop.zone);
    InsertIssueKeeps(w, g, masthead, w.now, close, NOTHING);
    OpenForCollectingKeeps(InsertIssue(w, g, masthead, w.now, close), |w.issues|, fault);
  }

  /** The unfired open events of a group have all come due. */
  ghost predicate OpeningsPast(w: World, g: nat)
    requires Keyed(w)
  {
    forall e :: 0 <= e < |w.events| && IsOpening(w.events[e]) && w.issues[w.events[e].issue].group == g ==>
      w.events[e].at <= w.now
  }

  lemma OpenNextIssueKeeps(w: World, g: nat, scheduledAt: Instant, fault: OpenFault)
    requires Inv(w) && g < |w.loops|
    requires OpeningsPast(w, g)
    requires AutoClose in fault.lost ==> w.outages.closes
    ensures Inv(OpenNextIssue(w, g, scheduledAt, fault).0)
  {
    hide InvBut, DefaultDeadline, LabelForOpening, Reanchor, OpenForCollecting, OpeningsPast, InsertIssue, EarliestDraft;
    InvKeyed(w);
    if fault.stop.ReadFails? || !w.loops[g].autoCreate || CollectingRound(w.issues, g).Some? {
      return;
    }
    match NextDraft(w, g) {
      case Some(d) =>
        if w.issues[d].opensAt > scheduledAt {
        } else if w.issues[d].deadline > w.now + MIN_REMINDER_LEAD {
          OpenForCollectingKeeps(w, d, fault);
        } else {
          ReanchorOpenKeeps(w, d, fault);
        }
      case None => OpenFreshKeeps(w, g, fault);
    }
  }

  /** Early opening: consume the queued openings, then open the draft. The
      statements come in another order in the transaction, to the same end. */
  lemma OpenDraftEarlyKeeps(w: World, g: nat, d: nat, masthead: Label, deadline: Instant)
    requires Inv(w) && d < |w.issues| && g < |w.loops|
    requires forall j :: 0 <= j < |w.issues| ==> !IsCollecting(w.issues[j], g)
    requires deadline > w.now
    requires OpenDraftEarly(w, g, d, masthead, w.now, deadline, IssueEventSpecs(deadline, w.loops[g].zone, w.now)).Some?
    ensures Inv(OpenDraftEarly(w, g, d, masthead, w.now, deadline, IssueEventSpecs(deadline, w.loops[g].zone, w.now)).value)
  {
    hide InvBut, IssueEventSpecs;
    InvKeyed(w);
    var cleared := DeletePendingOfGroup(w, g, true);
    ClearingKeeps(w, g, NOTHING);
    var moved := SetSchedule(cleared, d, masthead, w.now, deadline);
    SetScheduleKeeps(cleared, d, masthead, w.now, deadline, NOTHING);
    var specs := IssueEventSpecs(deadline, w.loops[g].zone, w.now);
    OpenWithEventsKeeps(moved, d, {});
    var started := SetStatus(moved, d, Collecting);
    var consumed := DeletePendingOfGroup(SetStatus(SetSchedule(w, d, masthead, w.now, deadline), d, Collecting), g, true);
    assert started.events == consumed.events;
    assert started == consumed;
    InsertAllKeeps(consumed, d, specs);
  }

  /** What a start may lose in a run. */
  predicate StartAllowed(outages: Outages, fault: StartFault) {
    (AutoClose in fault.lost ==> outages.closes) && (fault.statusFails ==> outages.statuses)
  }

  lemma StartRoundKeeps(w: World, g: nat, req: StartRequest, fault: StartFault)
    requires Inv(w) && g < |w.loops|
    requires !fault.draftLookupFails && StartAllowed(w.outages, fault)
    ensures Inv(StartRound(w, g, req, fault).0)
  {
    hide InvBut, LabelForOpening, IssueLabel, IssueEventSpecs, StartFresh, Requested;
    InvKeyed(w);
    if StartRound(w, g, req, fault).1.Accepted? {
      var loop := w.loops[g];
      DefaultDeadlineWindow(w.now, loop.windowDays, loop.zone);
      hide DefaultDeadline;
      forall j | 0 <= j < |w.issues| ensures !IsCollecting(w.issues[j], g) {
        assert !IsActive(w.issues[j], g, w.now);
      }
      if UpcomingDraft(w, g).Some? {
        var d := UpcomingDraft(w, g).value;
        OpenDraftEarlyKeeps(w, g, d, LabelForOpening(w.issues, g, Some(d), w.now, loop.zone, fault.labelFails),
                            DefaultDeadline(w.now, loop.windowDays, loop.zone));
      } else {
        forall j | 0 <= j < |w.issues| ensures !IsDraft(w.issues[j], g, None) {
          assert !IsActive(w.issues[j], g, w.now) && !IsDraft(w.issues[j], g, Some(w.now));
        }
        var asked := Requested(w, g, req);
        var masthead := IssueLabel(w.issues, g, None, asked.month, asked.year, fault.labelFails);
        StartFreshKeeps(w, g, masthead, asked.opensAt, asked.deadline, fault);
      }
    }
  }

  lemma StartFreshKeeps(w: World, g: nat, masthead: Label, opensAt: Instant, deadline: Instant, fault: StartFault)
    requires Inv(w) && g < |w.loops| && StartAllowed(w.outages, fault)
    requires forall j :: 0 <= j < |w.issues| ==> !IsCollecting(w.issues[j], g) && !IsDraft(w.issues[j], g, None)
    ensures Inv(StartFresh(w, g, masthead, opensAt, deadline, fault.statusFails, fault.lost))
  {
    hide QueueEvents;
    InvKeyed(w);
    var i := |w.issues|;
    InsertIssueKeeps(w, g, masthead, opensAt, deadline, NOTHING);
    var created := InsertIssue(w, g, masthead, opensAt, deadline);
    if fault.statusFails {
      HalfStartKeeps(created, i);
      hide InvBut;
      EventsKeep(NoteHalfStart(created, i), i, fault.lost);
    } else {
      hide InvBut;
      OpenWithEventsKeeps(created, i, fault.lost);
    }
  }

  lemma HalfStartKeeps(w: World, i: nat)
    requires Inv(w) && i < |w.issues| && w.outages.statuses && w.issues[i].status.Draft?
    requires forall j :: 0 <= j < |w.issues| ==> !IsCollecting(w.issues[j], w.issues[i].group)
    ensures InvBut(NoteHalfStart(w, i), Except(Some(i), None))
  {
    hide SlotsUnique, FiredPast;
    ClosingTransfer(w, NoteHalfStart(w, i), Some(i));
  }

  // ---- ApplySchedule -----------------------------------------------------

  /** The events a caller hands over for a round: its close, and no opening. */
  ghost predicate ClosingSpecs(half: CurrentHalf) {
    && EventSpec(AutoClose, half.deadline) in half.events
    && (forall s :: s in half.events ==> !s.kind.CreateNextIssue?)
    && (forall s :: s in half.events && s.kind.AutoClose? ==> s.at == half.deadline)
  }

  lemma ApplyCurrentKeeps(w: World, g: nat, half: CurrentHalf, gap: bool)
    requires Inv(w)
    requires ClosingSpecs(half)
    requires ApplyCurrent(w, g, half).Committed?
    requires gap || ClosesBeforeQueued(w, half.issue, half.deadline)
    ensures InvBut(ApplyCurrent(w, g, half).world, Except(None, if gap then Some(g) else None))
    ensures var w1 := ApplyCurrent(w, g, half).world;
            && w1.issues == SetDeadline(w, half.issue, half.deadline).issues[half.issue := w1.issues[half.issue]]
            && w1.issues[half.issue] == w.issues[half.issue].(deadline := half.deadline, noClose := false)
            && EventTaken(w1.events, half.issue, EventSpec(AutoClose, half.deadline))
  {
    hide InvBut;
    InvKeyed(w);
    var i := half.issue;
    var but := Except(Some(i), if gap then Some(g) else None);
    MoveDeadlineKeeps(w, i, half.deadline, gap);
    var moved := SetDeadline(w, i, half.deadline);
    ClearingIssueKeeps(moved, i, but);
    var cleared := DeletePendingOfIssue(moved, i);
    InsertEachKeepsInv(cleared, i, half.events, {}, but);
    InsertAllKeeps(cleared, i, half.events);
    var w1 := InsertAll(cleared, i, half.events).value;
    FactsOfInv(w1, but);
    var k :| 0 <= k < |half.events| && half.events[k] == EventSpec(AutoClose, half.deadline);
    var c := |cleared.events| + k;
    assert w1.events[c] == NewEvent(i, half.events[k]);
    forall e | 0 <= e < |w1.events| && IsClose(w1.events[e], i) && w1.events[e].at == half.deadline
      ensures w1.events[e].state.Pending?
    {
      assert SameRow(w1.events[e], w1.events[c]);
    }
    forall e | 0 <= e < |w1.events| && IsPendingClose(w1.events[e], i) ensures w1.events[e].at == half.deadline {
      assert half.events[e - |cleared.events|] in half.events;
    }
    NotedKeeps(w1, i, but);
  }

  lemma SettingsKeep(w: World, g: nat, loop: Loop, but: Except)
    requires InvBut(w, but) && g < |w.loops|
    ensures InvBut(w.(loops := w.loops[g := loop]), but)
  {
    hide OneOfEach, HalfStartsAlone, SlotsUnique, FiredPast;
    ClosingTransfer(w, w.(loops := w.loops[g := loop]), but.issue);
  }

  lemma ApplyNextKeeps(w: World, g: nat, half: NextHalf, but: Except)
    requires InvBut(w, but) && but.issue.None? && (but.loop.Some? ==> but.loop == Some(g))
    requires 1 <= half.month
    requires forall i :: 0 <= i < |w.issues| && IsCollecting(w.issues[i], g) ==> w.issues[i].deadline < half.open
    requires ApplyNext(w, g, half).Committed?
    ensures Inv(ApplyNext(w, g, half).world)
  {
    hide InvBut, LabelWalk, EventTaken;
    FactsOfInv(w, but);
    var saved := w.(loops := w.loops[g := w.loops[g].(windowDays := half.windowDays)]);
    SettingsKeep(w, g, w.loops[g].(windowDays := half.windowDays), but);
    ClearingKeeps(saved, g, but);
    var cleared := DeletePendingOfGroup(saved, g, true);
    var draft := NextDraft(cleared, g);
    var masthead := NextAvailableLabel(cleared.issues, g, draft, half.month, half.year).value;
    match draft {
      case Some(d) =>
        SetScheduleKeeps(cleared, d, masthead, half.open, half.close, NOTHING);
        InsertOpeningKeeps(SetSchedule(cleared, d, masthead, half.open, half.close), d, half.open, NOTHING);
      case None =>
        InsertIssueKeeps(cleared, g, masthead, half.open, half.close, NOTHING);
        InsertOpeningKeeps(InsertIssue(cleared, g, masthead, half.open, half.close), |cleared.issues|, half.open, NOTHING);
    }
  }

  /** The transaction keeps the invariant for every update it commits: its own
      overlap check suffices, whatever its callers validated before. */
  lemma ApplyScheduleKeeps(w: World, u: ScheduleUpdate)
    requires Inv(w)
    requires u.current.Some? ==> ClosingSpecs(u.current.value)
    requires u.next.Some? ==> 1 <= u.next.value.month
    requires ApplySchedule(w, u).Committed?
    ensures Inv(ApplySchedule(w, u).world)
  {
    if u.current.Some? {
      var half := u.current.value;
      CollectingAlone(w, half.issue);
      if u.next.None? {
        PinnedFirst(w, half.issue, half.deadline);
      }
      ApplyCurrentKeeps(w, u.group, half, u.next.Some?);
      hide InvBut;
      if u.next.Some? {
        ApplyNextKeeps(ApplyCurrent(w, u.group, half).world, u.group, u.next.value, Except(None, Some(u.group)));
      }
    } else if u.next.Some? {
      if CollectingRound(w.issues, u.group).Some? {
        CollectingAlone(w, CollectingRound(w.issues, u.group).value);
      }
      hide InvBut;
      ApplyNextKeeps(w, u.group, u.next.value, NOTHING);
    }
  }

  lemma CollectingAlone(w: World, i: nat)
    requires Inv(w)
    ensures i < |w.issues| && w.issues[i].status.Collecting? ==>
              forall j :: 0 <= j < |w.issues| && j != i ==> !IsCollecting(w.issues[j], w.issues[i].group)
  {
  }

  /** Clearing the earliest queued opening clears them all. */
  lemma PinnedFirst(w: World, i: nat, deadline: Instant)
    requires Keyed(w) && i < |w.issues|
    requires var pinned := PendingNextRound(w, w.issues[i].group);
             pinned.Some? ==> deadline < w.events[pinned.value].at
    ensures ClosesBeforeQueued(w, i, deadline)
  {
    assert PendingNextRound(w, w.issues[i].group) == PendingNextRoundAmong(w, w.issues[i].group, |w.events|);
  }

  lemma RescheduledHalfCloses(w: World, i: nat, deadline: Instant, lookups: RescheduleLookups)
    requires Keyed(w) && i < |w.issues|
    ensures ClosingSpecs(RescheduledHalf(w, i, deadline, lookups))
  {
    var zone := if lookups.settingsFail then 0 else w.loops[w.issues[i].group].zone;
    RescheduledReminders(w.issues[i].deadline, deadline, zone, w.now, lookups.recent);
  }

  lemma RescheduleKeeps(w: World, i: nat, newDeadline: Instant, lookups: RescheduleLookups)
    requires Inv(w) && i < |w.issues|
    ensures Inv(RescheduleDeadline(w, i, newDeadline, lookups).0)
  {
    hide InvBut, RescheduledHalf, ApplySchedule;
    InvKeyed(w);
    RescheduledHalfCloses(w, i, newDeadline, lookups);
    var u := ScheduleUpdate(w.issues[i].group, Some(RescheduledHalf(w, i, newDeadline, lookups)), None);
    if ApplySchedule(w, u).Committed? {
      ApplyScheduleKeeps(w, u);
    }
  }

  lemma EditDeadlineKeeps(w: World, i: nat, newDeadline: Instant, lookups: RescheduleLookups)
    requires Inv(w) && i < |w.issues|
    ensures Inv(EditDeadline(w, i, newDeadline, lookups).0)
    ensures Inv(ExtendDeadline(w, i, newDeadline, lookups).0)
  {
    RescheduleKeeps(w, i, newDeadline, lookups);
    if w.issues[i].status.Draft? {
      SetDraftDeadlineKeeps(w, i, newDeadline);
    }
  }

  lemma UpdateScheduleKeeps(w: World, g: nat, req: ScheduleRequest, active: Option<nat>, recent: RecentReminder)
    requires Inv(w) && g < |w.loops|
    requires active.Some? ==> active.value < |w.issues| && IsActive(w.issues[active.value], g, w.now)
    ensures Inv(UpdateSchedule(w, g, req, active, recent).0)
  {
    hide InvBut, RescheduledHalf, ApplySchedule, CloseDateFits, NextDatesFit, PinnedHalf;
    InvKeyed(w);
    if UpdateSchedule(w, g, req, active, recent).1.Accepted? {
      var loop := w.loops[g];
      var currentHalf := None;
      if req.currentClose.Some? {
        var i := active.value;
        var close := LocalInstant(req.currentClose.value, DEADLINE_LOCAL_HOUR, loop.zone);
        RescheduledHalfCloses(w, i, close, RescheduleLookups(recent, false));
        currentHalf := Some(RescheduledHalf(w, i, close, RescheduleLookups(recent, false)));
      }
      var nextHalf := if req.nextOpen.Some? then Some(PinnedHalf(loop, req.nextOpen.value, req.nextClose.value)) else None;
      ApplyScheduleKeeps(w, ScheduleUpdate(g, currentHalf, nextHalf));
    }
  }
}
