/** Where the lifecycle falls short of its own rules, and exactly when. */
module RoundAnomalies {
  import opened Options
  import opened Calendar
  import opened RoundTiming
  import opened SchedulerPolicy
  import opened RoundTables
  import opened RoundHandlers
  import opened RoundInvariants
  import opened RoundRuns
  import opened RoundSafety
  import opened RoundReconcile
  import RoundOpenings

  // ---- A start that loses its draft lookup -------------------------------

  /** A world with one more round, already collecting. */
  function AppendRound(w: World, round: Issue): World { w.(issues := w.issues + [round]) }

  lemma AppendKeeps(w: World, round: Issue)
    requires Inv(w) && round.group < |w.loops| && round.status.Collecting? && !round.halfStarted
    requires forall j :: 0 <= j < |w.issues| ==> !IsCollecting(w.issues[j], round.group)
    requires forall j :: 0 <= j < |w.issues| && IsDraft(w.issues[j], round.group, None) ==> !w.issues[j].halfStarted
    requires forall e :: 0 <= e < |w.events| && IsQueuedOpening(w, e, round.group) ==> round.deadline < w.events[e].at
    ensures InvBut(AppendRound(w, round), Except(Some(|w.issues|), None))
  {
    hide SlotsUnique, FiredPast;
    var w1 := AppendRound(w, round);
    forall i | 0 <= i < |w1.issues| && w1.issues[i].status.Collecting? && i != |w.issues|
      ensures if w1.issues[i].noClose then LostClose(w1, i) else HasClose(w1, i)
    {
      CloseTransfer(w, w1, None, i);
    }
  }

  lemma AppendedWithEvents(w: World, round: Issue, lost: set<EventKind>)
    requires Inv(w) && round.group < |w.loops| && round.status.Collecting? && !round.halfStarted
    requires forall j :: 0 <= j < |w.issues| ==> !IsCollecting(w.issues[j], round.group)
    requires forall j :: 0 <= j < |w.issues| && IsDraft(w.issues[j], round.group, None) ==> !w.issues[j].halfStarted
    requires forall e :: 0 <= e < |w.events| && IsQueuedOpening(w, e, round.group) ==> round.deadline < w.events[e].at
    requires AutoClose in lost ==> w.outages.closes
    ensures Inv(QueueEvents(AppendRound(w, round), |w.issues|, lost))
  {
    AppendKeeps(w, round);
    FactsOfInv(w, NOTHING);
    assert forall e :: 0 <= e < |w.events| ==> w.events[e].issue != |w.issues|;
    hide InvBut;
    EventsKeep(AppendRound(w, round), |w.issues|, lost);
  }

  /** What a start that lost its draft lookup makes of the tables. */
  lemma FreshStart(w: World, g: nat, req: StartRequest, fault: StartFault) returns (round: Issue)
    requires Keyed(w) && g < |w.loops|
    requires fault.draftLookupFails && StartRound(w, g, req, fault).1.Accepted?
    ensures round.group == g && round.deadline == Requested(w, g, req).deadline
    ensures if fault.statusFails then round.status.Draft? && round.halfStarted
            else round.status.Collecting? && !round.halfStarted
    ensures StartRound(w, g, req, fault).0 == QueueEvents(AppendRound(w, round), |w.issues|, fault.lost)
    ensures forall j :: 0 <= j < |w.issues| ==> !IsCollecting(w.issues[j], g)
  {
    hide IssueLabel, QueueEvents, Requested;
    var asked := Requested(w, g, req);
    var masthead := IssueLabel(w.issues, g, None, asked.month, asked.year, fault.labelFails);
    round := Issue(g, masthead.month, masthead.year, if fault.statusFails then Draft else Collecting,
                   asked.opensAt, asked.deadline, false, fault.statusFails, masthead.blind);
    var created := InsertIssue(w, g, masthead, asked.opensAt, asked.deadline);
    assert (if fault.statusFails then NoteHalfStart(created, |w.issues|) else SetStatus(created, |w.issues|, Collecting))
        == AppendRound(w, round);
    forall j | 0 <= j < |w.issues| ensures !IsCollecting(w.issues[j], g) {
      assert !IsActive(w.issues[j], g, w.now);
    }
  }

  predicate HasDraft(w: World, g: nat, onlyHalfStarts: bool) {
    exists j :: 0 <= j < |w.issues| && IsDraft(w.issues[j], g, None) && (onlyHalfStarts ==> w.issues[j].halfStarted)
  }

  /** handleCreateIssue logs a failed draft lookup and starts a fresh round
      beside the draft it could not see. When the round does start, the rules
      survive exactly when the draft is not itself a half start and the check
      that every other deadline change runs, and this path does not, would have
      let the new deadline through; when its status write is lost too, exactly
      when there was no draft to miss. */
  lemma StartBlindToDraft(w: World, g: nat, req: StartRequest, fault: StartFault)
    requires Inv(w) && g < |w.loops|
    requires fault.draftLookupFails && StartAllowed(w.outages, fault)
    requires StartRound(w, g, req, fault).1.Accepted?
    ensures Inv(StartRound(w, g, req, fault).0)
            <==> if fault.statusFails then !HasDraft(w, g, false)
                 else !HasDraft(w, g, true) && !PinnedRoundOverlaps(w, g, Requested(w, g, req).deadline)
  {
    hide StartRound, QueueEvents, Requested, InvBut;
    InvKeyed(w);
    var round := FreshStart(w, g, req, fault);
    var w1 := StartRound(w, g, req, fault).0;
    RoundOpenings.QueuedRound(AppendRound(w, round), |w.issues|, fault.lost);
    if HasDraft(w, g, !fault.statusFails) {
      var j :| 0 <= j < |w.issues| && IsDraft(w.issues[j], g, None) && (!fault.statusFails ==> w.issues[j].halfStarted);
      RivalSpoils(w1, j, |w.issues|);
    } else if fault.statusFails {
      FreshDraftKeeps(w, g, req, fault);
    } else if PinnedRoundOverlaps(w, g, round.deadline) {
      RoundOpenings.QueuedPrefix(AppendRound(w, round), |w.issues|, fault.lost);
      OverlapSpoils(w, w1, |w.issues|, PendingNextRound(w, g).value);
    } else {
      assert PendingNextRound(w, g) == PendingNextRoundAmong(w, g, |w.events|);
      AppendedWithEvents(w, round, fault.lost);
    }
  }

  lemma RivalSpoils(w: World, j: nat, i: nat)
    requires j < i < |w.issues| && w.issues[j].group == w.issues[i].group && w.issues[j].status.Draft?
    requires w.issues[i].status.Draft? || (w.issues[i].status.Collecting? && w.issues[j].halfStarted)
    ensures !Inv(w)
  {
    assert IsCollecting(w.issues[i], w.issues[j].group) == w.issues[i].status.Collecting?;
    hide SlotsUnique, FiredPast, Closing, NoCloseOnDraft, NoOverlap;
  }

  lemma FreshDraftKeeps(w: World, g: nat, req: StartRequest, fault: StartFault)
    requires Inv(w) && g < |w.loops|
    requires fault.draftLookupFails && StartAllowed(w.outages, fault)
    requires StartRound(w, g, req, fault).1.Accepted? && !HasDraft(w, g, false)
    ensures Inv(StartRound(w, g, req, fault).0)
  {
    hide InvBut, IssueLabel, StartFresh, Requested;
    InvKeyed(w);
    forall j | 0 <= j < |w.issues| ensures !IsCollecting(w.issues[j], g) {
      assert !IsActive(w.issues[j], g, w.now);
    }
    var asked := Requested(w, g, req);
    var masthead := IssueLabel(w.issues, g, None, asked.month, asked.year, fault.labelFails);
    StartFreshKeeps(w, g, masthead, asked.opensAt, asked.deadline, fault);
  }

  lemma OverlapSpoils(w: World, w1: World, i: nat, e: nat)
    requires Keyed(w) && i < |w1.issues| && |w.issues| <= |w1.issues|
    requires w1.issues[i].status.Collecting?
    requires e < |w.events| <= |w1.events| && w1.events[e] == w.events[e]
    requires w1.issues[w.events[e].issue] == w.issues[w.events[e].issue]
    requires IsQueuedOpening(w, e, w1.issues[i].group) && w.events[e].at <= w1.issues[i].deadline
    ensures !Inv(w1)
  {
    if Inv(w1) {
      NoOverlapOf(w1, i, e);
    }
  }

  lemma NoOverlapOf(w: World, i: nat, e: nat)
    requires Inv(w) && i < |w.issues| && e < |w.events|
    requires w.issues[i].status.Collecting? && IsQueuedOpening(w, e, w.issues[i].group)
    ensures w.issues[i].deadline < w.events[e].at
  {
  }

  // ---- Publishing a draft beside a collecting round ----------------------

  function NextSlot(w: World, g: nat, lastOpensAt: Instant): Instant
    requires g < |w.loops|
  {
    CadenceNextOpen(lastOpensAt, w.loops[g].storedZone, w.loops[g].frequency, w.loops[g].zone, w.now)
  }

  /** handlePublishIssue takes any round that is not published. Publishing a
      draft queues a successor on the cadence alone, whatever is collecting:
      the rules survive exactly when nothing is queued or the successor's slot
      lies past the collecting round's deadline. */
  lemma PublishingADraft(w: World, i: nat, fault: QueueFault)
    requires Inv(w) && i < |w.issues| && w.issues[i].status.Draft?
    ensures var g := w.issues[i].group;
            var collecting := CollectingRound(w.issues, g);
            Inv(PublishRound(w, i, false, fault).0)
            <==> !w.loops[g].autoCreate
                 || !fault.stop.NoQueueStop?
                 || collecting.None?
                 || w.issues[collecting.value].deadline < NextSlot(w, g, w.issues[i].opensAt)
  {
    hide InvBut, QueueNextIssueEvent, CadenceNextOpen;
    PublishKeeps(w, i);
    DraftAlone(w, i);
    var g := w.issues[i].group;
    var published := SetStatus(w, i, Published);
    InvKeyed(published);
    assert forall j :: 0 <= j < |w.issues| ==> IsCollecting(published.issues[j], g) == IsCollecting(w.issues[j], g);
    if CollectingRound(w.issues, g).Some? {
      CollectingAlone(w, CollectingRound(w.issues, g).value);
    }
    if w.loops[g].autoCreate {
      QueueWithoutDraft(published, g, w.issues[i].opensAt, fault);
    }
  }

  lemma DraftAlone(w: World, i: nat)
    requires Inv(w) && i < |w.issues| && w.issues[i].status.Draft?
    ensures forall j :: 0 <= j < |w.issues| && IsDraft(w.issues[j], w.issues[i].group, None) ==> j == i
  {
  }

  lemma {:induction false} QueueWithoutDraft(w: World, g: nat, lastOpensAt: Instant, fault: QueueFault)
    requires Inv(w) && g < |w.loops|
    requires forall j :: 0 <= j < |w.issues| ==> !IsDraft(w.issues[j], g, None)
    ensures var collecting := CollectingRound(w.issues, g);
            Inv(QueueNextIssueEvent(w, g, lastOpensAt, fault))
            <==> !fault.stop.NoQueueStop? || collecting.None?
                 || w.issues[collecting.value].deadline < NextSlot(w, g, lastOpensAt)
  {
    hide InvBut, DefaultDeadline, LabelForOpening, CadenceNextOpen, EarliestDraft, PendingNextRoundAmong, EventTaken;
    InvKeyed(w);
    ClearingKeeps(w, g, NOTHING);
    var cleared := DeletePendingOfGroup(w, g, true);
    var w1 := QueueNextIssueEvent(w, g, lastOpensAt, fault);
    assert PendingNextRound(w, g).None?;
    if fault.stop.PendingLookupFails? || fault.stop.ClearFails? {
      assert w1 == w;
    } else if fault.stop.DraftLookupFails? || fault.stop.DraftWriteFails? {
      assert w1 == cleared;
    } else {
      var loop, slot := w.loops[g], NextSlot(w, g, lastOpensAt);
      var masthead := LabelForOpening(cleared.issues, g, None, slot, loop.zone, fault.labelFails);
      var close := DefaultDeadline(slot, loop.windowDays, loop.zone);
      InsertIssueKeeps(cleared, g, masthead, slot, close, NOTHING);
      var created := InsertIssue(cleared, g, masthead, slot, close);
      if fault.stop.NoQueueStop? {
        assert created.issues[..|w.issues|] == w.issues;
        QueueBesideCollecting(created, g, |w.issues|, slot);
      }
    }
  }

  lemma {:induction false} QueueBesideCollecting(w: World, g: nat, d: nat, slot: Instant)
    requires Inv(w) && g < |w.loops| && d < |w.issues|
    requires IsDraft(w.issues[d], g, None) && w.issues[d].opensAt == slot
    requires forall e :: 0 <= e < |w.events| ==> w.events[e].issue != d
    requires NoOpening(w, g)
    ensures var collecting := CollectingRound(w.issues, g);
            Inv(QueueOpening(w, d, slot, NO_QUEUE_FAULT))
            <==> collecting.None? || w.issues[collecting.value].deadline < slot
  {
    hide InvBut;
    InvKeyed(w);
    var w1 := QueueOpening(w, d, slot, NO_QUEUE_FAULT);
    assert w1.events == w.events + [NewEvent(d, EventSpec(CreateNextIssue, slot))];
    var collecting := CollectingRound(w.issues, g);
    if collecting.Some? {
      CollectingAlone(w, collecting.value);
    }
    if collecting.None? || w.issues[collecting.value].deadline < slot {
      InsertOpeningKeeps(w, d, slot, NOTHING);
    } else {
      OverlapSpoils(w1, w1, collecting.value, |w.events|);
    }
  }

  // ---- An opening whose last write fails ---------------------------------

  /** A due open event of a draft that nothing stands in the way of. */
  ghost predicate ReadyToOpen(w: World, e: nat, d: nat)
    requires Keyed(w)
  {
    && e < |w.events| && IsOpening(w.events[e]) && w.events[e].at <= w.now
    && d == w.events[e].issue
    && IsDraft(w.issues[d], w.issues[d].group, None)
    && w.issues[d].opensAt <= w.events[e].at
    && w.loops[w.issues[d].group].active && w.loops[w.issues[d].group].autoCreate
    && CollectingRound(w.issues, w.issues[d].group).None?
  }

  const WRITE_FAILS := NO_OPEN_FAULT.(stop := OpenWriteFails)

  const NO_FAULTS := FireFaults(false, false, false, false, false, NO_QUEUE_FAULT, NO_OPEN_FAULT, false)

  /** An event that fails to open its draft stays unfired, and is retried; but
      a draft whose window had run out was first moved to the time of the
      failed attempt, and the retry takes that for an admin's re-pinning. The
      retry opens the round exactly when the draft had not been moved, or had
      been moved nowhere. */
  lemma RetryAfterFailedOpen(w: World, e: nat, d: nat, later: Instant)
    requires Inv(w) && ReadyToOpen(w, e, d) && w.now <= later
    ensures var w1 := FireEvent(w, e, NO_FAULTS.(open := WRITE_FAILS)).(now := later);
            && !w1.issues[d].status.Collecting?
            && w1.events[e] == w.events[e]
            && (FireEvent(w1, e, NO_FAULTS).issues[d].status.Collecting?
                <==> w.issues[d].deadline > w.now + MIN_REMINDER_LEAD || w.events[e].at == w.now)
  {
    hide DefaultDeadline, LabelForOpening, InvBut;
    InvKeyed(w);
    DraftAlone(w, d);
    FirstAttempt(w, e, d);
    var w1 := FireEvent(w, e, NO_FAULTS.(open := WRITE_FAILS)).(now := later);
    hide FireEvent;
    SecondAttempt(w1, e, d);
  }

  /** The failed attempt changes nothing, or only moves the draft. */
  lemma FirstAttempt(w: World, e: nat, d: nat)
    requires Keyed(w) && ReadyToOpen(w, e, d)
    requires forall j :: 0 <= j < |w.issues| && IsDraft(w.issues[j], w.issues[d].group, None) ==> j == d
    ensures FireEvent(w, e, NO_FAULTS.(open := WRITE_FAILS))
         == if w.issues[d].deadline > w.now + MIN_REMINDER_LEAD then w else Reanchor(w, d, false)
  {
    hide DefaultDeadline, LabelForOpening, Reanchor;
  }

  lemma SecondAttempt(w: World, e: nat, d: nat)
    requires Keyed(w)
    requires e < |w.events| && IsOpening(w.events[e]) && w.events[e].at <= w.now && d == w.events[e].issue
    requires IsDraft(w.issues[d], w.issues[d].group, None)
    requires forall j :: 0 <= j < |w.issues| && IsDraft(w.issues[j], w.issues[d].group, None) ==> j == d
    requires w.loops[w.issues[d].group].active && w.loops[w.issues[d].group].autoCreate
    requires CollectingRound(w.issues, w.issues[d].group).None?
    ensures FireEvent(w, e, NO_FAULTS).issues[d].status.Collecting? <==> w.issues[d].opensAt <= w.events[e].at
  {
    hide DefaultDeadline, LabelForOpening, QueueEvents;
    var g := w.issues[d].group;
    assert NextDraft(w, g) == Some(d);
    RoundOpenings.QueuedRound(SetStatus(w, d, Collecting), d, {});
    var moved := SetStatus(Reanchor(w, d, false), d, Collecting);
    RoundOpenings.QueuedRound(moved, d, {});
  }

  /** When the retry does not open the round it still counts as handled, and
      consumes the event. Only the repair pass queues another, once, and only
      for a loop that is set up and has published before. */
  lemma RepairAfterLostOpening(w: World, e: nat, d: nat, later: Instant)
    requires Inv(w) && ReadyToOpen(w, e, d) && w.now <= later
    requires w.issues[d].deadline <= w.now + MIN_REMINDER_LEAD && w.events[e].at < w.now
    ensures var g := w.issues[d].group;
            var w2 := FireEvent(FireEvent(w, e, NO_FAULTS.(open := WRITE_FAILS)).(now := later), e, NO_FAULTS);
            && !Alive(w2, g)
            && (Eligible(w2, g) ==> QueuedOnce(ReconcileAutoCreate(w2, []), g))
  {
    hide DefaultDeadline, LabelForOpening, InvBut;
    InvKeyed(w);
    var g := w.issues[d].group;
    DraftAlone(w, d);
    FirstAttempt(w, e, d);
    var w1 := FireEvent(w, e, NO_FAULTS.(open := WRITE_FAILS)).(now := later);
    assert w1 == Reanchor(w, d, false).(now := later);
    RetryOnlyMarks(w1, e, d);
    var w2 := FireEvent(w1, e, NO_FAULTS);
    hide FireEvent;
    OpeningAlone(w, e);
    assert CollectingRound(w2.issues, g).None?;
    assert PendingNextRound(w2, g).None?;
    FiredSoFar(w);
    ReconcileStabilises(w2, g);
  }

  lemma RetryOnlyMarks(w: World, e: nat, d: nat)
    requires Keyed(w)
    requires e < |w.events| && IsOpening(w.events[e]) && w.events[e].at <= w.now && d == w.events[e].issue
    requires IsDraft(w.issues[d], w.issues[d].group, None) && w.issues[d].opensAt > w.events[e].at
    requires forall j :: 0 <= j < |w.issues| && IsDraft(w.issues[j], w.issues[d].group, None) ==> j == d
    requires w.loops[w.issues[d].group].active && w.loops[w.issues[d].group].autoCreate
    requires CollectingRound(w.issues, w.issues[d].group).None?
    ensures FireEvent(w, e, NO_FAULTS) == MarkFired(w, e, Handled)
  {
    hide DefaultDeadline, LabelForOpening;
    assert NextDraft(w, w.issues[d].group) == Some(d);
  }

  lemma OpeningAlone(w: World, e: nat)
    requires Inv(w) && e < |w.events| && IsOpening(w.events[e])
    ensures forall f :: 0 <= f < |w.events| && f != e && IsOpening(w.events[f]) ==>
              w.issues[w.events[f].issue].group != w.issues[w.events[e].issue].group
  {
  }

  lemma FiredSoFar(w: World)
    requires Inv(w)
    ensures FiredPast(w.events, w.now)
  {
  }

  // ---- Archiving a loop in the middle of a round -------------------------

  /** A collecting round that nothing is going to close. */
  ghost predicate Stranded(w: World, i: nat)
    requires Keyed(w)
  {
    && i < |w.issues|
    && w.issues[i].status.Collecting?
    && (forall e :: 0 <= e < |w.events| && w.events[e].issue == i ==>
          !w.events[e].state.Pending? || !w.events[e].kind.AutoClose?)
  }

  /** The steps the server takes on its own. */
  predicate Unattended(step: Step) { step.Wait? || step.Fire? || step.Reconcile? }

  lemma QueueNextStrands(w: World, g: nat, lastOpensAt: Instant, fault: QueueFault, i: nat)
    requires Keyed(w) && g < |w.loops| && Stranded(w, i)
    ensures Stranded(QueueNextIssueEvent(w, g, lastOpensAt, fault), i)
  {
    hide CadenceNextOpen, DefaultDeadline, LabelForOpening, PendingNextRoundAmong, EventTaken;
  }

  lemma {:induction false} ReconcileStrands(w: World, g: nat, faults: seq<QueueFault>, i: nat)
    requires Keyed(w) && g <= |w.loops| && Stranded(w, i)
    ensures Stranded(ReconcileFrom(w, g, faults), i)
    decreases |w.loops| - g
  {
    hide QueueNextIssueEvent, PendingNextRoundAmong;
    if g < |w.loops| {
      var fault := if g < |faults| then faults[g] else NO_QUEUE_FAULT;
      if Stalled(w, g) {
        QueueNextStrands(w, g, w.issues[LatestPublished(w.issues, g).value].opensAt, fault, i);
      }
      hide Stranded;
      ReconcileStrands(ReconcileLoop(w, g, fault), g + 1, faults, i);
    }
  }

  lemma OpenForStrands(w: World, d: nat, fault: OpenFault, i: nat)
    requires Keyed(w) && d < |w.issues| && Stranded(w, i) && d != i
    ensures Stranded(OpenForCollecting(w, d, fault).0, i)
  {
    hide IssueEventSpecs, InsertEach;
    var specs := IssueEventSpecs(w.issues[d].deadline, w.loops[w.issues[d].group].zone, w.now);
    var started := SetStatus(w, d, Collecting);
    InsertEachKeeps(started, d, specs, fault.lost);
    var w1 := OpenForCollecting(w, d, fault).0;
    forall e | 0 <= e < |w1.events| && w1.events[e].issue == i
      ensures !w1.events[e].state.Pending? || !w1.events[e].kind.AutoClose?
    {
      if e < |w.events| {
        assert w1.events[e] == w.events[e];
      } else {
        InsertEachAdds(started, d, specs, fault.lost, e);
      }
    }
  }

  lemma OpenNextStrands(w: World, g: nat, scheduledAt: Instant, fault: OpenFault, i: nat)
    requires Keyed(w) && g < |w.loops| && Stranded(w, i)
    ensures Stranded(OpenNextIssue(w, g, scheduledAt, fault).0, i)
  {
    hide DefaultDeadline, LabelForOpening, OpenForCollecting;
    var loop := w.loops[g];
    if fault.stop.ReadFails? || !loop.autoCreate || CollectingRound(w.issues, g).Some? {
      return;
    }
    match NextDraft(w, g) {
      case Some(d) =>
        OpenForStrands(w, d, fault, i);
        OpenForStrands(Reanchor(w, d, fault.labelFails), d, fault, i);
      case None =>
        var masthead := LabelForOpening(w.issues, g, None, w.now, loop.zone, fault.labelFails);
        var created := InsertIssue(w, g, masthead, w.now, DefaultDeadline(w.now, loop.windowDays, loop.zone));
        OpenForStrands(created, |w.issues|, fault, i);
    }
  }

  lemma HandleStrands(w: World, e: nat, f: FireFaults, i: nat)
    requires Keyed(w) && e < |w.events| && w.events[e].state.Pending? && Stranded(w, i)
    ensures Stranded(HandleEvent(w, e, f).0, i)
  {
    hide OpenNextIssue, QueueNextIssueEvent;
    var ev := w.events[e];
    match ev.kind {
      case AutoClose =>
        assert ev.issue != i;
        assert Stranded(SetStatus(w, ev.issue, Published), i);
        QueueNextStrands(SetStatus(w, ev.issue, Published), w.issues[ev.issue].group, w.issues[ev.issue].opensAt,
                         f.queue, i);
      case CreateNextIssue => OpenNextStrands(w, w.issues[ev.issue].group, ev.at, f.open, i);
      case _ =>
    }
  }

  lemma FireStrands(w: World, e: nat, f: FireFaults, i: nat)
    requires Keyed(w) && e < |w.events| && w.events[e].at <= w.now && Stranded(w, i)
    ensures Stranded(FireEvent(w, e, f), i)
  {
    hide HandleEvent, ShouldSkip;
    if w.events[e].state.Pending? {
      HandleStrands(w, e, f, i);
    }
  }

  lemma {:induction false} UnattendedStrands(w: World, steps: seq<Step>, i: nat)
    requires Keyed(w) && Stranded(w, i)
    requires forall s :: s in steps ==> Unattended(s)
    ensures Stranded(Run(w, steps), i)
  {
    if steps != [] {
      var last := steps[|steps| - 1];
      assert last in steps;
      UnattendedStrands(w, steps[..|steps| - 1], i);
      hide FireEvent, ReconcileFrom, Run;
      var w1 := Run(w, steps[..|steps| - 1]);
      LastStrands(w1, last, i);
    }
  }

  lemma LastStrands(w: World, step: Step, i: nat)
    requires Keyed(w) && Stranded(w, i) && Unattended(step)
    ensures Stranded(Apply(w, step), i)
  {
    hide FireEvent, ReconcileFrom;
    match step {
      case Wait(_) =>
      case Fire(e, f) => if e < |w.events| && w.events[e].at <= w.now { FireStrands(w, e, f, i); }
      case Reconcile(faults) => ReconcileStrands(w, 0, faults, i);
    }
  }

  /** A round that nothing is going to close collects on, however long the
      server runs unattended, and refuses every attempt to start another. Only
      a reschedule brings its close back. */
  lemma {:induction false} StrandedNeverCloses(w: World, i: nat, steps: seq<Step>, req: StartRequest, fault: StartFault)
    requires Keyed(w) && Stranded(w, i)
    requires forall s :: s in steps ==> Unattended(s)
    ensures var w1 := Run(w, steps);
            && i < |w1.issues| && w1.issues[i].status.Collecting?
            && (w1.issues[i].group < |w1.loops| ==> StartRound(w1, w1.issues[i].group, req, fault).1.Refused?)
  {
    hide Run, Requested, IssueLabel, LabelForOpening, StartFresh, OpenDraftEarly;
    UnattendedStrands(w, steps, i);
    var w1 := Run(w, steps);
    assert IsActive(w1.issues[i], w1.issues[i].group, w1.now);
  }

  /** A loop archived while a round collects, and restored: the comment on
      archiving leaves its next round to the admin or the daily repair, but the
      round it was in collects on, however long the server runs, and refuses
      every attempt to start another. */
  lemma {:induction false} ArchivedMidRoundNeverCloses(w: World, i: nat, steps: seq<Step>, req: StartRequest,
      fault: StartFault)
    requires Keyed(w) && i < |w.issues| && w.issues[i].status.Collecting?
    requires forall s :: s in steps ==> Unattended(s)
    ensures var g := w.issues[i].group;
            var w1 := Run(Apply(Apply(w, Archive(g, false)), Restore(g)), steps);
            && i < |w1.issues| && w1.issues[i].status.Collecting?
            && (w1.issues[i].group < |w1.loops| ==> StartRound(w1, w1.issues[i].group, req, fault).1.Refused?)
  {
    hide Run, StartRound;
    var g := w.issues[i].group;
    var restored := Apply(Apply(w, Archive(g, false)), Restore(g));
    assert Stranded(restored, i);
    StrandedNeverCloses(restored, i, steps, req, fault);
  }

  /** So the repair that the comment counts on comes exactly when nothing was
      collecting: then the next sweep leaves a restored loop that it answers
      for one queued opening, and otherwise none. */
  lemma {:induction false} RestoredLoopResumesIff(w: World, g: nat)
    requires Keyed(w) && FiredPast(w.events, w.now) && g < |w.loops|
    ensures var restored := Apply(Apply(w, Archive(g, false)), Restore(g));
            var repaired := ReconcileAutoCreate(restored, []);
            Eligible(restored, g) ==>
              && (QueuedOnce(repaired, g) <==> CollectingRound(w.issues, g).None?)
              && (PendingNextRound(repaired, g).Some? <==> CollectingRound(w.issues, g).None?)
  {
    hide Apply, ReconcileFrom, CollectingRound, LatestPublished, PendingNextRoundAmong;
    var restored := Apply(Apply(w, Archive(g, false)), Restore(g));
    var repaired := ReconcileAutoCreate(restored, []);
    ArchivingCancels(w, g);
    ReconcileStabilises(restored, g);
    if CollectingRound(w.issues, g).Some? {
      SameGroupSameVerdict(restored, repaired, g);
    }
    if e :| 0 <= e < |repaired.events| && OnlyOpening(repaired, g, e) {
      assert IsQueuedOpening(repaired, e, g);
    }
  }

  lemma ArchivingCancels(w: World, g: nat)
    requires Keyed(w) && g < |w.loops|
    ensures var restored := Apply(Apply(w, Archive(g, false)), Restore(g));
            && restored.issues == w.issues && restored.now == w.now && |restored.loops| == |w.loops|
            && PendingNextRound(restored, g).None?
            && (FiredPast(w.events, w.now) ==> FiredPast(restored.events, w.now))
  {
  }

  // ---- A close that is lost ----------------------------------------------

  /** A round the scheduler opens is left with nothing to close it if and only
      if the insert of its close was lost. The opening counts as handled all
      the same. */
  lemma LostCloseStrands(w: World, e: nat, f: FireFaults, i: nat)
    requires Inv(w) && e < |w.events| && w.events[e].at <= w.now
    requires AutoClose in f.open.lost ==> w.outages.closes
    requires forall k :: 0 <= k < |w.events| ==> !IsPendingClose(w.events[k], i)
    ensures var w1 := FireEvent(w, e, f);
            RoundOpenings.Starts(w, w1, i) ==>
              && (Stranded(w1, i) <==> AutoClose in f.open.lost)
              && e < |w1.events| && (!f.markFails ==> w1.events[e].state == Fired(Handled))
  {
    hide InvBut, IssueEventSpecs, OpenNextIssue, PublishRound, FireEvent;
    InvKeyed(w);
    if RoundOpenings.Starts(w, FireEvent(w, e, f), i) {
      OpeningStrands(w, e, f, i);
      OpeningMarks(w, e, f, i);
    }
  }

  lemma OpeningStrands(w: World, e: nat, f: FireFaults, i: nat)
    requires Inv(w) && e < |w.events| && w.events[e].at <= w.now
    requires AutoClose in f.open.lost ==> w.outages.closes
    requires RoundOpenings.Starts(w, FireEvent(w, e, f), i)
    requires forall k :: 0 <= k < |w.events| ==> !IsPendingClose(w.events[k], i)
    ensures Stranded(FireEvent(w, e, f), i) <==> AutoClose in f.open.lost
  {
    hide InvBut, IssueEventSpecs, OpenNextIssue, PublishRound;
    InvKeyed(w);
    RoundOpenings.SchedulerOpensOnTime(w, e, f, i);
    OpeningMarks(w, e, f, i);
    var w1 := FireEvent(w, e, f);
    hide FireEvent, RoundOpenings.SlotsOnFile;
    var close := CloseSpec(w1.issues[i]);
    if AutoClose in f.open.lost {
      assert forall k :: 0 <= k < |w.events| ==> !(IsClose(w1.events[k], i) && w1.events[k].at == close.at);
      NotTakenBefore(w1.events, |w.events|, i, w1.issues[i].deadline);
      assert !EventTaken(w1.events, i, close);
    } else {
      var k :| 0 <= k < |w1.events| && w1.events[k].Live() && w1.events[k].issue == i
               && w1.events[k].kind.AutoClose? && w1.events[k].at == close.at;
      assert IsClose(w1.events[k], i);
    }
  }

  lemma NotTakenBefore(events: seq<Event>, n: nat, i: nat, at: Instant)
    requires n <= |events|
    requires forall k :: 0 <= k < n ==> !(IsClose(events[k], i) && events[k].at == at)
    ensures !EventTaken(events[..n], i, EventSpec(AutoClose, at))
  {
    assert forall k :: 0 <= k < n ==> events[..n][k] == events[k];
  }

  /** The events that were there stay, but for the mark on the one that fired. */
  lemma OpeningMarks(w: World, e: nat, f: FireFaults, i: nat)
    requires Inv(w) && e < |w.events| && w.events[e].at <= w.now
    requires RoundOpenings.Starts(w, FireEvent(w, e, f), i)
    ensures var w1 := FireEvent(w, e, f);
            && |w.events| <= |w1.events|
            && (forall k :: 0 <= k < |w.events| && k != e ==> w1.events[k] == w.events[k])
            && (f.markFails ==> w1.events[e] == w.events[e])
            && (!f.markFails ==> w1.events[e] == w.events[e].(state := Fired(Handled)))
  {
    hide InvBut, OpenNextIssue, PublishRound, ShouldSkip;
    InvKeyed(w);
    var ev := w.events[e];
    match ev.kind {
      case AutoClose =>
        RoundOpenings.PublishOpensNothing(w, ev.issue, f.publishWriteFails, f.queue, i);
      case CreateNextIssue =>
        OpeningKeepsEvents(w, w.issues[ev.issue].group, ev.at, f.open);
        OpeningSucceeds(w, w.issues[ev.issue].group, ev.at, f.open, i);
      case _ =>
    }
  }

  lemma OpeningSucceeds(w: World, g: nat, scheduledAt: Instant, fault: OpenFault, i: nat)
    requires Keyed(w) && g < |w.loops|
    requires RoundOpenings.Starts(w, OpenNextIssue(w, g, scheduledAt, fault).0, i)
    ensures OpenNextIssue(w, g, scheduledAt, fault).1
  {
    hide DefaultDeadline, LabelForOpening, QueueEvents, EarliestDraft, CollectingRound;
  }

  /** A collecting round that one of its events, when fired, publishes. */
  ghost predicate EndsWith(w: World, d: nat, e: nat, ev: Event) {
    && Keyed(w) && d < |w.issues| && e < |w.events| && w.events[e] == ev && ev.at <= w.now
    && w.issues[d].status.Collecting? && FireEvent(w, e, NO_FAULTS).issues[d].status.Published?
  }

  /** A draft that carries a close, as only a half start leaves one, and is
      opened early: the close is still queued, and publishes the round when it
      comes due, whatever deadline the round was opened with. */
  lemma StrayCloseEndsTheRound(w: World, g: nat, req: StartRequest, fault: StartFault, e: nat, later: Instant)
    requires Keyed(w) && g < |w.loops| && w.loops[g].active && e < |w.events|
    requires w.events[e].at <= later <= w.events[e].at + STALE_EVENT_CEILING
    ensures var d := RoundOpenings.StartedRound(w, g, fault);
            var (w1, response) := StartRound(w, g, req, fault);
            response.Accepted? && d < |w.issues| && IsPendingClose(w.events[e], d) ==>
              EndsWith(w1.(now := later), d, e, w.events[e])
  {
    hide StartRound, FireEvent, RoundOpenings.StartedRound;
    if StartRound(w, g, req, fault).1.Accepted? && RoundOpenings.StartedRound(w, g, fault) < |w.issues|
       && IsPendingClose(w.events[e], RoundOpenings.StartedRound(w, g, fault)) {
      RoundOpenings.StartInherits(w, g, req, fault);
      EarlyOpening(w, g, req, fault);
      RoundOpenings.FiringPublishes(StartRound(w, g, req, fault).0.(now := later), e, NO_FAULTS,
                                    RoundOpenings.StartedRound(w, g, fault));
    }
  }

  /** The scheduler can end the round ahead of its deadline. */
  ghost predicate EndsEarly(w: World, d: nat, e: nat, later: Instant)
    requires d < |w.issues|
  {
    e < |w.events| && w.now <= later < w.issues[d].deadline && EndsWith(w.(now := later), d, e, w.events[e])
  }

  /** A close that comes due before a deadline, and is not yet past the
      lateness ceiling. */
  predicate DueBefore(ev: Event, d: nat, now: Instant, deadline: Instant) {
    ev.issue == d && ev.kind.AutoClose? && ev.state.Pending? && ev.at < deadline && now <= ev.at + STALE_EVENT_CEILING
  }

  /** Exactly when an early opening can end before its deadline: when a close
      that was queued for the draft comes due before then. */
  lemma EndsEarlyIff(w: World, g: nat, req: StartRequest, fault: StartFault)
    requires Keyed(w) && g < |w.loops| && w.loops[g].active
    ensures var d := RoundOpenings.StartedRound(w, g, fault);
            var (w1, response) := StartRound(w, g, req, fault);
            response.Accepted? && d < |w.issues| ==>
              ((exists e: nat, later: Instant :: EndsEarly(w1, d, e, later))
               <==> exists e :: 0 <= e < |w.events| && DueBefore(w.events[e], d, w.now, w1.issues[d].deadline))
  {
    hide StartRound, FireEvent, RoundOpenings.StartedRound;
    var d := RoundOpenings.StartedRound(w, g, fault);
    var (w1, response) := StartRound(w, g, req, fault);
    if response.Accepted? && d < |w.issues| {
      RoundOpenings.StartInherits(w, g, req, fault);
      EarlyOpening(w, g, req, fault);
      if e: nat, later: Instant :| EndsEarly(w1, d, e, later) {
        RoundOpenings.FiringPublishes(w1.(now := later), e, NO_FAULTS, d);
        assert DueBefore(w.events[e], d, w.now, w1.issues[d].deadline);
      }
      if e :| 0 <= e < |w.events| && DueBefore(w.events[e], d, w.now, w1.issues[d].deadline) {
        var later := if w.events[e].at < w.now then w.now else w.events[e].at;
        StrayCloseEndsTheRound(w, g, req, fault, e, later);
        assert EndsEarly(w1, d, e, later);
      }
    }
  }

  /** An early opening leaves the round collecting, its deadline to come. */
  lemma EarlyOpening(w: World, g: nat, req: StartRequest, fault: StartFault)
    requires Keyed(w) && g < |w.loops|
    requires StartRound(w, g, req, fault).1.Accepted? && RoundOpenings.StartedRound(w, g, fault) < |w.issues|
    ensures var d := RoundOpenings.StartedRound(w, g, fault);
            var w1 := StartRound(w, g, req, fault).0;
            && w1.issues[d].status.Collecting? && w1.issues[d].group == g && w1.now == w.now
            && w1.now < w1.issues[d].deadline && w1.loops == w.loops
  {
    hide LabelForOpening, IssueEventSpecs, IssueLabel, Requested, StartFresh, EarliestDraft, InsertAll;
    DefaultDeadlineWindow(w.now, w.loops[g].windowDays, w.loops[g].zone);
    hide DefaultDeadline;
    var d := RoundOpenings.StartedRound(w, g, fault);
    var close := DefaultDeadline(w.now, w.loops[g].windowDays, w.loops[g].zone);
    var masthead := LabelForOpening(w.issues, g, Some(d), w.now, w.loops[g].zone, fault.labelFails);
    var started := SetStatus(SetSchedule(w, d, masthead, w.now, close), d, Collecting);
    InsertAllKeeps(DeletePendingOfGroup(started, g, true), d, IssueEventSpecs(close, w.loops[g].zone, w.now));
  }

  // ---- The rules broken in concrete states -------------------------------

  const LOOP := Loop(true, true, true, 7, Monthly, 0, 0)

  const SOUND := Outages(false, false, false)

  function Plain(month: int, status: Status, opensAt: Instant, deadline: Instant): Issue {
    Issue(0, month, 2024, status, opensAt, deadline, false, false, false)
  }

  /** A draft pinned for two days from now. */
  const PINNED_SOON := World(
    [LOOP], [Plain(1, Draft, 2 * DAY, 9 * DAY)], [Event(0, CreateNextIssue, 2 * DAY, Pending)], 0, SOUND)

  const BLIND := NO_START_FAULT.(draftLookupFails := true)

  lemma BlindStartOverlaps()
    ensures Inv(PINNED_SOON)
    ensures !Inv(StartRound(PINNED_SOON, 0, StartRequest(None, None, 1, 2024, 0, 0), BLIND).0)
  {
    var req := StartRequest(None, None, 1, 2024, 0, 0);
    assert Inv(PINNED_SOON);
    assert IsQueuedOpening(PINNED_SOON, 0, 0);
    assert PendingNextRoundAmong(PINNED_SOON, 0, 0).None?;
    hide InvBut;
    DefaultDeadlineWindow(0, 7, 0);
    assert !HasActive(PINNED_SOON, 0);
    StartBlindToDraft(PINNED_SOON, 0, req, BLIND);
  }

  /** A biweekly round collecting for 60 days, and a draft with nothing queued. */
  const LONG_ROUND := World(
    [LOOP.(frequency := Biweekly)],
    [Plain(1, Collecting, 0, 60 * DAY), Plain(2, Draft, 10 * DAY, 70 * DAY)],
    [Event(0, AutoClose, 60 * DAY, Pending)], 0, SOUND)

  lemma PublishingADraftOverlaps()
    ensures Inv(LONG_ROUND)
    ensures !Inv(PublishRound(LONG_ROUND, 1, false, NO_QUEUE_FAULT).0)
  {
    assert ClosesAt(LONG_ROUND.events[0], 0, 60 * DAY, 0);
    assert Inv(LONG_ROUND) by {
      assert HasClose(LONG_ROUND, 0);
    }
    hide InvBut;
    assert LONG_ROUND.issues[..1] == [LONG_ROUND.issues[0]];
    CadenceOpensAtNine(10 * DAY, 0, Biweekly, 0, 0);
    PublishingADraft(LONG_ROUND, 1, NO_QUEUE_FAULT);
    assert IsCollecting(LONG_ROUND.issues[0], 0);
  }

  /** A draft whose opening has come due. */
  const DUE := World(
    [LOOP], [Plain(1, Draft, 0, 9 * DAY)], [Event(0, CreateNextIssue, 0, Pending)], 0, SOUND.(closes := true))

  /** Its close is lost on the way: it collects, its opening is spent, and no
      close is on file. */
  lemma OpenedWithoutAClose()
    ensures Inv(DUE)
    ensures var w1 := FireEvent(DUE, 0, NO_FAULTS.(open := NO_OPEN_FAULT.(lost := {AutoClose})));
            && w1.issues[0].status.Collecting? && w1.issues[0].noClose
            && w1.events[0].state == Fired(Handled)
            && Stranded(w1, 0)
  {
    assert Inv(DUE);
    hide InvBut, QueueEvents, Stranded;
    assert DUE.issues[..0] == [];
    RoundOpenings.QueuedRound(SetStatus(DUE, 0, Collecting), 0, {AutoClose});
    var f := NO_FAULTS.(open := NO_OPEN_FAULT.(lost := {AutoClose}));
    assert FireEvent(DUE, 0, f).issues[0].status.Collecting?;
    hide FireEvent;
    LostCloseStrands(DUE, 0, f, 0);
    RoundOpenings.SchedulerOpensOnTime(DUE, 0, f, 0);
    OpeningMarks(DUE, 0, f, 0);
  }

  /** A loop with no rounds yet; a round asked for in an hour, for a day. */
  const EMPTY := World([LOOP], [], [], 0, SOUND.(statuses := true))

  const FOR_A_DAY := StartRequest(Some(HOUR), Some(DAY), 1, 2024, 0, 0)

  const STATUS_LOST := NO_START_FAULT.(statusFails := true)

  /** What the first start leaves: a draft, and its close. */
  ghost predicate LeftADraft(w: World, e: nat) {
    && w.loops == [LOOP] && w.now == 0 && |w.issues| == 1 && Keyed(w)
    && IsDraft(w.issues[0], 0, Some(0)) && e < |w.events|
    && (forall k :: 0 <= k < |w.events| ==> w.events[k] == NewEvent(0, EventSpec(AutoClose, DAY)))
  }

  lemma HalfStart() returns (e: nat)
    ensures StartRound(EMPTY, 0, FOR_A_DAY, STATUS_LOST).1.Accepted?
    ensures LeftADraft(StartRound(EMPTY, 0, FOR_A_DAY, STATUS_LOST).0, e)
  {
    hide IssueLabel, QueueEvents, RoundOpenings.SlotsOnFile;
    var masthead := IssueLabel([], 0, None, 1, 2024, false);
    var begun := NoteHalfStart(InsertIssue(EMPTY, 0, masthead, HOUR, DAY), 0);
    assert !HasActive(EMPTY, 0);
    assert StartRound(EMPTY, 0, FOR_A_DAY, STATUS_LOST) == (QueueEvents(begun, 0, {}), Accepted);
    RoundOpenings.InsertedEvents(begun, 0, {});
    RoundOpenings.QueuedRound(begun, 0, {});
    RoundOpenings.StartQueuesClose(EMPTY, 0, FOR_A_DAY, STATUS_LOST);
    e :| 0 <= e < |QueueEvents(begun, 0, {}).events|;
  }

  /** Starting again opens that draft early. */
  lemma RepeatedStart(w: World, e: nat)
    requires LeftADraft(w, e)
    ensures var (w1, response) := StartRound(w, 0, FOR_A_DAY, NO_START_FAULT);
            && response.Accepted? && RoundOpenings.StartedRound(w, 0, NO_START_FAULT) == 0
            && w1.issues[0].status.Collecting? && w1.issues[0].deadline > 7 * DAY
  {
    hide IssueLabel, LabelForOpening;
    assert w.issues[..0] == [];
    assert UpcomingDraft(w, 0) == Some(0);
    assert !HasActive(w, 0);
    var deadline := DefaultDeadline(0, 7, 0);
    DefaultDeadlineWindow(0, 7, 0);
    assert deadline == 7 * DAY + 21 * HOUR;
    var specs := IssueEventSpecs(deadline, 0, 0);
    IssueEventSpecsShape(deadline, 0, 0);
    hide IssueEventSpecs, InsertAll;
    var masthead := LabelForOpening(w.issues, 0, Some(0), 0, 0, false);
    var consumed := DeletePendingOfGroup(SetStatus(SetSchedule(w, 0, masthead, 0, deadline), 0, Collecting), 0, true);
    assert consumed.events == w.events;
    RoundOpenings.InsertAllFits(consumed, 0, specs);
    InsertAllKeeps(consumed, 0, specs);
  }

  /** The start loses its status write, and is repeated: the second one opens
      what the first left as a draft for a whole week, and the close of the
      first ends it after the day. */
  lemma HalfStartEndsEarly() returns (e: nat)
    ensures var (half, first) := StartRound(EMPTY, 0, FOR_A_DAY, STATUS_LOST);
            var (begun, second) := StartRound(half, 0, FOR_A_DAY, NO_START_FAULT);
            && first.Accepted? && half.issues[0].status.Draft?
            && second.Accepted? && begun.issues[0].status.Collecting? && begun.issues[0].deadline > 7 * DAY
            && e < |half.events| && EndsWith(begun.(now := DAY), 0, e, half.events[e])
  {
    hide StartRound, RoundOpenings.StartedRound, EndsWith;
    var half := StartRound(EMPTY, 0, FOR_A_DAY, STATUS_LOST).0;
    e := HalfStart();
    RepeatedStart(half, e);
    StrayCloseEndsTheRound(half, 0, FOR_A_DAY, NO_START_FAULT, e, DAY);
  }
}
