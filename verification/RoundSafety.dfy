/** The round lifecycle as a state machine, and its safety theorem. */
module RoundSafety {
  import opened Options
  import opened RoundTiming
  import opened SchedulerPolicy
  import opened RoundTables
  import opened RoundHandlers
  import opened RoundInvariants
  import opened RoundRuns

  // ---- The remaining handlers --------------------------------------------

  lemma ReconcileLoopKeeps(w: World, g: nat, fault: QueueFault)
    requires Inv(w) && g < |w.loops|
    ensures Inv(ReconcileLoop(w, g, fault))
  {
    hide InvBut, QueueNextIssueEvent;
    InvKeyed(w);
    if Stalled(w, g) {
      QueueNextKeeps(w, g, w.issues[LatestPublished(w.issues, g).value].opensAt, fault);
    }
  }

  lemma {:induction false} ReconcileKeeps(w: World, g: nat, faults: seq<QueueFault>)
    requires Inv(w) && g <= |w.loops|
    ensures Inv(ReconcileFrom(w, g, faults))
    decreases |w.loops| - g
  {
    hide InvBut, Keyed, ReconcileLoop;
    InvKeyed(w);
    if g < |w.loops| {
      var fault := if g < |faults| then faults[g] else NO_QUEUE_FAULT;
      var w1 := ReconcileLoop(w, g, fault);
      assert ReconcileFrom(w, g, faults) == ReconcileFrom(w1, g + 1, faults);
      ReconcileLoopKeeps(w, g, fault);
      ReconcileKeeps(w1, g + 1, faults);
    }
  }

  /** A close that comes due on a draft was left there by a half start, and
      nothing else collects. */
  lemma CloseOnDraft(w: World, e: nat)
    requires Inv(w) && e < |w.events| && w.events[e].state.Pending? && w.events[e].kind.AutoClose?
    ensures w.issues[w.events[e].issue].status.Draft? ==>
              forall j :: 0 <= j < |w.issues| ==> !IsCollecting(w.issues[j], w.issues[w.events[e].issue].group)
  {
  }

  lemma DuePastOpening(w: World, e: nat)
    requires Inv(w) && e < |w.events| && IsOpening(w.events[e]) && w.events[e].at <= w.now
    ensures OpeningsPast(w, w.issues[w.events[e].issue].group)
  {
  }

  /** A handler that succeeds on a round's close leaves the round published,
      and no handler rewrites the event it was called for. */
  lemma HandleEventKeeps(w: World, e: nat, f: FireFaults)
    requires Inv(w) && e < |w.events| && w.events[e].state.Pending? && w.events[e].at <= w.now
    requires AutoClose in f.open.lost ==> w.outages.closes
    ensures Inv(HandleEvent(w, e, f).0)
    ensures HandleEvent(w, e, f).0.events[e] == w.events[e].(state := HandleEvent(w, e, f).0.events[e].state)
    ensures HandleEvent(w, e, f).1 && w.events[e].kind.AutoClose? ==>
              HandleEvent(w, e, f).0.issues[w.events[e].issue].status.Published?
  {
    var ev := w.events[e];
    match ev.kind {
      case AutoClose =>
        CloseOnDraft(w, e);
        PublishRoundKeeps(w, ev.issue, f.publishWriteFails, f.queue);
        hide InvBut;
        PublishKeepsRow(w, ev.issue, f.publishWriteFails, f.queue, e);
      case CreateNextIssue =>
        DuePastOpening(w, e);
        OpenNextIssueKeeps(w, w.issues[ev.issue].group, ev.at, f.open);
        hide InvBut;
        OpeningKeepsEvents(w, w.issues[ev.issue].group, ev.at, f.open);
      case _ =>
    }
  }

  lemma PublishKeepsRow(w: World, i: nat, writeFails: bool, fault: QueueFault, e: nat)
    requires Keyed(w) && i < |w.issues| && e < |w.events|
    ensures var w1 := PublishRound(w, i, writeFails, fault).0;
            e < |w1.events| && w1.events[e] == w.events[e].(state := w1.events[e].state)
  {
    hide QueueNextIssueEvent;
    QueueNextTouchesDrafts(SetStatus(w, i, Published), w.issues[i].group, w.issues[i].opensAt, fault);
  }

  lemma FireEventKeeps(w: World, e: nat, f: FireFaults)
    requires Inv(w) && e < |w.events| && w.events[e].at <= w.now
    requires AutoClose in f.open.lost ==> w.outages.closes
    ensures Inv(FireEvent(w, e, f))
  {
    hide InvBut, HandleEvent;
    InvKeyed(w);
    if w.events[e].state.Pending? {
      var issue := w.issues[w.events[e].issue];
      if ShouldSkip(w.events[e].kind, true, Found(Round(issue.status, issue.deadline)), w.events[e].at, w.now) {
        MarkKeeps(w, e, Skipped);
      }
      MarkKeeps(w, e, ArchivedLoop);
      HandleEventKeeps(w, e, f);
      var (w1, succeeded) := HandleEvent(w, e, f);
      if succeeded {
        MarkKeeps(w1, e, Handled);
      }
    }
  }

  // ---- The state machine -------------------------------------------------

  datatype Step =
    | Wait(seconds: nat)
      /** The scheduler takes up an event from an overdue list of any age. */
    | Fire(event: nat, faults: FireFaults)
    | Start(loop: nat, start: StartRequest, startFault: StartFault)
    | Publish(issue: nat, writeFails: bool, queueFault: QueueFault)
    | Extend(issue: nat, deadline: Instant, lookups: RescheduleLookups)
    | Edit(issue: nat, deadline: Instant, lookups: RescheduleLookups)
    | Reschedule(loop: nat, request: ScheduleRequest, active: Option<nat>, recent: RecentReminder)
    | Reconcile(queueFaults: seq<QueueFault>)
    | ChangeSettings(loop: nat, settings: Loop)
      /** A failure to cancel the loop's events is logged. */
    | Archive(loop: nat, cancelFails: bool)
    | Restore(loop: nat)
    | AddLoop(settings: Loop)

  /** The outages a step meets are among those of the run. */
  predicate Meets(outages: Outages, step: Step) {
    match step
    case Fire(_, f) =>
      && (AutoClose in f.open.lost ==> outages.closes)
      && (f.open.labelFails || f.queue.labelFails ==> outages.labels)
    case Start(_, _, fault) => StartAllowed(outages, fault) && (fault.labelFails ==> outages.labels)
    case Publish(_, _, fault) => fault.labelFails ==> outages.labels
    case Reconcile(faults) => forall k :: 0 <= k < |faults| && faults[k].labelFails ==> outages.labels
    case _ => true
  }

  /** The requests that reach a handler, and the two things this machine rules
      out: publishing a draft beside a collecting round, and a start whose draft lookup fails. */
  predicate Enabled(w: World, step: Step) {
    Meets(w.outages, step) &&
    match step
    case Fire(e, _) => e < |w.events| && w.events[e].at <= w.now
    case Start(g, _, fault) => g < |w.loops| && !fault.draftLookupFails
    case Publish(i, _, _) =>
      && i < |w.issues|
      && (w.issues[i].status.Draft? ==> CollectingRound(w.issues, w.issues[i].group).None?)
    case Extend(i, _, _) => i < |w.issues|
    case Edit(i, _, _) => i < |w.issues|
    case Reschedule(g, _, active, _) =>
      && g < |w.loops|
      && (active.Some? ==> active.value < |w.issues| && IsActive(w.issues[active.value], g, w.now))
    case ChangeSettings(g, _) => g < |w.loops|
    case Archive(g, _) => g < |w.loops|
    case Restore(g) => g < |w.loops|
    case _ => true
  }

  function SetLoop(w: World, g: nat, loop: Loop): World
    requires g < |w.loops|
  {
    w.(loops := w.loops[g := loop])
  }

  function ArchiveLoop(w: World, g: nat, cancelFails: bool): (r: World)
    requires Keyed(w) && g < |w.loops|
    ensures Keyed(r) && r.outages == w.outages
  {
    var archived := SetLoop(w, g, w.loops[g].(active := false));
    if cancelFails then archived else DeletePendingOfGroup(archived, g, false)
  }

  function Apply(w: World, step: Step): (r: World)
    requires Keyed(w)
    ensures Keyed(r) && r.outages == w.outages
  {
    if !Enabled(w, step) then w
    else
      match step
      case Wait(seconds) => w.(now := w.now + seconds)
      case Fire(e, f) => FireEvent(w, e, f)
      case Start(g, req, fault) => StartRound(w, g, req, fault).0
      case Publish(i, writeFails, fault) => PublishRound(w, i, writeFails, fault).0
      case Extend(i, deadline, lookups) => ExtendDeadline(w, i, deadline, lookups).0
      case Edit(i, deadline, lookups) => EditDeadline(w, i, deadline, lookups).0
      case Reschedule(g, req, active, recent) => UpdateSchedule(w, g, req, active, recent).0
      case Reconcile(faults) => ReconcileAutoCreate(w, faults)
      case ChangeSettings(g, settings) => SetLoop(w, g, settings)
      case Archive(g, cancelFails) => ArchiveLoop(w, g, cancelFails)
      case Restore(g) => SetLoop(w, g, w.loops[g].(active := true))
      case AddLoop(settings) => w.(loops := w.loops + [settings])
  }

  /** What the steps about a loop itself change: its row alone, and, when it is
      archived, its unfired events, which all go unless cancelling them failed. */
  lemma LoopSteps(w: World, step: Step)
    requires Keyed(w)
    requires (step.ChangeSettings? || step.Archive? || step.Restore?) && step.loop < |w.loops|
    ensures var w1 := Apply(w, step);
            var g := step.loop;
            && |w1.loops| == |w.loops| && (forall h :: 0 <= h < |w.loops| && h != g ==> w1.loops[h] == w.loops[h])
            && w1.loops[g] == (if step.ChangeSettings? then step.settings else w.loops[g].(active := step.Restore?))
            && w1.issues == w.issues && w1.now == w.now && |w1.events| == |w.events|
            && forall e :: 0 <= e < |w.events| ==>
                 w1.events[e] == if step.Archive? && !step.cancelFails && w.events[e].state.Pending?
                                    && w.issues[w.events[e].issue].group == g
                                 then w.events[e].(state := Cancelled) else w.events[e]
  {
  }

  /** A handler called on a row there is, by the scheduler only on a due event, is
      a step of the machine, but for the two calls ruled out. */
  lemma HandlersAreSteps(w: World, step: Step)
    requires Keyed(w) && Meets(w.outages, step)
    ensures var w1 := Apply(w, step);
            match step
            case Fire(e, f) => e < |w.events| && w.events[e].at <= w.now ==> w1 == FireEvent(w, e, f)
            case Start(g, req, fault) =>
              g < |w.loops| && !fault.draftLookupFails ==> w1 == StartRound(w, g, req, fault).0
            case Publish(i, writeFails, fault) =>
              && i < |w.issues|
              && (w.issues[i].status == Draft ==>
                    forall j :: 0 <= j < |w.issues| ==> !IsCollecting(w.issues[j], w.issues[i].group)) ==>
              w1 == PublishRound(w, i, writeFails, fault).0
            case Extend(i, deadline, lookups) => i < |w.issues| ==> w1 == ExtendDeadline(w, i, deadline, lookups).0
            case Edit(i, deadline, lookups) => i < |w.issues| ==> w1 == EditDeadline(w, i, deadline, lookups).0
            case Reschedule(g, req, active, recent) =>
              && g < |w.loops|
              && (active.Some? ==> active.value < |w.issues| && IsActive(w.issues[active.value], g, w.now)) ==>
              w1 == UpdateSchedule(w, g, req, active, recent).0
            case Reconcile(faults) => w1 == ReconcileAutoCreate(w, faults)
            case _ => true
  {
    hide FireEvent, StartRound, PublishRound, ExtendDeadline, EditDeadline, UpdateSchedule, ReconcileAutoCreate, IsActive;
  }

  /** Time passing and a new loop change nothing else. */
  lemma QuietSteps(w: World, step: Step)
    requires Keyed(w) && (step.Wait? || step.AddLoop?)
    ensures var w1 := Apply(w, step);
            && w1.issues == w.issues && w1.events == w.events
            && w1.now == w.now + (if step.Wait? then step.seconds else 0)
            && w.loops <= w1.loops && |w1.loops| == |w.loops| + (if step.Wait? then 0 else 1)
            && (step.AddLoop? ==> w1.loops[|w.loops|] == step.settings)
  {
  }

  function Run(w: World, steps: seq<Step>): (r: World)
    requires Keyed(w)
    ensures Keyed(r) && r.outages == w.outages
  {
    if steps == [] then w else Apply(Run(w, steps[..|steps| - 1]), steps[|steps| - 1])
  }

  lemma WaitKeeps(w: World, seconds: nat)
    requires Inv(w)
    ensures Inv(w.(now := w.now + seconds))
  {
    ClosingTransfer(w, w.(now := w.now + seconds), None);
  }

  lemma AddLoopKeeps(w: World, loop: Loop)
    requires Inv(w)
    ensures Inv(w.(loops := w.loops + [loop]))
  {
    ClosingTransfer(w, w.(loops := w.loops + [loop]), None);
  }

  lemma ApplyKeeps(w: World, step: Step)
    requires Inv(w) && Enabled(w, step)
    ensures Inv(Apply(w, step))
  {
    hide InvBut, FireEvent, StartRound, PublishRound, ExtendDeadline, EditDeadline, UpdateSchedule, ReconcileFrom;
    InvKeyed(w);
    match step {
      case Wait(seconds) => WaitKeeps(w, seconds);
      case Fire(e, f) => FireEventKeeps(w, e, f);
      case Start(g, req, fault) => StartRoundKeeps(w, g, req, fault);
      case Publish(i, writeFails, fault) => PublishRoundKeeps(w, i, writeFails, fault);
      case Extend(i, deadline, lookups) => EditDeadlineKeeps(w, i, deadline, lookups);
      case Edit(i, deadline, lookups) => EditDeadlineKeeps(w, i, deadline, lookups);
      case Reschedule(g, req, active, recent) => UpdateScheduleKeeps(w, g, req, active, recent);
      case Reconcile(faults) => ReconcileKeeps(w, 0, faults);
      case ChangeSettings(g, settings) => SettingsKeep(w, g, settings, NOTHING);
      case Archive(g, _) =>
        SettingsKeep(w, g, w.loops[g].(active := false), NOTHING);
        CancellingKeeps(SetLoop(w, g, w.loops[g].(active := false)), g);
      case Restore(g) => SettingsKeep(w, g, w.loops[g].(active := true), NOTHING);
      case AddLoop(settings) => AddLoopKeeps(w, settings);
    }
  }

  lemma {:induction false} RunKeeps(w: World, steps: seq<Step>)
    requires Inv(w)
    ensures Inv(Run(w, steps))
  {
    hide InvBut, Apply;
    InvKeyed(w);
    if steps != [] {
      RunKeeps(w, steps[..|steps| - 1]);
      var w1 := Run(w, steps[..|steps| - 1]);
      if Enabled(w1, steps[|steps| - 1]) {
        ApplyKeeps(w1, steps[|steps| - 1]);
      } else {
        DisabledStep(w1, steps[|steps| - 1]);
      }
    }
  }

  lemma DisabledStep(w: World, step: Step)
    requires Keyed(w) && !Enabled(w, step)
    ensures Apply(w, step) == w
  {
  }

  /** The safety theorem. From an empty instance, after any sequence of ticks,
      admin requests, settings changes, archivings, repairs and store failures
      they survive, each group has at most one draft and one collecting round;
      the collecting round closes strictly before its queued successor opens;
      no event has fired ahead of its time; and a collecting round's close is
      queued at its present deadline, unless the lateness ceiling or archiving
      took it, or the round is marked as having lost the insert, and then it
      has none. Nothing else is queued to close it, unless it began as a half
      start. Neither mark arises in a run without the store failure behind it. */
  lemma {:induction false} EveryReachableStateIsSafe(
    loops: seq<Loop>, start: Instant, outages: Outages, steps: seq<Step>)
    ensures var w := Run(World(loops, [], [], start, outages), steps);
            && OneOfEach(w.issues)
            && NoOverlap(w, None)
            && OneOpening(w)
            && FiredPast(w.events, w.now)
            && SlotsUnique(w.events)
            && NoCloseOnDraft(w)
            && (forall i :: 0 <= i < |w.issues| && w.issues[i].status.Collecting? ==>
                  if w.issues[i].noClose then !EventTaken(w.events, i, CloseSpec(w.issues[i])) else HasClose(w, i))
            && (forall i :: 0 <= i < |w.issues| && w.issues[i].status.Collecting? && !w.issues[i].halfStarted ==>
                  ClosesOnlyAt(w.events, i, w.issues[i].deadline))
            && (!outages.closes ==> forall i :: 0 <= i < |w.issues| && w.issues[i].status.Collecting? ==> HasClose(w, i))
            && (!outages.statuses ==> forall i :: 0 <= i < |w.issues| ==> !w.issues[i].halfStarted)
  {
    RunKeeps(World(loops, [], [], start, outages), steps);
  }
}
