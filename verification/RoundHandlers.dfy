/** The handlers that move rounds along: what each does to the tables, with
    every branch, guard and store fault of the code. A handler runs as one
    step; `now` is the one instant it reads. */
module RoundHandlers {
  import opened Options
  import opened Calendar
  import opened RoundTiming
  import opened SchedulerPolicy
  import opened RoundTables

  datatype Response = Accepted | Refused | ServerError

  // ---- queueNextIssueEvent -----------------------------------------------

  /** The store call that ends the handler, if one fails. */
  datatype QueueStop =
    | NoQueueStop | PendingLookupFails | ClearFails | DraftLookupFails | DraftWriteFails | EventWriteFails

  /** A failed label lookup does not: the round takes the base month. */
  datatype QueueFault = QueueFault(stop: QueueStop, labelFails: bool)

  const NO_QUEUE_FAULT := QueueFault(NoQueueStop, false)

  /** Queues the opening of a group's next round on a draft that it finds or
      creates. */
  function QueueNextIssueEvent(w: World, g: nat, lastOpensAt: Instant, fault: QueueFault): (r: World)
    requires Keyed(w) && g < |w.loops|
    ensures Follows(w, r) && r.loops == w.loops
  {
    hide CadenceNextOpen, DefaultDeadline, LabelForOpening;
    if fault.stop.PendingLookupFails? || PendingNextRound(w, g).Some? || fault.stop.ClearFails? then w
    else
      var cleared := DeletePendingOfGroup(w, g, true);
      if fault.stop.DraftLookupFails? then cleared
      else
        var loop := w.loops[g];
        var slot := CadenceNextOpen(lastOpensAt, loop.storedZone, loop.frequency, loop.zone, w.now);
        match NextDraft(cleared, g)
        case Some(d) =>
          if cleared.issues[d].opensAt > w.now + 12 * HOUR then
            QueueOpening(cleared, d, cleared.issues[d].opensAt, fault)
          else if fault.stop.DraftWriteFails? then cleared
          else
            var masthead := LabelForOpening(cleared.issues, g, Some(d), slot, loop.zone, fault.labelFails);
            QueueOpening(
              SetSchedule(cleared, d, masthead, slot, DefaultDeadline(slot, loop.windowDays, loop.zone)), d, slot, fault)
        case None =>
          if fault.stop.DraftWriteFails? then cleared
          else
            var masthead := LabelForOpening(cleared.issues, g, None, slot, loop.zone, fault.labelFails);
            var created := InsertIssue(cleared, g, masthead, slot, DefaultDeadline(slot, loop.windowDays, loop.zone));
            QueueOpening(created, |cleared.issues|, slot, fault)
  }

  function QueueOpening(w: World, d: nat, at: Instant, fault: QueueFault): (r: World)
    requires Keyed(w) && d < |w.issues|
    ensures Follows(w, r) && r.loops == w.loops && r.issues == w.issues
  {
    if fault.stop.EventWriteFails? then w
    else
      match InsertEvent(w, d, EventSpec(CreateNextIssue, at))
      case None => w
      case Some(w1) => w1
  }

  // ---- AutoPublishIssue and handlePublishIssue ---------------------------

  /** Publishes a round and queues the next one; publishing again is a no-op. */
  function PublishRound(w: World, i: nat, writeFails: bool, fault: QueueFault): (r: (World, bool))
    requires Keyed(w) && i < |w.issues|
    ensures Follows(w, r.0) && r.0.loops == w.loops
  {
    if w.issues[i].status.Published? then (w, true)
    else if writeFails then (w, false)
    else
      var published := SetStatus(w, i, Published);
      var g := w.issues[i].group;
      if w.loops[g].autoCreate then (QueueNextIssueEvent(published, g, w.issues[i].opensAt, fault), true)
      else (published, true)
  }

  // ---- CreateNextIssue ---------------------------------------------------

  datatype OpenStop = NoOpenStop | ReadFails | ReanchorFails | CreateFails | OpenWriteFails

  /** `lost` are the kinds of events whose insert fails. The handler survives
      that, and a failed label lookup. */
  datatype OpenFault = OpenFault(stop: OpenStop, labelFails: bool, lost: set<EventKind>)

  const NO_OPEN_FAULT := OpenFault(NoOpenStop, false, {})

  /** openIssueForCollecting: the transition and the round's events. A round
      whose close is lost opens all the same. */
  function OpenForCollecting(w: World, i: nat, fault: OpenFault): (r: (World, bool))
    requires Keyed(w) && i < |w.issues|
    ensures Follows(w, r.0) && r.0.loops == w.loops && |w.issues| == |r.0.issues|
  {
    if fault.stop.OpenWriteFails? then (w, false)
    else
      (QueueEvents(SetStatus(w, i, Collecting), i, fault.lost), true)
  }

  /** scheduleIssueEvents for a round, and the note of how its close fared. */
  function QueueEvents(w: World, i: nat, lost: set<EventKind>): (r: World)
    requires Keyed(w) && i < |w.issues|
    ensures Follows(w, r) && r.loops == w.loops && |r.issues| == |w.issues|
  {
    var specs := IssueEventSpecs(w.issues[i].deadline, w.loops[w.issues[i].group].zone, w.now);
    InsertEachKeeps(w, i, specs, lost);
    NoteClose(InsertEach(w, i, specs, lost), i)
  }

  /** Opens the next round when its event fires. */
  function OpenNextIssue(w: World, g: nat, scheduledAt: Instant, fault: OpenFault): (r: (World, bool))
    requires Keyed(w) && g < |w.loops|
    ensures Follows(w, r.0) && r.0.loops == w.loops
  {
    hide DefaultDeadline, LabelForOpening, IssueEventSpecs;
    var loop := w.loops[g];
    if fault.stop.ReadFails? then (w, false)
    else if !loop.autoCreate || CollectingRound(w.issues, g).Some? then (w, true)
    else
      match NextDraft(w, g)
      case Some(d) =>
        if w.issues[d].opensAt > scheduledAt then (w, true)
        else if w.issues[d].deadline > w.now + MIN_REMINDER_LEAD then OpenForCollecting(w, d, fault)
        else if fault.stop.ReanchorFails? then (w, false)
        else OpenForCollecting(Reanchor(w, d, fault.labelFails), d, fault)
      case None =>
        if fault.stop.CreateFails? then (w, false)
        else
          var masthead := LabelForOpening(w.issues, g, None, w.now, loop.zone, fault.labelFails);
          var created := InsertIssue(w, g, masthead, w.now, DefaultDeadline(w.now, loop.windowDays, loop.zone));
          OpenForCollecting(created, |w.issues|, fault)
  }

  /** Moves an overdue draft to a fresh answering window from now. */
  function Reanchor(w: World, d: nat, labelFails: bool): (r: World)
    requires Keyed(w) && d < |w.issues|
    ensures Follows(w, r) && r.loops == w.loops && |r.issues| == |w.issues|
  {
    var g := w.issues[d].group;
    var loop := w.loops[g];
    var masthead := LabelForOpening(w.issues, g, Some(d), w.now, loop.zone, labelFails);
    SetSchedule(w, d, masthead, w.now, DefaultDeadline(w.now, loop.windowDays, loop.zone))
  }

  lemma {:induction false} InsertEachKeeps(w: World, i: nat, specs: seq<EventSpec>, lost: set<EventKind>)
    requires Keyed(w) && i < |w.issues|
    ensures Keyed(InsertEach(w, i, specs, lost))
    ensures InsertEach(w, i, specs, lost) == w.(events := InsertEach(w, i, specs, lost).events)
    ensures w.events <= InsertEach(w, i, specs, lost).events
    decreases |specs|
  {
    if specs != [] {
      InsertEachKeeps(TryInsert(w, i, specs[0], specs[0].kind in lost), i, specs[1..], lost);
    }
  }

  lemma {:induction false} InsertAllKeeps(w: World, i: nat, specs: seq<EventSpec>)
    requires Keyed(w) && i < |w.issues|
    requires InsertAll(w, i, specs).Some?
    ensures Keyed(InsertAll(w, i, specs).value)
    ensures InsertAll(w, i, specs).value
         == w.(events := w.events + seq(|specs|, k requires 0 <= k < |specs| => NewEvent(i, specs[k])))
    ensures InsertAll(w, i, specs) == Some(InsertEach(w, i, specs, {}))
    decreases |specs|
  {
    if specs != [] {
      var w1 := InsertEvent(w, i, specs[0]).value;
      InsertAllKeeps(w1, i, specs[1..]);
      var rest := seq(|specs| - 1, k requires 0 <= k < |specs| - 1 => NewEvent(i, specs[1..][k]));
      assert seq(|specs|, k requires 0 <= k < |specs| => NewEvent(i, specs[k])) == [NewEvent(i, specs[0])] + rest;
    }
  }

  // ---- handleCreateIssue -------------------------------------------------

  /** `zone` is the offset the request's opens_at was written with. */
  datatype StartRequest = StartRequest(
    opensAt: Option<Instant>, deadline: Option<Instant>, month: int, year: int, questionCount: int, zone: int)

  /** Only a failing write, of the new round or of the whole early opening,
      ends the handler; it survives everything else that fails here. */
  datatype StartFault = StartFault(
    draftLookupFails: bool, labelFails: bool, writeFails: bool, statusFails: bool, lost: set<EventKind>)

  const NO_START_FAULT := StartFault(false, false, false, false, {})

  /** OpenDraftEarly: one transaction. */
  function OpenDraftEarly(
    w: World, g: nat, d: nat, masthead: Label, opensAt: Instant, deadline: Instant, specs: seq<EventSpec>)
    : (r: Option<World>)
    requires Keyed(w) && d < |w.issues|
    ensures r.Some? ==> Follows(w, r.value) && r.value.loops == w.loops && |w.issues| == |r.value.issues|
  {
    if !IsDraft(w.issues[d], g, None) then None
    else
      var started := SetStatus(SetSchedule(w, d, masthead, opensAt, deadline), d, Collecting);
      var consumed := DeletePendingOfGroup(started, g, true);
      match InsertAll(consumed, d, specs)
      case None => None
      case Some(w1) => InsertAllKeeps(consumed, d, specs); Some(NoteClose(w1, d))
  }

  datatype RequestedRound = RequestedRound(opensAt: Instant, deadline: Instant, month: int, year: int)

  /** What a request asks for, defaults filled in. */
  function Requested(w: World, g: nat, req: StartRequest): RequestedRound
    requires g < |w.loops|
  {
    var opensAt := if req.opensAt.Some? then req.opensAt.value else w.now;
    var openDay := LocalDay(opensAt, if req.opensAt.Some? then req.zone else 0);
    RequestedRound(
      opensAt,
      if req.deadline.Some? then req.deadline.value
      else DefaultDeadline(opensAt, w.loops[g].windowDays, w.loops[g].zone),
      if req.month == 0 then MonthOfYear(openDay) else req.month,
      if req.year == 0 then YearOf(openDay) else req.year)
  }

  /** "Create Issue": opens the upcoming draft early when there is one, and a
      fresh round otherwise. */
  function StartRound(w: World, g: nat, req: StartRequest, fault: StartFault): (r: (World, Response))
    requires Keyed(w) && g < |w.loops|
    ensures Follows(w, r.0) && r.0.loops == w.loops
  {
    hide DefaultDeadline, LabelForOpening, IssueEventSpecs, IssueLabel, Requested;
    var loop := w.loops[g];
    var asked := Requested(w, g, req);
    if asked.month < 1 || asked.month > 12 || asked.year < 2020 || req.questionCount < 0 || req.questionCount > 20
    then (w, Refused)
    else if asked.deadline <= asked.opensAt || HasActive(w, g) then (w, Refused)
    else
      var upcoming := if fault.draftLookupFails then None else UpcomingDraft(w, g);
      if fault.writeFails then (w, ServerError)
      else if upcoming.Some? then
        var d := upcoming.value;
        var newDeadline := DefaultDeadline(w.now, loop.windowDays, loop.zone);
        var masthead := LabelForOpening(w.issues, g, Some(d), w.now, loop.zone, fault.labelFails);
        match OpenDraftEarly(w, g, d, masthead, w.now, newDeadline, IssueEventSpecs(newDeadline, loop.zone, w.now))
        case None => (w, ServerError)
        case Some(w1) => (w1, Accepted)
      else
        var masthead := IssueLabel(w.issues, g, None, asked.month, asked.year, fault.labelFails);
        (StartFresh(w, g, masthead, asked.opensAt, asked.deadline, fault.statusFails, fault.lost), Accepted)
  }

  /** The fresh round's own writes. A lost status write leaves it a draft, with
      the events of a round under way; a lost close leaves it open-ended. */
  function StartFresh(
    w: World, g: nat, masthead: Label, opensAt: Instant, deadline: Instant, statusFails: bool, lost: set<EventKind>)
    : (r: World)
    requires Keyed(w) && g < |w.loops|
    ensures Follows(w, r) && r.loops == w.loops && |r.issues| == |w.issues| + 1
  {
    var i := |w.issues|;
    var created := InsertIssue(w, g, masthead, opensAt, deadline);
    var begun := if statusFails then NoteHalfStart(created, i) else SetStatus(created, i, Collecting);
    QueueEvents(begun, i, lost)
  }

  // ---- ApplySchedule -----------------------------------------------------

  datatype CurrentHalf = CurrentHalf(issue: nat, deadline: Instant, events: seq<EventSpec>)
  datatype NextHalf = NextHalf(open: Instant, close: Instant, month: int, year: int, windowDays: int)
  datatype ScheduleUpdate = ScheduleUpdate(group: nat, current: Option<CurrentHalf>, next: Option<NextHalf>)

  datatype ApplyError = ScheduleOverlap | NoSuchRow | Constraint | NoFreeLabel

  datatype Applied = Committed(world: World) | RolledBack(error: ApplyError)

  /** The overlap check inside the transaction. */
  predicate Overlaps(w: World, u: ScheduleUpdate)
    requires Keyed(w)
  {
    if u.current.Some? && u.next.Some? then u.next.value.open <= u.current.value.deadline
    else if u.current.Some? then
      var pinned := PendingNextRound(w, u.group);
      pinned.Some? && w.events[pinned.value].at <= u.current.value.deadline
    else if u.next.Some? then
      var collecting := CollectingRound(w.issues, u.group);
      collecting.Some? && u.next.value.open <= w.issues[collecting.value].deadline
    else false
  }

  function ApplyCurrent(w: World, g: nat, half: CurrentHalf): (r: Applied)
    requires Keyed(w)
    ensures r.Committed? ==> Follows(w, r.world) && r.world.loops == w.loops && |r.world.issues| == |w.issues|
  {
    if half.issue >= |w.issues| || !IsCollecting(w.issues[half.issue], g) then RolledBack(NoSuchRow)
    else
      var cleared := DeletePendingOfIssue(SetDeadline(w, half.issue, half.deadline), half.issue);
      match InsertAll(cleared, half.issue, half.events)
      case None => RolledBack(Constraint)
      case Some(w1) => InsertAllKeeps(cleared, half.issue, half.events); Committed(NoteClose(w1, half.issue))
  }

  function ApplyNext(w: World, g: nat, half: NextHalf): (r: Applied)
    requires Keyed(w)
    requires 1 <= half.month
    ensures r.Committed? ==> Follows(w, r.world)
  {
    if g >= |w.loops| then RolledBack(NoSuchRow)
    else
      var saved := w.(loops := w.loops[g := w.loops[g].(windowDays := half.windowDays)]);
      var cleared := DeletePendingOfGroup(saved, g, true);
      var draft := NextDraft(cleared, g);
      match NextAvailableLabel(cleared.issues, g, draft, half.month, half.year)
      case None => RolledBack(NoFreeLabel)
      case Some(masthead) =>
        var d := if draft.Some? then draft.value else |cleared.issues|;
        var pinned :=
          if draft.Some? then SetSchedule(cleared, d, masthead, half.open, half.close)
          else InsertIssue(cleared, g, masthead, half.open, half.close);
        match InsertEvent(pinned, d, EventSpec(CreateNextIssue, half.open))
        case None => RolledBack(Constraint)
        case Some(w1) => Committed(w1)
  }

  /** Moves a live round's deadline, pins the next round, or both, in one
      transaction. */
  function ApplySchedule(w: World, u: ScheduleUpdate): (r: Applied)
    requires Keyed(w)
    requires u.next.Some? ==> 1 <= u.next.value.month
    ensures r.Committed? ==> Follows(w, r.world)
  {
    if Overlaps(w, u) then RolledBack(ScheduleOverlap)
    else
      var half := if u.current.Some? then ApplyCurrent(w, u.group, u.current.value) else Committed(w);
      if half.RolledBack? || u.next.None? then half
      else ApplyNext(half.world, u.group, u.next.value)
  }

  // ---- handleExtendDeadline and handleUpdateIssue ------------------------

  /** pinnedRoundOverlappingDeadline. */
  predicate PinnedRoundOverlaps(w: World, g: nat, deadline: Instant)
    requires Keyed(w)
  {
    var pinned := PendingNextRound(w, g);
    pinned.Some? && w.events[pinned.value].at <= deadline
  }

  /** What a reschedule's own lookups report; without settings it reckons in
      UTC. */
  datatype RescheduleLookups = RescheduleLookups(recent: RecentReminder, settingsFail: bool)

  /** rescheduleIssueDeadline behind its pinned-round guard. */
  function RescheduleDeadline(w: World, i: nat, newDeadline: Instant, lookups: RescheduleLookups): (r: (World, Response))
    requires Keyed(w) && i < |w.issues|
    ensures Follows(w, r.0) && r.0.loops == w.loops && |w.issues| == |r.0.issues|
  {
    var issue := w.issues[i];
    if PinnedRoundOverlaps(w, issue.group, newDeadline) then (w, Refused)
    else
      match ApplySchedule(w, ScheduleUpdate(issue.group, Some(RescheduledHalf(w, i, newDeadline, lookups)), None))
      case Committed(w1) => (w1, Accepted)
      case RolledBack(error) => (w, if error.ScheduleOverlap? then Refused else ServerError)
  }

  function RescheduledHalf(w: World, i: nat, newDeadline: Instant, lookups: RescheduleLookups): CurrentHalf
    requires Keyed(w) && i < |w.issues|
  {
    var zone := if lookups.settingsFail then 0 else w.loops[w.issues[i].group].zone;
    CurrentHalf(i, newDeadline,
                RescheduledIssueEventSpecs(w.issues[i].deadline, newDeadline, zone, w.now, lookups.recent))
  }

  function ExtendDeadline(w: World, i: nat, newDeadline: Instant, lookups: RescheduleLookups): (r: (World, Response))
    requires Keyed(w) && i < |w.issues|
    ensures Follows(w, r.0) && r.0.loops == w.loops && |w.issues| == |r.0.issues|
  {
    var issue := w.issues[i];
    if !issue.status.Collecting? || newDeadline <= w.now || newDeadline <= issue.deadline then (w, Refused)
    else RescheduleDeadline(w, i, newDeadline, lookups)
  }

  function EditDeadline(w: World, i: nat, newDeadline: Instant, lookups: RescheduleLookups): (r: (World, Response))
    requires Keyed(w) && i < |w.issues|
    ensures Follows(w, r.0) && r.0.loops == w.loops && |w.issues| == |r.0.issues|
  {
    var issue := w.issues[i];
    if issue.status.Published? || newDeadline <= w.now || newDeadline <= issue.opensAt then (w, Refused)
    else if issue.status.Collecting? then RescheduleDeadline(w, i, newDeadline, lookups)
    else (SetDeadline(w, i, newDeadline), Accepted)
  }

  // ---- handleUpdateSchedule ----------------------------------------------

  const MAX_CLOSE_DAYS := 90
  const MAX_NEXT_OPEN_DAYS := 180

  /** Dates are local day numbers. */
  datatype ScheduleRequest = ScheduleRequest(
    currentIssue: nat, currentClose: Option<int>, nextOpen: Option<int>, nextClose: Option<int>)

  function LocalInstant(day: int, hour: int, zone: int): Instant { day * DAY + hour * HOUR - zone }

  /** The schedule editor. `active` is whichever active round the unordered
      query returned. */
  function UpdateSchedule(
    w: World, g: nat, req: ScheduleRequest, active: Option<nat>, recent: RecentReminder): (r: (World, Response))
    requires Keyed(w) && g < |w.loops|
    requires active.Some? ==> active.value < |w.issues| && IsActive(w.issues[active.value], g, w.now)
    ensures Follows(w, r.0)
    ensures !r.1.Accepted? ==> r.0 == w
  {
    var loop := w.loops[g];
    var today := LocalDay(w.now, loop.zone);
    var current := if active.Some? && w.issues[active.value].status.Collecting? then active else None;
    if req.currentClose.None? && req.nextOpen.None? && req.nextClose.None? then (w, Refused)
    else if req.nextOpen.Some? != req.nextClose.Some? then (w, Refused)
    else if req.currentClose.Some? && (current.None? || current != Some(req.currentIssue)) then (w, Refused)
    else if req.currentClose.Some? && !CloseDateFits(w, current.value, req.currentClose.value, req.nextOpen.None?)
        then (w, Refused)
    else if req.nextOpen.Some? && !loop.autoCreate then (w, Refused)
    else
      var currentDeadline :=
        if req.currentClose.Some? then Some(LocalInstant(req.currentClose.value, DEADLINE_LOCAL_HOUR, loop.zone))
        else if current.Some? then Some(w.issues[current.value].deadline)
        else None;
      if req.nextOpen.Some? && !NextDatesFit(loop, today, req.nextOpen.value, req.nextClose.value, currentDeadline)
          then (w, Refused)
      else
        var currentHalf :=
          if req.currentClose.Some? then
            Some(RescheduledHalf(w, current.value, currentDeadline.value, RescheduleLookups(recent, false)))
          else None;
        var nextHalf := if req.nextOpen.Some? then Some(PinnedHalf(loop, req.nextOpen.value, req.nextClose.value))
            else None;
        match ApplySchedule(w, ScheduleUpdate(g, currentHalf, nextHalf))
        case Committed(w1) => (w1, Accepted)
        case RolledBack(error) => (w, if error.ScheduleOverlap? then Refused else ServerError)
  }

  /** The bounds on a live round's new close date. */
  predicate CloseDateFits(w: World, i: nat, closeDay: int, alone: bool)
    requires Keyed(w) && i < |w.issues|
  {
    var issue := w.issues[i];
    var zone := w.loops[issue.group].zone;
    var today := LocalDay(w.now, zone);
    var newClose := LocalInstant(closeDay, DEADLINE_LOCAL_HOUR, zone);
    && today <= closeDay <= today + MAX_CLOSE_DAYS
    && w.now < newClose
    && issue.opensAt < newClose
    && (alone ==> !PinnedRoundOverlaps(w, issue.group, newClose))
  }

  /** The bounds on a pinned next round's dates. */
  predicate NextDatesFit(loop: Loop, today: int, openDay: int, closeDay: int, currentDeadline: Option<Instant>) {
    && today + 1 <= openDay <= today + MAX_NEXT_OPEN_DAYS
    && MIN_SUBMISSION_WINDOW_DAYS <= closeDay - openDay <= MAX_SUBMISSION_WINDOW_DAYS
    && (currentDeadline.Some? ==> LocalInstant(openDay, NEXT_OPEN_LOCAL_HOUR, loop.zone) > currentDeadline.value)
  }

  function PinnedHalf(loop: Loop, openDay: int, closeDay: int): (half: NextHalf)
    ensures 1 <= half.month
  {
    NextHalf(
      LocalInstant(openDay, NEXT_OPEN_LOCAL_HOUR, loop.zone),
      LocalInstant(closeDay, DEADLINE_LOCAL_HOUR, loop.zone),
      MonthOfYear(openDay), YearOf(openDay), closeDay - openDay)
  }

  // ---- ReconcileAutoCreate -----------------------------------------------

  /** Nothing collecting, nothing queued, and something to continue from. */
  predicate Stalled(w: World, g: nat)
    requires Keyed(w) && g < |w.loops|
  {
    var loop := w.loops[g];
    && loop.active && loop.setupComplete && loop.autoCreate
    && CollectingRound(w.issues, g).None?
    && PendingNextRound(w, g).None?
    && LatestPublished(w.issues, g).Some?
  }

  function ReconcileLoop(w: World, g: nat, fault: QueueFault): (r: World)
    requires Keyed(w) && g < |w.loops|
    ensures Follows(w, r) && r.loops == w.loops
  {
    if Stalled(w, g) then
      QueueNextIssueEvent(w, g, w.issues[LatestPublished(w.issues, g).value].opensAt, fault)
    else w
  }

  /** The sweep, from group `g` on; `faults[g]` is what goes wrong for a group. */
  function ReconcileFrom(w: World, g: nat, faults: seq<QueueFault>): (r: World)
    requires Keyed(w) && g <= |w.loops|
    ensures Follows(w, r) && r.loops == w.loops
    decreases |w.loops| - g
  {
    if g == |w.loops| then w
    else
      ReconcileFrom(ReconcileLoop(w, g, if g < |faults| then faults[g] else NO_QUEUE_FAULT), g + 1, faults)
  }

  function ReconcileAutoCreate(w: World, faults: seq<QueueFault>): (r: World)
    requires Keyed(w)
    ensures Follows(w, r) && r.loops == w.loops
  {
    ReconcileFrom(w, 0, faults)
  }

  // ---- fireEvent ---------------------------------------------------------

  /** What goes wrong while an event fires: reads that fail, a handler whose
      sends were cut short, a mark that is not written. */
  datatype FireFaults = FireFaults(
    confirmFails: bool, archiveReadFails: bool, revalidateFails: bool,
    sendFails: bool, publishWriteFails: bool, queue: QueueFault, open: OpenFault, markFails: bool)

  /** The handler an event's kind names, and whether it succeeded. */
  function HandleEvent(w: World, e: nat, f: FireFaults): (r: (World, bool))
    requires Keyed(w) && e < |w.events|
    ensures Follows(w, r.0) && r.0.loops == w.loops && |w.events| <= |r.0.events|
  {
    var ev := w.events[e];
    match ev.kind
    case Reminder1 => (w, w.issues[ev.issue].status.Collecting? && !f.sendFails)
    case Reminder2 => (w, w.issues[ev.issue].status.Collecting? && !f.sendFails)
    case AdminSummary => (w, !f.sendFails)
    case AutoClose =>
      EventsOnlyGrow(w, ev.issue, f);
      PublishRound(w, ev.issue, f.publishWriteFails, f.queue)
    case CreateNextIssue =>
      OpeningKeepsEvents(w, w.issues[ev.issue].group, ev.at, f.open);
      OpenNextIssue(w, w.issues[ev.issue].group, ev.at, f.open)
    case _ => (w, !f.sendFails)
  }

  lemma EventsOnlyGrow(w: World, i: nat, f: FireFaults)
    requires Keyed(w) && i < |w.issues|
    ensures |w.events| <= |PublishRound(w, i, f.publishWriteFails, f.queue).0.events|
  {
  }

  lemma OpeningAppends(w: World, i: nat, fault: OpenFault)
    requires Keyed(w) && i < |w.issues|
    ensures w.events <= OpenForCollecting(w, i, fault).0.events
  {
    hide IssueEventSpecs, InsertEach;
    InsertEachKeeps(SetStatus(w, i, Collecting), i,
                    IssueEventSpecs(w.issues[i].deadline, w.loops[w.issues[i].group].zone, w.now), fault.lost);
  }

  lemma OpeningKeepsEvents(w: World, g: nat, at: Instant, fault: OpenFault)
    requires Keyed(w) && g < |w.loops|
    ensures w.events <= OpenNextIssue(w, g, at, fault).0.events
  {
    hide DefaultDeadline, LabelForOpening, OpenForCollecting, EarliestDraft, CollectingRound;
    var loop := w.loops[g];
    match NextDraft(w, g)
    case Some(d) =>
      OpeningAppends(w, d, fault);
      OpeningAppends(Reanchor(w, d, fault.labelFails), d, fault);
    case None =>
      var created := InsertIssue(w, g, LabelForOpening(w.issues, g, None, w.now, loop.zone, fault.labelFails), w.now,
                                 DefaultDeadline(w.now, loop.windowDays, loop.zone));
      OpeningAppends(created, |w.issues|, fault);
  }

  /** An event read from an overdue list, however old the list: only rows whose
      time has come are ever listed. */
  function FireEvent(w: World, e: nat, f: FireFaults): (r: World)
    requires Keyed(w) && e < |w.events|
    requires w.events[e].at <= w.now
    ensures Follows(w, r) && r.loops == w.loops
  {
    var ev := w.events[e];
    var issue := w.issues[ev.issue];
    var decision := Decide(
      if f.confirmFails then Failed else Found(ev.state.Pending?), true,
      if f.archiveReadFails then Failed else Found(w.loops[issue.group].active),
      if f.revalidateFails then Failed else Found(Round(issue.status, issue.deadline)),
      ev.kind, ev.at, w.now);
    match decision
    case LeavePending => w
    case MarkOnly(reason) => if f.markFails then w else MarkFired(w, e, reason)
    case RunHandler =>
      var (w1, succeeded) := HandleEvent(w, e, f);
      if succeeded && !f.markFails then MarkFired(w1, e, Handled) else w1
  }
}
