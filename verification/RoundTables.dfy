/** The tables a round lives in, the queries the handlers run on them, and
    the single statements they change them with.

    A row's id is its index. Issues are never deleted. Events are, and keep
    their place as a tombstone, because AUTOINCREMENT never hands an id out
    again. */
module RoundTables {
  import opened Options
  import opened Calendar
  import opened RoundTiming
  import opened SchedulerPolicy

  /** A group's settings; `storedZone` is the offset that instants read back
      from the database carry. */
  datatype Loop = Loop(
    active: bool, setupComplete: bool, autoCreate: bool,
    windowDays: int, frequency: Frequency, zone: int, storedZone: int)

  /** The last three are history, and in no column: the round started without
      getting its close on file; its start lost the status write, and left it a
      draft with a started round's events; its label is a fallback, taken
      without knowing whether it is free. */
  datatype Issue = Issue(
    group: nat, month: int, year: int, status: Status, opensAt: Instant, deadline: Instant,
    noClose: bool, halfStarted: bool, blindLabel: bool)

  /** A fired row also records why it fired, and a deleted one whether it went
      because its loop was archived; the table itself keeps neither. */
  datatype EventState = Pending | Fired(reason: FiredReason) | Deleted | Cancelled

  datatype Event = Event(issue: nat, kind: EventKind, at: Instant, state: EventState)
  {
    /** Still a row of the table. */
    predicate Live() { state.Pending? || state.Fired? }
  }

  /** The store failures a run may see, of those that a handler logs and
      carries on from: a lost insert of a close, a lost status write, a failed
      label lookup. Fixed for the run. */
  datatype Outages = Outages(closes: bool, statuses: bool, labels: bool)

  datatype World = World(loops: seq<Loop>, issues: seq<Issue>, events: seq<Event>, now: Instant, outages: Outages)

  /** The foreign keys. */
  ghost predicate Keyed(w: World) {
    && (forall i :: 0 <= i < |w.issues| ==> w.issues[i].group < |w.loops|)
    && (forall e :: 0 <= e < |w.events| ==> w.events[e].issue < |w.issues|)
  }

  /** `r` is what a handler made of `w`: the same loops and clock, and no round
      gone. */
  ghost predicate Follows(w: World, r: World) {
    && Keyed(r) && r.now == w.now && r.outages == w.outages
    && |r.loops| == |w.loops| && |w.issues| <= |r.issues|
  }

  // ---- Queries -----------------------------------------------------------

  predicate IsDraft(issue: Issue, g: nat, openingAfter: Option<Instant>) {
    && issue.group == g
    && issue.status.Draft?
    && (openingAfter.Some? ==> issue.opensAt > openingAfter.value)
  }

  /** The earliest draft of a group, among those opening after an instant when
      one is given. */
  function EarliestDraft(issues: seq<Issue>, g: nat, openingAfter: Option<Instant>): (r: Option<nat>)
    ensures r.None? ==> forall i :: 0 <= i < |issues| ==> !IsDraft(issues[i], g, openingAfter)
    ensures r.Some? ==>
              && r.value < |issues|
              && IsDraft(issues[r.value], g, openingAfter)
              && (forall i :: 0 <= i < |issues| && IsDraft(issues[i], g, openingAfter)
                    ==> issues[r.value].opensAt <= issues[i].opensAt)
  {
    if issues == [] then None
    else
      var last := |issues| - 1;
      var best := EarliestDraft(issues[..last], g, openingAfter);
      if !IsDraft(issues[last], g, openingAfter) then best
      else if best.Some? && issues[best.value].opensAt <= issues[last].opensAt then best
      else Some(last)
  }

  function NextDraft(w: World, g: nat): Option<nat> { EarliestDraft(w.issues, g, None) }

  function UpcomingDraft(w: World, g: nat): Option<nat> { EarliestDraft(w.issues, g, Some(w.now)) }

  predicate IsCollecting(issue: Issue, g: nat) { issue.group == g && issue.status.Collecting? }

  /** A collecting round of a group, if there is one. */
  function CollectingRound(issues: seq<Issue>, g: nat): (r: Option<nat>)
    ensures r.None? ==> forall i :: 0 <= i < |issues| ==> !IsCollecting(issues[i], g)
    ensures r.Some? ==> r.value < |issues| && IsCollecting(issues[r.value], g)
  {
    if issues == [] then None
    else
      var last := |issues| - 1;
      var first := CollectingRound(issues[..last], g);
      if first.Some? then first
      else if IsCollecting(issues[last], g) then Some(last)
      else None
  }

  /** GetActiveIssue has no ORDER BY: with a collecting round and a draft past
      its opening both present, either may come back. */
  predicate IsActive(issue: Issue, g: nat, now: Instant) {
    && issue.group == g
    && (issue.status.Collecting? || (issue.status.Draft? && issue.opensAt <= now))
  }

  predicate HasActive(w: World, g: nat) {
    exists i :: 0 <= i < |w.issues| && IsActive(w.issues[i], g, w.now)
  }

  /** Whether an opening is queued: an unfired create_next_issue event whose
      round is still a draft. */
  predicate IsQueuedOpening(w: World, e: nat, g: nat)
    requires Keyed(w)
    requires e < |w.events|
  {
    var ev := w.events[e];
    && ev.state.Pending?
    && ev.kind.CreateNextIssue?
    && IsDraft(w.issues[ev.issue], g, None)
  }

  /** GetPendingNextRoundEvent: the earliest queued opening among the first
      `n` events. */
  function PendingNextRoundAmong(w: World, g: nat, n: nat): (r: Option<nat>)
    requires Keyed(w)
    requires n <= |w.events|
    ensures r.None? ==> forall e :: 0 <= e < n ==> !IsQueuedOpening(w, e, g)
    ensures r.Some? ==>
              && r.value < n
              && IsQueuedOpening(w, r.value, g)
              && (forall e :: 0 <= e < n && IsQueuedOpening(w, e, g) ==> w.events[r.value].at <= w.events[e].at)
  {
    if n == 0 then None
    else
      var best := PendingNextRoundAmong(w, g, n - 1);
      if !IsQueuedOpening(w, n - 1, g) then best
      else if best.Some? && w.events[best.value].at <= w.events[n - 1].at then best
      else Some(n - 1)
  }

  function PendingNextRound(w: World, g: nat): (r: Option<nat>)
    requires Keyed(w)
    ensures r.None? ==> forall e :: 0 <= e < |w.events| ==> !IsQueuedOpening(w, e, g)
    ensures r.Some? ==> r.value < |w.events| && IsQueuedOpening(w, r.value, g)
  {
    PendingNextRoundAmong(w, g, |w.events|)
  }

  predicate EarlierEdition(a: Issue, b: Issue) {
    a.year < b.year || (a.year == b.year && a.month <= b.month)
  }

  /** The head of the published archive: by year, then month, then id. */
  function LatestPublished(issues: seq<Issue>, g: nat): (r: Option<nat>)
    ensures r.None? <==> forall i :: 0 <= i < |issues| ==> !(issues[i].group == g && issues[i].status.Published?)
    ensures r.Some? ==>
              && r.value < |issues|
              && issues[r.value].group == g && issues[r.value].status.Published?
              && (forall i :: 0 <= i < |issues| && issues[i].group == g && issues[i].status.Published?
                    ==> EarlierEdition(issues[i], issues[r.value])
                        && (EarlierEdition(issues[r.value], issues[i]) ==> i <= r.value))
  {
    if issues == [] then None
    else
      var last := |issues| - 1;
      var best := LatestPublished(issues[..last], g);
      if !(issues[last].group == g && issues[last].status.Published?) then best
      else if best.Some? && !EarlierEdition(issues[best.value], issues[last]) then best
      else Some(last)
  }

  // ---- Archive labels ----------------------------------------------------

  /** How far NextAvailableIssueLabel looks. */
  const LABEL_WALK := 1200

  predicate LabelTaken(issues: seq<Issue>, g: nat, exclude: Option<nat>, month: int, year: int) {
    exists i :: 0 <= i < |issues| && Some(i) != exclude
                && issues[i].group == g && issues[i].month == month && issues[i].year == year
  }

  function LabelMonth(baseMonth: int, offset: nat): int
    requires 1 <= baseMonth
  {
    (baseMonth - 1 + offset) % 12 + 1
  }

  function LabelYear(baseMonth: int, baseYear: int, offset: nat): int
    requires 1 <= baseMonth
  {
    baseYear + (baseMonth - 1 + offset) / 12
  }

  /** The first free label at or after the base month. */
  function LabelWalk(
    issues: seq<Issue>, g: nat, exclude: Option<nat>, baseMonth: int, baseYear: int, offset: nat): (r: Option<nat>)
    requires 1 <= baseMonth
    requires offset <= LABEL_WALK
    ensures r.Some? ==>
              && offset <= r.value < LABEL_WALK
              && !LabelTaken(issues, g, exclude, LabelMonth(baseMonth, r.value), LabelYear(baseMonth, baseYear, r.value))
              && (forall k :: offset <= k < r.value ==>
                    LabelTaken(issues, g, exclude, LabelMonth(baseMonth, k), LabelYear(baseMonth, baseYear, k)))
    ensures r.None? ==> forall k :: offset <= k < LABEL_WALK ==>
              LabelTaken(issues, g, exclude, LabelMonth(baseMonth, k), LabelYear(baseMonth, baseYear, k))
    decreases LABEL_WALK - offset
  {
    if offset == LABEL_WALK then None
    else if LabelTaken(issues, g, exclude, LabelMonth(baseMonth, offset), LabelYear(baseMonth, baseYear, offset))
    then LabelWalk(issues, g, exclude, baseMonth, baseYear, offset + 1)
    else Some(offset)
  }

  /** A blind label is a fallback that may be taken. */
  datatype Label = Label(month: int, year: int, blind: bool)

  function NextAvailableLabel(
    issues: seq<Issue>, g: nat, exclude: Option<nat>, baseMonth: int, baseYear: int): Option<Label>
    requires 1 <= baseMonth
  {
    match LabelWalk(issues, g, exclude, baseMonth, baseYear, 0)
    case None => None
    case Some(k) => Some(Label(LabelMonth(baseMonth, k), LabelYear(baseMonth, baseYear, k), false))
  }

  /** issueLabel: a walk that fails, or finds nothing, falls back to the base
      month. */
  function IssueLabel(
    issues: seq<Issue>, g: nat, exclude: Option<nat>, baseMonth: int, baseYear: int, lookupFails: bool): Label
    requires 1 <= baseMonth
  {
    if lookupFails then Label(baseMonth, baseYear, true)
    else
      match NextAvailableLabel(issues, g, exclude, baseMonth, baseYear)
      case None => Label(baseMonth, baseYear, true)
      case Some(masthead) => masthead
  }

  /** The label for a round that opens at an instant. */
  function LabelForOpening(
    issues: seq<Issue>, g: nat, exclude: Option<nat>, open: Instant, zone: int, lookupFails: bool): Label
  {
    var day := LocalDay(open, zone);
    IssueLabel(issues, g, exclude, MonthOfYear(day), YearOf(day), lookupFails)
  }

  // ---- Statements --------------------------------------------------------

  function InsertIssue(w: World, g: nat, masthead: Label, opensAt: Instant, deadline: Instant): World
  {
    w.(issues := w.issues + [Issue(g, masthead.month, masthead.year, Draft, opensAt, deadline,
                                   false, false, masthead.blind)])
  }

  function SetStatus(w: World, i: nat, status: Status): World
    requires i < |w.issues|
  {
    w.(issues := w.issues[i := w.issues[i].(status := status)])
  }

  function SetDeadline(w: World, i: nat, deadline: Instant): World
    requires i < |w.issues|
  {
    w.(issues := w.issues[i := w.issues[i].(deadline := deadline)])
  }

  function SetSchedule(w: World, i: nat, masthead: Label, opensAt: Instant, deadline: Instant): World
    requires i < |w.issues|
  {
    w.(issues := w.issues[i := w.issues[i].(
      month := masthead.month, year := masthead.year, blindLabel := masthead.blind,
      opensAt := opensAt, deadline := deadline)])
  }

  /** UNIQUE(issue_id, event_type, scheduled_at), fired rows included. */
  predicate EventTaken(events: seq<Event>, i: nat, spec: EventSpec) {
    exists e :: 0 <= e < |events| && events[e].Live()
                && events[e].issue == i && events[e].kind == spec.kind && events[e].at == spec.at
  }

  function NewEvent(i: nat, spec: EventSpec): Event { Event(i, spec.kind, spec.at, Pending) }

  /** CreateSchedulerEvent; the constraint turns a duplicate down. */
  function InsertEvent(w: World, i: nat, spec: EventSpec): Option<World> {
    if EventTaken(w.events, i, spec) then None
    else Some(w.(events := w.events + [NewEvent(i, spec)]))
  }

  /** An insert whose failure is logged. */
  function TryInsert(w: World, i: nat, spec: EventSpec, fails: bool): World {
    var inserted := InsertEvent(w, i, spec);
    if fails || inserted.None? then w else inserted.value
  }

  /** scheduleIssueEvents: each insert stands or falls alone; those of the
      `lost` kinds fail. */
  function InsertEach(w: World, i: nat, specs: seq<EventSpec>, lost: set<EventKind>): World
    decreases |specs|
  {
    if specs == [] then w
    else InsertEach(TryInsert(w, i, specs[0], specs[0].kind in lost), i, specs[1..], lost)
  }

  function CloseSpec(issue: Issue): EventSpec { EventSpec(AutoClose, issue.deadline) }

  /** History: whether a round that has started has its close on file. */
  function NoteClose(w: World, i: nat): World
    requires i < |w.issues|
  {
    w.(issues := w.issues[i := w.issues[i].(noClose := !EventTaken(w.events, i, CloseSpec(w.issues[i])))])
  }

  /** History: a start whose status write failed. */
  function NoteHalfStart(w: World, i: nat): World
    requires i < |w.issues|
  {
    w.(issues := w.issues[i := w.issues[i].(halfStarted := true)])
  }

  /** The inserts of one transaction: all or nothing. */
  function InsertAll(w: World, i: nat, specs: seq<EventSpec>): Option<World>
    decreases |specs|
  {
    if specs == [] then Some(w)
    else
      match InsertEvent(w, i, specs[0])
      case None => None
      case Some(w1) => InsertAll(w1, i, specs[1..])
  }

  /** The events a group-wide delete is about: a group's open events, or, when
      the loop is archived, all of its events. */
  predicate InScope(w: World, e: nat, g: nat, onlyOpenings: bool)
    requires Keyed(w) && e < |w.events|
  {
    w.issues[w.events[e].issue].group == g && (onlyOpenings ==> w.events[e].kind.CreateNextIssue?)
  }

  /** Nothing in scope is left to fire, and nothing else is touched. */
  function DeletePendingOfGroup(w: World, g: nat, onlyOpenings: bool): (r: World)
    requires Keyed(w)
    ensures r == w.(events := r.events) && |r.events| == |w.events|
    ensures forall e :: 0 <= e < |w.events| && r.events[e].state.Pending? ==> !InScope(w, e, g, onlyOpenings)
    ensures forall e :: 0 <= e < |w.events| && r.events[e] != w.events[e] ==>
              && InScope(w, e, g, onlyOpenings) && w.events[e].state.Pending?
              && !r.events[e].Live() && SameRow(r.events[e], w.events[e])
  {
    w.(events := seq(|w.events|, e requires 0 <= e < |w.events| =>
      if InScope(w, e, g, onlyOpenings) && w.events[e].state.Pending?
      then w.events[e].(state := if onlyOpenings then Deleted else Cancelled)
      else w.events[e]))
  }

  /** Which event a row is, apart from what became of it. */
  predicate SameRow(a: Event, b: Event) { a.issue == b.issue && a.kind == b.kind && a.at == b.at }

  /** A round's events make way for new ones: none of them is left to fire, and
      no other row, nor any that has fired, is touched. What archiving took
      from the round counts as settled too. */
  function DeletePendingOfIssue(w: World, i: nat): (r: World)
    ensures r == w.(events := r.events) && |r.events| == |w.events|
    ensures forall e :: 0 <= e < |w.events| && w.events[e].issue == i ==>
              r.events[e].state.Fired? || r.events[e].state.Deleted?
    ensures forall e :: 0 <= e < |w.events| && r.events[e] != w.events[e] ==>
              && w.events[e].issue == i && !w.events[e].state.Fired?
              && !r.events[e].Live() && SameRow(r.events[e], w.events[e])
  {
    w.(events := seq(|w.events|, e requires 0 <= e < |w.events| =>
      if w.events[e].issue == i && !w.events[e].state.Fired? then w.events[e].(state := Deleted) else w.events[e]))
  }

  /** MarkEventFired; a row that is gone stays gone. */
  function MarkFired(w: World, e: nat, reason: FiredReason): World
    requires e < |w.events|
  {
    if w.events[e].state.Pending? then w.(events := w.events[e := w.events[e].(state := Fired(reason))]) else w
  }
}
