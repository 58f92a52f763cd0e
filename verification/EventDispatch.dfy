/** The scheduler's tick against a database whose readers may be stale: which
    handlers run, and which events are consumed. Overdue lists are arbitrary,
    every lookup may answer anything or fail, and other writers come before
    each write-side check, between it and the mark, and between ticks. Only
    that check is current. */
module EventDispatch {
  import opened Options
  import opened RoundTiming
  import opened SchedulerPolicy

  datatype StoredKind = Known(kind: EventKind) | Unknown

  datatype RowState = Unfired | FiredRow | Gone

  datatype Row = Row(issue: Option<nat>, kind: StoredKind, at: Instant, state: RowState)
  {
    /** A handler errors out on a kind it does not know, or a missing issue. */
    predicate Dispatchable() {
      && kind.Known?
      && (kind.kind.TokenCleanup? || kind.kind.SessionCleanup? || kind.kind.CommentDigest? || issue.Some?)
    }

    predicate SameEvent(other: Row) { issue == other.issue && kind == other.kind && at == other.at }
  }

  /** Another writer's statement: a new row, or a deletion. Only unfired rows
      of an issue are ever deleted; rows belonging to no issue come from
      EnsureDaily. */
  datatype Change = Insert(issue: nat, kind: EventKind, at: Instant) | Delete(event: nat)

  /** What one event's lookups, handler and mark come back with, and what
      others, and the handler, write before the write-side check and between it
      and the mark. */
  datatype Answers = Answers(
    before: seq<Change>, confirmFails: bool, loopActive: Lookup<bool>, round: Lookup<Round>,
    handlerOk: bool, changes: seq<Change>, markFails: bool)

  datatype Entry =
    | Ran(event: nat, ok: bool)
    | Marked(event: nat, reason: FiredReason, answers: Answers, now: Instant)

  /** The events table, and a record of what the scheduler did. */
  datatype Desk = Desk(rows: seq<Row>, journal: seq<Entry>)

  function Write(rows: seq<Row>, c: Change): seq<Row> {
    match c
    case Insert(issue, kind, at) => rows + [Row(Some(issue), Known(kind), at, Unfired)]
    case Delete(e) =>
      if e < |rows| && rows[e].issue.Some? && rows[e].state.Unfired? then rows[e := rows[e].(state := Gone)] else rows
  }

  function WriteAll(rows: seq<Row>, changes: seq<Change>): seq<Row> {
    if changes == [] then rows
    else Write(WriteAll(rows, changes[..|changes| - 1]), changes[|changes| - 1])
  }

  /** MarkEventFired fails for a row that is gone. */
  function Mark(d: Desk, e: nat, reason: FiredReason, a: Answers, now: Instant): Desk
    requires e < |d.rows|
  {
    if a.markFails || d.rows[e].state.Gone? then d
    else Desk(d.rows[e := d.rows[e].(state := FiredRow)], d.journal + [Marked(e, reason, a, now)])
  }

  function Verdict(row: Row, a: Answers, now: Instant): Decision {
    Decide(if a.confirmFails then Failed else Found(row.state.Unfired?), row.issue.Some?, a.loopActive, a.round,
           if row.kind.Known? then row.kind.kind else TokenCleanup, row.at, now)
  }

  /** fireEvent on an event id some reader handed over. */
  function FireOne(d: Desk, e: nat, a: Answers, now: Instant): Desk {
    if e >= |d.rows| then d
    else
      WriteAllKeeps(d.rows, a.before);
      Confirmed(d.(rows := WriteAll(d.rows, a.before)), e, a, now)
  }

  /** From the write-side check on. */
  function Confirmed(d: Desk, e: nat, a: Answers, now: Instant): Desk
    requires e < |d.rows|
  {
    WriteAllKeeps(d.rows, a.changes);
    var meanwhile := d.(rows := WriteAll(d.rows, a.changes));
    match Verdict(d.rows[e], a, now)
    case LeavePending => meanwhile
    case MarkOnly(reason) => Mark(meanwhile, e, reason, a, now)
    case RunHandler =>
      var ok := d.rows[e].Dispatchable() && a.handlerOk;
      var ran := meanwhile.(journal := d.journal + [Ran(e, ok)]);
      if ok then Mark(ran, e, Handled, a, now) else ran
  }

  /** Rows keep their identity, and a fired one stays fired. */
  ghost predicate Extends(before: seq<Row>, after: seq<Row>) {
    && |before| <= |after|
    && (forall e :: 0 <= e < |before| ==>
          after[e].SameEvent(before[e]) && (before[e].state.FiredRow? ==> after[e].state.FiredRow?))
  }

  lemma {:induction false} WriteAllKeeps(rows: seq<Row>, changes: seq<Change>)
    ensures Extends(rows, WriteAll(rows, changes))
    ensures forall e :: 0 <= e < |WriteAll(rows, changes)| && WriteAll(rows, changes)[e].state.FiredRow? ==>
              e < |rows| && rows[e].state.FiredRow?
  {
    if changes != [] {
      WriteAllKeeps(rows, changes[..|changes| - 1]);
    }
  }

  // ---- What the journal must look like -----------------------------------

  /** No handler runs, and no second mark lands, after an event's mark. */
  ghost predicate NothingAfterMark(journal: seq<Entry>) {
    forall i, j :: 0 <= i < j < |journal| && journal[i].Marked? ==> journal[j].event != journal[i].event
  }

  /** The three ways an event may be consumed, and the evidence each rests on. */
  ghost predicate Justified(rows: seq<Row>, journal: seq<Entry>, j: nat)
    requires j < |journal| && journal[j].Marked? && journal[j].event < |rows|
  {
    var row, entry := rows[journal[j].event], journal[j];
    match entry.reason
    case Handled => j > 0 && journal[j - 1] == Ran(entry.event, true)
    case ArchivedLoop => row.issue.Some? && entry.answers.loopActive == Found(false)
    case Skipped =>
      && row.kind.Known?
      && ShouldSkip(row.kind.kind, row.issue.Some?, entry.answers.round, row.at, entry.now)
      && (row.issue.Some? ==> entry.answers.round.Found?)
  }

  ghost predicate Sound(d: Desk) {
    && NothingAfterMark(d.journal)
    && (forall j :: 0 <= j < |d.journal| ==> d.journal[j].event < |d.rows|)
    && (forall j :: 0 <= j < |d.journal| && d.journal[j].Marked? ==>
          d.rows[d.journal[j].event].state.FiredRow? && Justified(d.rows, d.journal, j))
  }

  /** A fired row that was not fired at the start has its mark on record. */
  ghost predicate OnRecord(start: seq<Row>, d: Desk) {
    forall e :: 0 <= e < |d.rows| && d.rows[e].state.FiredRow? && !(e < |start| && start[e].state.FiredRow?) ==>
      exists j :: 0 <= j < |d.journal| && d.journal[j].Marked? && d.journal[j].event == e
  }

  lemma RowsMoveOn(d: Desk, rows: seq<Row>)
    requires Sound(d) && Extends(d.rows, rows)
    ensures Sound(d.(rows := rows))
  {
    forall j | 0 <= j < |d.journal| && d.journal[j].Marked? ensures Justified(rows, d.journal, j) {
      assert Justified(d.rows, d.journal, j);
    }
  }

  lemma MarkIsSound(d: Desk, e: nat, reason: FiredReason, a: Answers, now: Instant)
    requires Sound(d) && e < |d.rows| && !d.rows[e].state.FiredRow?
    requires Justified(d.rows, d.journal + [Marked(e, reason, a, now)], |d.journal|)
    ensures Sound(Mark(d, e, reason, a, now))
  {
    if !a.markFails && !d.rows[e].state.Gone? {
      var rows := d.rows[e := d.rows[e].(state := FiredRow)];
      RowsMoveOn(d, rows);
      var journal := d.journal + [Marked(e, reason, a, now)];
      forall j | 0 <= j < |d.journal| && d.journal[j].Marked? ensures Justified(rows, journal, j) {
        assert Justified(d.rows, d.journal, j);
      }
    }
  }

  lemma RunIsSound(d: Desk, e: nat, ok: bool)
    requires Sound(d) && e < |d.rows| && !d.rows[e].state.FiredRow?
    ensures Sound(d.(journal := d.journal + [Ran(e, ok)]))
  {
    var journal := d.journal + [Ran(e, ok)];
    forall j | 0 <= j < |d.journal| && d.journal[j].Marked? ensures Justified(d.rows, journal, j) {
      assert Justified(d.rows, d.journal, j);
    }
  }

  lemma FireOneIsSound(d: Desk, e: nat, a: Answers, now: Instant)
    requires Sound(d)
    ensures Sound(FireOne(d, e, a, now))
    ensures Extends(d.rows, FireOne(d, e, a, now).rows)
  {
    hide Sound, Confirmed;
    if e < |d.rows| {
      WriteAllKeeps(d.rows, a.before);
      RowsMoveOn(d, WriteAll(d.rows, a.before));
      ConfirmedIsSound(d.(rows := WriteAll(d.rows, a.before)), e, a, now);
    }
  }

  lemma ConfirmedIsSound(d: Desk, e: nat, a: Answers, now: Instant)
    requires Sound(d) && e < |d.rows|
    ensures Sound(Confirmed(d, e, a, now))
    ensures Extends(d.rows, Confirmed(d, e, a, now).rows)
  {
    hide Sound;
    WriteAllKeeps(d.rows, a.changes);
    var meanwhile := d.(rows := WriteAll(d.rows, a.changes));
    RowsMoveOn(d, meanwhile.rows);
    match Verdict(d.rows[e], a, now) {
      case LeavePending =>
      case MarkOnly(reason) => MarkIsSound(meanwhile, e, reason, a, now);
      case RunHandler =>
        var ok := d.rows[e].Dispatchable() && a.handlerOk;
        RunIsSound(meanwhile, e, ok);
        if ok {
          MarkIsSound(meanwhile.(journal := d.journal + [Ran(e, ok)]), e, Handled, a, now);
        }
    }
  }

  lemma FireOneOnRecord(start: seq<Row>, d: Desk, e: nat, a: Answers, now: Instant)
    requires OnRecord(start, d)
    ensures OnRecord(start, FireOne(d, e, a, now))
  {
    hide Verdict, Justified;
    var d1 := FireOne(d, e, a, now);
    if e < |d.rows| {
      WriteAllKeeps(d.rows, a.before);
      WriteAllKeeps(WriteAll(d.rows, a.before), a.changes);
    }
    forall k | 0 <= k < |d1.rows| && d1.rows[k].state.FiredRow? && !(k < |start| && start[k].state.FiredRow?)
      ensures exists j :: 0 <= j < |d1.journal| && d1.journal[j].Marked? && d1.journal[j].event == k
    {
      if k < |d.rows| && d.rows[k].state.FiredRow? {
        var j :| 0 <= j < |d.journal| && d.journal[j].Marked? && d.journal[j].event == k;
        assert d1.journal[j] == d.journal[j];
      } else {
        assert d1.journal[|d1.journal| - 1].event == k;
      }
    }
  }

  // ---- Daily events ------------------------------------------------------

  predicate IsDaily(row: Row, kind: EventKind, at: Instant) {
    !row.state.Gone? && row.issue.None? && row.kind == Known(kind) && row.at == at
  }

  predicate HasDaily(rows: seq<Row>, kind: EventKind, at: Instant) {
    exists e :: 0 <= e < |rows| && IsDaily(rows[e], kind, at)
  }

  /** EnsureDailyEvent: INSERT OR IGNORE on a partial unique index. */
  function EnsureDaily(rows: seq<Row>, kind: EventKind, at: Instant): seq<Row> {
    if HasDaily(rows, kind, at) then rows else rows + [Row(None, Known(kind), at, Unfired)]
  }

  function NextMidnight(now: Instant): Instant { (now / DAY + 1) * DAY }

  const DAILY := [TokenCleanup, SessionCleanup, CommentDigest]

  /** The inserts of the `lost` kinds fail, which is logged. */
  function EnsureDailies(rows: seq<Row>, kinds: seq<EventKind>, at: Instant, lost: set<EventKind>): seq<Row> {
    if kinds == [] then rows
    else
      var before := EnsureDailies(rows, kinds[..|kinds| - 1], at, lost);
      if kinds[|kinds| - 1] in lost then before else EnsureDaily(before, kinds[|kinds| - 1], at)
  }

  /** The index itself. */
  ghost predicate DailyUnique(rows: seq<Row>) {
    forall e, f | 0 <= e < f < |rows| && rows[e].issue.None? && rows[f].issue.None?
                  && !rows[e].state.Gone? && !rows[f].state.Gone? :: !rows[e].SameEvent(rows[f])
  }

  lemma EnsureDailyKeeps(rows: seq<Row>, kind: EventKind, at: Instant)
    requires DailyUnique(rows)
    ensures var after := EnsureDaily(rows, kind, at);
            DailyUnique(after) && rows <= after && HasDaily(after, kind, at)
  {
    var after := EnsureDaily(rows, kind, at);
    if !HasDaily(rows, kind, at) {
      assert IsDaily(after[|rows|], kind, at);
    }
  }

  lemma {:induction false} EnsureDailiesKeep(rows: seq<Row>, kinds: seq<EventKind>, at: Instant, lost: set<EventKind>)
    requires DailyUnique(rows)
    ensures var after := EnsureDailies(rows, kinds, at, lost);
            && DailyUnique(after) && rows <= after
            && (forall e :: |rows| <= e < |after| ==> !after[e].state.FiredRow?)
  {
    if kinds != [] {
      hide DailyUnique, HasDaily;
      EnsureDailiesKeep(rows, kinds[..|kinds| - 1], at, lost);
      EnsureDailyKeeps(EnsureDailies(rows, kinds[..|kinds| - 1], at, lost), kinds[|kinds| - 1], at);
    }
  }

  /** A daily row is on file afterwards exactly when it was before, or is for
      this midnight and its insert was not lost. */
  lemma {:induction false} EnsureDailiesAdd(
    rows: seq<Row>, kinds: seq<EventKind>, at: Instant, lost: set<EventKind>, kind: EventKind, when: Instant)
    ensures HasDaily(EnsureDailies(rows, kinds, at, lost), kind, when)
            <==> HasDaily(rows, kind, when) || (when == at && kind in kinds && kind !in lost)
  {
    if kinds != [] {
      var front, last := kinds[..|kinds| - 1], kinds[|kinds| - 1];
      assert kind in kinds <==> kind in front || kind == last;
      EnsureDailiesAdd(rows, front, at, lost, kind, when);
      EnsureDailyAdds(EnsureDailies(rows, front, at, lost), last, at, kind, when);
    }
  }

  lemma EnsureDailyAdds(rows: seq<Row>, kind: EventKind, at: Instant, other: EventKind, when: Instant)
    ensures HasDaily(EnsureDaily(rows, kind, at), other, when)
            <==> HasDaily(rows, other, when) || (other == kind && when == at)
  {
    var after := EnsureDaily(rows, kind, at);
    if e :| 0 <= e < |rows| && IsDaily(rows[e], other, when) {
      assert IsDaily(after[e], other, when);
    }
    if !HasDaily(rows, kind, at) {
      assert IsDaily(after[|rows|], kind, at);
    }
  }

  lemma {:induction false} WritingKeepsDailies(rows: seq<Row>, changes: seq<Change>, kind: EventKind, at: Instant)
    ensures HasDaily(WriteAll(rows, changes), kind, at) <==> HasDaily(rows, kind, at)
  {
    if changes != [] {
      var before := WriteAll(rows, changes[..|changes| - 1]);
      WritingKeepsDailies(rows, changes[..|changes| - 1], kind, at);
      hide WriteAll;
      SameDailies(before, Write(before, changes[|changes| - 1]), kind, at);
    }
  }

  /** Rows that belong to no issue come and go in no other way. */
  lemma SameDailies(rows: seq<Row>, after: seq<Row>, kind: EventKind, at: Instant)
    requires |rows| <= |after|
    requires forall e :: 0 <= e < |rows| ==> after[e].SameEvent(rows[e])
    requires forall e :: 0 <= e < |rows| && rows[e].issue.None? ==> after[e].state.Gone? == rows[e].state.Gone?
    requires forall e :: |rows| <= e < |after| ==> after[e].issue.Some?
    ensures HasDaily(after, kind, at) <==> HasDaily(rows, kind, at)
  {
    if e :| 0 <= e < |rows| && IsDaily(rows[e], kind, at) {
      assert IsDaily(after[e], kind, at);
    }
    if e :| 0 <= e < |after| && IsDaily(after[e], kind, at) {
      assert IsDaily(rows[e], kind, at);
    }
  }

  lemma FiringKeepsDailies(d: Desk, e: nat, a: Answers, now: Instant, kind: EventKind, at: Instant)
    ensures HasDaily(FireOne(d, e, a, now).rows, kind, at) <==> HasDaily(d.rows, kind, at)
  {
    if e < |d.rows| {
      var rows := WriteAll(WriteAll(d.rows, a.before), a.changes);
      WritingKeepsDailies(d.rows, a.before, kind, at);
      WritingKeepsDailies(WriteAll(d.rows, a.before), a.changes, kind, at);
      WriteAllKeeps(d.rows, a.before);
      WriteAllKeeps(WriteAll(d.rows, a.before), a.changes);
      hide WriteAll, Verdict, HasDaily;
      SameDailies(rows, FireOne(d, e, a, now).rows, kind, at);
    }
  }

  lemma {:induction false} PassKeepsDailies(
    d: Desk, overdue: seq<nat>, answers: seq<Answers>, now: Instant, kind: EventKind, at: Instant)
    requires |answers| == |overdue|
    ensures HasDaily(FireAll(d, overdue, answers, now).rows, kind, at) <==> HasDaily(d.rows, kind, at)
  {
    if overdue != [] {
      hide FireOne, HasDaily;
      var last := |overdue| - 1;
      PassKeepsDailies(d, overdue[..last], answers[..last], now, kind, at);
      FiringKeepsDailies(FireAll(d, overdue[..last], answers[..last], now), overdue[last], answers[last], now, kind, at);
    }
  }

  // ---- Runs --------------------------------------------------------------

  /** How a pass goes: its overdue query, which may fail; how many events it
      gets to before it is cancelled; and whether it is the one at startup. */
  datatype Pass = Pass(overdue: Option<seq<nat>>, answers: seq<Answers>, reach: nat, startup: bool, now: Instant)
  {
    predicate WellFormed() { overdue.Some? ==> |answers| == |overdue.value| }

    /** Cancellation is noticed before an event, not after the last. */
    predicate Whole() { overdue.Some? && |overdue.value| <= reach }

    predicate EndsWithDailies() { Whole() && !startup }
  }

  datatype Step =
    | Others(change: Change)
      /** One pass over an overdue list, and, if it comes to that, the daily
          events after it. */
    | Tick(pass: Pass, lost: set<EventKind>)
      /** Startup's own call for the daily events, after its repairs. */
    | Dailies(now: Instant, missing: set<EventKind>)

  function FireAll(d: Desk, overdue: seq<nat>, answers: seq<Answers>, now: Instant): Desk
    requires |answers| == |overdue|
  {
    if overdue == [] then d
    else
      var last := |overdue| - 1;
      FireOne(FireAll(d, overdue[..last], answers[..last], now), overdue[last], answers[last], now)
  }

  function FirePass(d: Desk, p: Pass): Desk
    requires p.WellFormed()
  {
    if p.overdue.None? then d
    else if p.Whole() then FireAll(d, p.overdue.value, p.answers, p.now)
    else FireAll(d, p.overdue.value[..p.reach], p.answers[..p.reach], p.now)
  }

  predicate WellFormed(step: Step) { step.Tick? ==> step.pass.WellFormed() }

  function Take(d: Desk, step: Step): Desk
    requires WellFormed(step)
  {
    match step
    case Others(change) => d.(rows := Write(d.rows, change))
    case Tick(p, lost) =>
      var fired := FirePass(d, p);
      if p.EndsWithDailies() then QueueDailies(fired, p.now, lost) else fired
    case Dailies(now, lost) => QueueDailies(d, now, lost)
  }

  function QueueDailies(d: Desk, now: Instant, lost: set<EventKind>): Desk {
    d.(rows := EnsureDailies(d.rows, DAILY, NextMidnight(now), lost))
  }

  /** A step that files a daily job for a midnight: a whole pass, other than
      the one at startup, or startup's own call, on the day before it. */
  predicate Files(step: Step, kind: EventKind, at: Instant) {
    && (kind.TokenCleanup? || kind.SessionCleanup? || kind.CommentDigest?)
    && at % 86400 == 0
    && match step
       case Others(_) => false
       case Tick(p, lost) =>
         && p.overdue.Some? && |p.overdue.value| <= p.reach && !p.startup
         && p.now < at <= p.now + 86400 && kind !in lost
       case Dailies(now, lost) => now < at <= now + 86400 && kind !in lost
  }

  lemma MidnightIs(now: Instant, at: Instant)
    ensures at == NextMidnight(now) <==> at % 86400 == 0 && now < at <= now + 86400
  {
  }

  function Run(d: Desk, steps: seq<Step>): Desk
    requires forall s :: s in steps ==> WellFormed(s)
  {
    if steps == [] then d
    else
      assert steps[|steps| - 1] in steps;
      Take(Run(d, steps[..|steps| - 1]), steps[|steps| - 1])
  }

  ghost predicate Good(start: seq<Row>, d: Desk) { Sound(d) && OnRecord(start, d) && DailyUnique(d.rows) }

  lemma {:induction false} WriteAllKeepsDaily(rows: seq<Row>, changes: seq<Change>)
    requires DailyUnique(rows)
    ensures DailyUnique(WriteAll(rows, changes))
  {
    if changes != [] {
      WriteAllKeepsDaily(rows, changes[..|changes| - 1]);
    }
  }

  lemma FireOneGood(start: seq<Row>, d: Desk, e: nat, a: Answers, now: Instant)
    requires Good(start, d)
    ensures Good(start, FireOne(d, e, a, now))
  {
    FireOneIsSound(d, e, a, now);
    FireOneOnRecord(start, d, e, a, now);
    hide Sound, OnRecord, Verdict;
    if e < |d.rows| {
      WriteAllKeepsDaily(d.rows, a.before);
      WriteAllKeeps(d.rows, a.before);
      WriteAllKeepsDaily(WriteAll(d.rows, a.before), a.changes);
      WriteAllKeeps(WriteAll(d.rows, a.before), a.changes);
    }
  }

  lemma {:induction false} FireAllGood(start: seq<Row>, d: Desk, overdue: seq<nat>, answers: seq<Answers>, now: Instant)
    requires |answers| == |overdue| && Good(start, d)
    ensures Good(start, FireAll(d, overdue, answers, now))
  {
    hide Good, FireOne;
    if overdue != [] {
      var last := |overdue| - 1;
      FireAllGood(start, d, overdue[..last], answers[..last], now);
      FireOneGood(start, FireAll(d, overdue[..last], answers[..last], now), overdue[last], answers[last], now);
    }
  }

  lemma PassGood(start: seq<Row>, d: Desk, p: Pass)
    requires p.WellFormed() && Good(start, d)
    ensures Good(start, FirePass(d, p))
  {
    hide Good, FireAll;
    if p.Whole() {
      FireAllGood(start, d, p.overdue.value, p.answers, p.now);
    } else if p.overdue.Some? {
      FireAllGood(start, d, p.overdue.value[..p.reach], p.answers[..p.reach], p.now);
    }
  }

  lemma DailiesGood(start: seq<Row>, d: Desk, now: Instant, lost: set<EventKind>)
    requires Good(start, d)
    ensures Good(start, QueueDailies(d, now, lost))
  {
    EnsureDailiesKeep(d.rows, DAILY, NextMidnight(now), lost);
    hide EnsureDailies, Justified, DailyUnique;
    RowsMoveOn(d, QueueDailies(d, now, lost).rows);
  }

  lemma {:induction false} RunGood(start: seq<Row>, d: Desk, steps: seq<Step>)
    requires forall s :: s in steps ==> WellFormed(s)
    requires Good(start, d)
    ensures Good(start, Run(d, steps))
  {
    if steps != [] {
      var step := steps[|steps| - 1];
      assert step in steps;
      var before := Run(d, steps[..|steps| - 1]);
      RunGood(start, d, steps[..|steps| - 1]);
      match step {
        case Others(change) =>
          WriteAllKeepsDaily(before.rows, [change]);
          WriteAllKeeps(before.rows, [change]);
          assert [change][..0] == [];
          assert WriteAll(before.rows, []) == before.rows;
        case Tick(p, lost) =>
          PassGood(start, before, p);
          DailiesGood(start, FirePass(before, p), p.now, lost);
        case Dailies(now, lost) => DailiesGood(start, before, now, lost);
      }
    }
  }

  /** From any table, through any ticks on lists however stale, with any
      answers, failures and concurrent writes: no handler runs after its
      event's mark is committed; a row turns fired only by a mark on record,
      after its handler succeeded, on a successful read of an archived loop, or
      by the skip policy; and daily events stay unique. */
  lemma {:induction false} NoHandlerAfterMark(rows: seq<Row>, steps: seq<Step>)
    requires DailyUnique(rows)
    requires forall s :: s in steps ==> WellFormed(s)
    ensures var d := Run(Desk(rows, []), steps);
            && NothingAfterMark(d.journal)
            && (forall e :: 0 <= e < |d.rows| && d.rows[e].state.FiredRow? && !(e < |rows| && rows[e].state.FiredRow?) ==>
                  exists j :: 0 <= j < |d.journal| && d.journal[j].Marked? && d.journal[j].event == e
                              && Justified(d.rows, d.journal, j))
            && DailyUnique(d.rows)
  {
    RunGood(rows, Desk(rows, []), steps);
    var d := Run(Desk(rows, []), steps);
    forall e | 0 <= e < |d.rows| && d.rows[e].state.FiredRow? && !(e < |rows| && rows[e].state.FiredRow?)
      ensures exists j :: 0 <= j < |d.journal| && d.journal[j].Marked? && d.journal[j].event == e
                && Justified(d.rows, d.journal, j)
    {
      var j :| 0 <= j < |d.journal| && d.journal[j].Marked? && d.journal[j].event == e;
      assert Justified(d.rows, d.journal, j);
    }
  }

  /** A mark that rests on failed lookups alone can only follow a handler that
      succeeded. */
  lemma FailedLookupsConsumeNothing(d: Desk, j: nat)
    requires Sound(d) && j < |d.journal| && d.journal[j].Marked?
    requires d.rows[d.journal[j].event].issue.Some?
    requires d.journal[j].answers.loopActive.Failed? && d.journal[j].answers.round.Failed?
    ensures j > 0 && d.journal[j - 1] == Ran(d.journal[j].event, true)
  {
    assert Justified(d.rows, d.journal, j);
  }

  lemma StepFilesDailies(d: Desk, step: Step, kind: EventKind, at: Instant)
    requires WellFormed(step)
    ensures HasDaily(Take(d, step).rows, kind, at) <==> HasDaily(d.rows, kind, at) || Files(step, kind, at)
  {
    hide HasDaily, FireAll, EnsureDailies, NextMidnight;
    MidnightIs(if step.Tick? then step.pass.now else if step.Dailies? then step.now else 0, at);
    match step {
      case Others(change) =>
        WritingKeepsDailies(d.rows, [change], kind, at);
        assert [change][..0] == [] && WriteAll(d.rows, []) == d.rows;
      case Tick(p, lost) =>
        if p.Whole() {
          PassKeepsDailies(d, p.overdue.value, p.answers, p.now, kind, at);
        } else if p.overdue.Some? {
          PassKeepsDailies(d, p.overdue.value[..p.reach], p.answers[..p.reach], p.now, kind, at);
        }
        EnsureDailiesAdd(FirePass(d, p).rows, DAILY, NextMidnight(p.now), lost, kind, at);
      case Dailies(now, lost) => EnsureDailiesAdd(d.rows, DAILY, NextMidnight(now), lost, kind, at);
    }
  }

  /** A daily job is on file for a midnight, through any ticks, restarts and
      concurrent writes, if and only if it was there at the start or some whole
      pass of the day before got its insert through; so one unfailing tick of
      that day makes up for all that failed. */
  lemma {:induction false} DailyOnFileIff(d: Desk, steps: seq<Step>, kind: EventKind, at: Instant)
    requires forall s :: s in steps ==> WellFormed(s)
    ensures HasDaily(Run(d, steps).rows, kind, at)
            <==> HasDaily(d.rows, kind, at) || exists s :: s in steps && Files(s, kind, at)
  {
    if steps != [] {
      var front, last := steps[..|steps| - 1], steps[|steps| - 1];
      assert last in steps;
      assert forall s :: s in steps <==> s in front || s == last;
      hide HasDaily, Take, Files;
      DailyOnFileIff(d, front, kind, at);
      StepFilesDailies(Run(d, front), last, kind, at);
    }
  }

  /** What a tick leaves for the coming midnight, which is never more than a
      day off: each daily job whose insert was not lost, unless the pass failed,
      was cut short or was the one at startup, and what was there before. */
  lemma TickQueuesDailies(d: Desk, p: Pass, lost: set<EventKind>)
    requires p.WellFormed()
    ensures var d1 := Take(d, Tick(p, lost));
            forall k :: k in [TokenCleanup, SessionCleanup, CommentDigest] ==>
              (HasDaily(d1.rows, k, NextMidnight(p.now))
               <==> HasDaily(d.rows, k, NextMidnight(p.now)) || (p.EndsWithDailies() && k !in lost))
    ensures p.now < NextMidnight(p.now) <= p.now + 86400 && NextMidnight(p.now) % 86400 == 0
  {
    MidnightIs(p.now, NextMidnight(p.now));
    hide HasDaily, Take, NextMidnight;
    forall k | k in [TokenCleanup, SessionCleanup, CommentDigest]
      ensures HasDaily(Take(d, Tick(p, lost)).rows, k, NextMidnight(p.now))
              <==> HasDaily(d.rows, k, NextMidnight(p.now)) || (p.EndsWithDailies() && k !in lost)
    {
      StepFilesDailies(d, Tick(p, lost), k, NextMidnight(p.now));
    }
  }

  /** What an unfired, confirmed event of a round comes to: its handler runs
      unless its loop is read as archived or its round as having overtaken it;
      and it is consumed if and only if one of those is so, or the handler
      succeeds, and the mark lands. */
  lemma HandledUnlessOvertaken(d: Desk, e: nat, a: Answers, now: Instant)
    requires e < |d.rows| && d.rows[e].state.Unfired? && d.rows[e].issue.Some? && d.rows[e].kind.Known?
    requires !a.confirmFails && Delete(e) !in a.before
    ensures var row := d.rows[e];
            var d1 := FireOne(d, e, a, now);
            var unwanted := a.loopActive == Found(false)
                            || (a.round.Found? && Overtaken(row.kind.kind, a.round.value, row.at, now));
            && e < |d1.rows| && d1.rows[e].SameEvent(row)
            && (unwanted ==> forall k :: |d.journal| <= k < |d1.journal| ==> d1.journal[k].Marked?)
            && (!unwanted ==> d.journal + [Ran(e, a.handlerOk)] <= d1.journal)
            && d1.rows[e].state == if Delete(e) in a.changes then Gone
                                   else if (unwanted || a.handlerOk) && !a.markFails then FiredRow else Unfired
  {
    DeletedIff(d.rows, a.before, e);
    DeletedIff(WriteAll(d.rows, a.before), a.changes, e);
    var row := d.rows[e];
    DecidedByKind(Found(true), true, a.loopActive, a.round, row.kind.kind, row.at, now);
    hide WriteAll, ShouldSkip, Overtaken, Decide;
  }

  /** So a summary of a collecting round, no more than 48 hours late, goes out. */
  lemma SummaryOnTimeRuns(d: Desk, e: nat, a: Answers, now: Instant)
    requires e < |d.rows| && d.rows[e].state.Unfired? && d.rows[e].issue.Some? && d.rows[e].kind == Known(AdminSummary)
    requires !a.confirmFails && Delete(e) !in a.before && a.loopActive == Found(true)
    requires a.round.Found? && a.round.value.status == Collecting && now - d.rows[e].at <= 48 * 3600
    ensures d.journal + [Ran(e, a.handlerOk)] <= FireOne(d, e, a, now).journal
  {
    HandledUnlessOvertaken(d, e, a, now);
  }

  /** An unfired event whose round cannot be read: the log says that it is left
      pending, but unless its loop is read as archived its handler runs, and it
      is consumed if and only if that succeeds and the mark lands. */
  lemma UnreadableRoundIsHandled(d: Desk, e: nat, a: Answers, now: Instant)
    requires e < |d.rows| && d.rows[e].state.Unfired? && d.rows[e].issue.Some?
    requires a.round.Failed? && !a.confirmFails && Delete(e) !in a.before
    ensures var d1 := FireOne(d, e, a, now);
            var archived := a.loopActive == Found(false);
            var ok := d.rows[e].Dispatchable() && a.handlerOk;
            && e < |d1.rows|
            && (!archived ==> d.journal + [Ran(e, ok)] <= d1.journal)
            && (d1.rows[e].state.FiredRow? <==> (archived || ok) && !a.markFails && Delete(e) !in a.changes)
  {
    DeletedIff(d.rows, a.before, e);
    DeletedIff(WriteAll(d.rows, a.before), a.changes, e);
    hide WriteAll;
  }

  /** An unfired, confirmed event of no round is handled if it is one of the
      daily jobs; a close or a summary more than 48 hours late is consumed
      unhandled; and every other one, of a kind that needs a round or that is
      not known, comes back as an error and stays for the next tick. */
  lemma WithoutARound(d: Desk, e: nat, a: Answers, now: Instant)
    requires e < |d.rows| && d.rows[e].state.Unfired? && d.rows[e].issue.None? && !a.confirmFails
    ensures var row := d.rows[e];
            var d1 := FireOne(d, e, a, now);
            var daily := row.kind in [Known(TokenCleanup), Known(SessionCleanup), Known(CommentDigest)];
            var late := row.kind in [Known(AutoClose), Known(AdminSummary)] && now - row.at > 48 * 3600;
            && e < |d1.rows|
            && (!late ==> d.journal + [Ran(e, daily && a.handlerOk)] <= d1.journal)
            && (late ==> forall k :: |d.journal| <= k < |d1.journal| ==> d1.journal[k].Marked?)
            && (d1.rows[e].state.FiredRow? <==> (late || (daily && a.handlerOk)) && !a.markFails)
  {
    LeftAlone(d.rows, a.before, e);
    LeftAlone(WriteAll(d.rows, a.before), a.changes, e);
    hide WriteAll;
  }

  /** Writing leaves alone a row of no round, and one that is not deleted. */
  lemma {:induction false} LeftAlone(rows: seq<Row>, changes: seq<Change>, e: nat)
    requires e < |rows| && (rows[e].issue.None? || Delete(e) !in changes)
    ensures var after := WriteAll(rows, changes);
            e < |after| && after[e] == rows[e]
  {
    if changes != [] {
      var front, last := changes[..|changes| - 1], changes[|changes| - 1];
      assert last in changes && forall c :: c in front ==> c in changes;
      LeftAlone(rows, front, e);
    }
  }

  /** What another writer's statement does. */
  lemma OthersWrite(d: Desk, c: Change)
    ensures var d1 := Take(d, Others(c));
            && d1.journal == d.journal
            && match c
               case Insert(issue, kind, at) =>
                 && |d1.rows| == |d.rows| + 1 && d.rows <= d1.rows
                 && d1.rows[|d.rows|] == Row(Some(issue), Known(kind), at, Unfired)
               case Delete(e) =>
                 && |d1.rows| == |d.rows|
                 && forall k :: 0 <= k < |d.rows| ==>
                      d1.rows[k].SameEvent(d.rows[k])
                      && d1.rows[k].state == if k == e && d.rows[k].issue.Some? && d.rows[k].state.Unfired? then Gone
                                             else d.rows[k].state
  {
  }

  // ---- A whole pass ------------------------------------------------------

  lemma AnotherEvent(d: Desk, f: nat, a: Answers, now: Instant, e: nat)
    requires e < |d.rows| && f != e && Delete(e) !in a.before && Delete(e) !in a.changes
    ensures var after := FireOne(d, f, a, now).rows;
            e < |after| && after[e] == d.rows[e]
  {
    hide WriteAll, Verdict;
    LeftAlone(d.rows, a.before, e);
    if f < |d.rows| {
      WriteAllKeeps(d.rows, a.before);
      LeftAlone(WriteAll(d.rows, a.before), a.changes, e);
      WriteAllKeeps(WriteAll(d.rows, a.before), a.changes);
    }
  }

  lemma {:induction false} OtherEvents(d: Desk, overdue: seq<nat>, answers: seq<Answers>, now: Instant, e: nat)
    requires |answers| == |overdue| && e < |d.rows| && e !in overdue
    requires forall a :: a in answers ==> Delete(e) !in a.before && Delete(e) !in a.changes
    ensures var after := FireAll(d, overdue, answers, now).rows;
            e < |after| && after[e] == d.rows[e]
  {
    if overdue != [] {
      hide FireOne;
      var last := |overdue| - 1;
      assert overdue[last] in overdue && answers[last] in answers;
      assert forall f :: f in overdue[..last] ==> f in overdue;
      assert forall a :: a in answers[..last] ==> a in answers;
      OtherEvents(d, overdue[..last], answers[..last], now, e);
      AnotherEvent(FireAll(d, overdue[..last], answers[..last], now), overdue[last], answers[last], now, e);
    }
  }

  /** An event listed once, with nothing failing for it and nobody deleting it:
      if the pass gets to it, it is consumed exactly when it has been overtaken
      or its handler succeeds; and if not, it is left as it was. */
  lemma {:induction false} PassReaches(d: Desk, overdue: seq<nat>, answers: seq<Answers>, now: Instant, k: nat)
    requires |answers| == |overdue| && k < |overdue|
    requires var e := overdue[k];
             && (forall i :: 0 <= i < |overdue| && overdue[i] == e ==> i == k)
             && (forall a :: a in answers ==> Delete(e) !in a.before && Delete(e) !in a.changes)
             && e < |d.rows| && d.rows[e].state.Unfired? && d.rows[e].issue.Some? && d.rows[e].kind.Known?
             && !answers[k].confirmFails && !answers[k].markFails
    ensures var e, a := overdue[k], answers[k];
            var unwanted := a.loopActive == Found(false)
                            || (a.round.Found? && Overtaken(d.rows[e].kind.kind, a.round.value, d.rows[e].at, now));
            var after := FireAll(d, overdue, answers, now).rows;
            && e < |after| && after[e].SameEvent(d.rows[e])
            && after[e].state == if unwanted || a.handlerOk then FiredRow else Unfired
  {
    var e, last := overdue[k], |overdue| - 1;
    assert answers[last] in answers && forall a :: a in answers[..last] ==> a in answers;
    var before := FireAll(d, overdue[..last], answers[..last], now);
    hide Overtaken, FireOne;
    if k == last {
      OtherEvents(d, overdue[..last], answers[..last], now, e);
      HandledUnlessOvertaken(before, e, answers[k], now);
    } else {
      PassReaches(d, overdue[..last], answers[..last], now, k);
      AnotherEvent(before, overdue[last], answers[last], now, e);
    }
  }

  /** The same, of a tick. */
  lemma TickReaches(d: Desk, p: Pass, lost: set<EventKind>, k: nat)
    requires p.WellFormed() && p.overdue.Some? && k < |p.overdue.value|
    requires var e := p.overdue.value[k];
             && (forall i :: 0 <= i < |p.overdue.value| && p.overdue.value[i] == e ==> i == k)
             && (forall a :: a in p.answers ==> Delete(e) !in a.before && Delete(e) !in a.changes)
             && e < |d.rows| && d.rows[e].state.Unfired? && d.rows[e].issue.Some? && d.rows[e].kind.Known?
             && !p.answers[k].confirmFails && !p.answers[k].markFails
    ensures var e, a := p.overdue.value[k], p.answers[k];
            var unwanted := a.loopActive == Found(false)
                            || (a.round.Found? && Overtaken(d.rows[e].kind.kind, a.round.value, d.rows[e].at, p.now));
            var after := Take(d, Tick(p, lost)).rows;
            && e < |after|
            && (after[e].state.FiredRow? <==> k < p.reach && (unwanted || a.handlerOk))
            && (k >= p.reach ==> after[e] == d.rows[e])
  {
    hide FireAll, Overtaken, EnsureDailies;
    var overdue, answers, e := p.overdue.value, p.answers, p.overdue.value[k];
    if p.Whole() {
      PassReaches(d, overdue, answers, p.now, k);
    } else {
      var reached, given := overdue[..p.reach], answers[..p.reach];
      assert forall a :: a in given ==> a in answers;
      if k < p.reach {
        PassReaches(d, reached, given, p.now, k);
      } else {
        OtherEvents(d, reached, given, p.now, e);
      }
    }
    DailiesOnlyAdd(FirePass(d, p).rows, DAILY, NextMidnight(p.now), lost);
  }

  lemma {:induction false} DailiesOnlyAdd(rows: seq<Row>, kinds: seq<EventKind>, at: Instant, lost: set<EventKind>)
    ensures rows <= EnsureDailies(rows, kinds, at, lost)
  {
    if kinds != [] {
      DailiesOnlyAdd(rows, kinds[..|kinds| - 1], at, lost);
    }
  }

  lemma {:induction false} DeletedIff(rows: seq<Row>, changes: seq<Change>, e: nat)
    requires e < |rows| && rows[e].state.Unfired? && rows[e].issue.Some?
    ensures var after := WriteAll(rows, changes);
            && e < |after| && after[e].SameEvent(rows[e])
            && after[e].state == if Delete(e) in changes then Gone else Unfired
  {
    if changes != [] {
      var front, last := changes[..|changes| - 1], changes[|changes| - 1];
      assert Delete(e) in changes <==> Delete(e) in front || last == Delete(e);
      DeletedIff(rows, front, e);
    }
  }

  lemma {:induction false} RunTwo(d: Desk, first: Step, second: Step)
    requires WellFormed(first) && WellFormed(second)
    ensures Run(d, [first, second]) == Take(Take(d, first), second)
  {
    hide Take;
    assert [first, second][..1] == [first] && [first][..0] == [];
    assert Run(d, [first]) == Take(Run(d, []), first);
  }

  // ---- The loops ---------------------------------------------------------

  class Scheduler {
    var rows: seq<Row>
    ghost var journal: seq<Entry>

    ghost function View(): Desk
      reads this
    {
      Desk(rows, journal)
    }

    method MarkEventFired(e: nat, ghost reason: FiredReason, fails: bool, ghost a: Answers, ghost now: Instant)
      requires e < |rows| && fails == a.markFails
      modifies this
      ensures View() == Mark(old(View()), e, reason, a, now)
    {
      if fails || rows[e].state.Gone? {
        return;
      }
      rows := rows[e := rows[e].(state := FiredRow)];
      journal := journal + [Marked(e, reason, a, now)];
    }

    method FireEvent(e: nat, a: Answers, now: Instant)
      modifies this
      ensures View() == FireOne(old(View()), e, a, now)
    {
      hide ShouldSkip, WriteAll;
      if e >= |rows| {
        return;
      }
      WriteAllKeeps(rows, a.before);
      rows := WriteAll(rows, a.before);
      var row := rows[e];
      WriteAllKeeps(rows, a.changes);
      rows := WriteAll(rows, a.changes);
      if a.confirmFails || !row.state.Unfired? {
        return;
      }
      if row.issue.Some? && a.loopActive == Found(false) {
        MarkEventFired(e, ArchivedLoop, a.markFails, a, now);
        return;
      }
      var kind := if row.kind.Known? then row.kind.kind else TokenCleanup;
      if ShouldSkip(kind, row.issue.Some?, a.round, row.at, now) {
        MarkEventFired(e, Skipped, a.markFails, a, now);
        return;
      }
      var ok := row.Dispatchable() && a.handlerOk;
      journal := journal + [Ran(e, ok)];
      if !ok {
        return;
      }
      MarkEventFired(e, Handled, a.markFails, a, now);
    }

    method FireOverdueEvents(p: Pass, lost: set<EventKind>)
      requires p.WellFormed()
      modifies this
      ensures View() == Take(old(View()), Tick(p, lost))
    {
      hide FireOne;
      if p.overdue.None? {
        return;
      }
      var overdue := p.overdue.value;
      assert overdue[..0] == [] && p.answers[..0] == [];
      for k := 0 to |overdue|
        invariant k <= p.reach
        invariant View() == FireAll(old(View()), overdue[..k], p.answers[..k], p.now)
      {
        if k == p.reach {
          return;
        }
        assert overdue[..k + 1][..k] == overdue[..k] && p.answers[..k + 1][..k] == p.answers[..k];
        FireEvent(overdue[k], p.answers[k], p.now);
      }
      assert overdue[..|overdue|] == overdue && p.answers[..|p.answers|] == p.answers;
      if !p.startup {
        ScheduleDailyCleanup(p.now, lost);
      }
    }

    method ScheduleDailyCleanup(now: Instant, lost: set<EventKind>)
      modifies `rows
      ensures View() == Take(old(View()), Dailies(now, lost))
    {
      for k := 0 to |DAILY|
        invariant rows == EnsureDailies(old(rows), DAILY[..k], NextMidnight(now), lost)
      {
        assert DAILY[..k + 1][..k] == DAILY[..k];
        if DAILY[k] !in lost && !HasDaily(rows, DAILY[k], NextMidnight(now)) {
          rows := rows + [Row(None, Known(DAILY[k]), NextMidnight(now), Unfired)];
        }
      }
      assert DAILY[..|DAILY|] == DAILY;
    }

    /** A server's start: the overdue events, and then the daily ones, however
        the pass over the others ended. */
    method Start(p: Pass, later: Instant, lost: set<EventKind>)
      requires p.WellFormed() && p.startup
      modifies this
      ensures View() == Run(old(View()), [Tick(p, {}), Dailies(later, lost)])
    {
      hide Take, Run;
      RunTwo(View(), Tick(p, {}), Dailies(later, lost));
      FireOverdueEvents(p, {});
      ScheduleDailyCleanup(later, lost);
    }
  }
}
