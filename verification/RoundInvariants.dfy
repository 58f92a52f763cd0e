/** What every handler keeps, whatever the order they run in. */
module RoundInvariants {
  import opened Options
  import opened RoundTiming
  import opened SchedulerPolicy
  import opened RoundTables
  import opened RoundHandlers

  /** A group has at most one draft and at most one collecting round. */
  ghost predicate OneOfEach(issues: seq<Issue>) {
    forall i, j :: 0 <= i < j < |issues| && issues[i].group == issues[j].group ==>
      && !(issues[i].status.Draft? && issues[j].status.Draft?)
      && !(issues[i].status.Collecting? && issues[j].status.Collecting?)
  }

  ghost predicate IsOpening(ev: Event) { ev.state.Pending? && ev.kind.CreateNextIssue? }

  /** A group has at most one unfired open event, stale ones included. */
  ghost predicate OneOpening(w: World)
    requires Keyed(w)
  {
    forall e, f :: 0 <= e < f < |w.events| && IsOpening(w.events[e]) && IsOpening(w.events[f]) ==>
      w.issues[w.events[e].issue].group != w.issues[w.events[f].issue].group
  }

  /** An open event never waits past its draft's own opening time. */
  ghost predicate OpeningsDue(w: World)
    requires Keyed(w)
  {
    forall e :: 0 <= e < |w.events| && IsOpening(w.events[e]) && w.issues[w.events[e].issue].status.Draft? ==>
      w.events[e].at <= w.issues[w.events[e].issue].opensAt
  }

  /** A collecting round closes strictly before its queued successor opens. */
  ghost predicate NoOverlap(w: World, but: Option<nat>)
    requires Keyed(w)
  {
    forall i, e | 0 <= i < |w.issues| && 0 <= e < |w.events| ::
      (&& w.issues[i].status.Collecting?
       && Some(w.issues[i].group) != but
       && IsOpening(w.events[e])
       && IsDraft(w.issues[w.events[e].issue], w.issues[i].group, None))
      ==> w.issues[i].deadline < w.events[e].at
  }

  ghost predicate FiredPast(events: seq<Event>, now: Instant) {
    forall e :: 0 <= e < |events| && events[e].state.Fired? ==> events[e].at <= now
  }

  /** The table's UNIQUE constraint. */
  ghost predicate SlotsUnique(events: seq<Event>) {
    forall e, f :: 0 <= e < f < |events| && events[e].Live() && events[f].Live() ==>
      !SameRow(events[e], events[f])
  }

  ghost predicate IsClose(ev: Event, i: nat) { ev.issue == i && ev.kind.AutoClose? && ev.Live() }

  ghost predicate IsPendingClose(ev: Event, i: nat) { ev.issue == i && ev.kind.AutoClose? && ev.state.Pending? }

  /** Nothing collects in the group of a draft that is a half start. */
  ghost predicate HalfStartsAlone(issues: seq<Issue>) {
    forall i, j | 0 <= i < |issues| && 0 <= j < |issues| ::
      issues[i].status.Draft? && issues[i].halfStarted ==> !IsCollecting(issues[j], issues[i].group)
  }

  /** Only a start that lost its status write leaves a close on a draft. */
  ghost predicate NoCloseOnDraft(w: World)
    requires Keyed(w)
  {
    && (forall e :: 0 <= e < |w.events| && w.events[e].kind.AutoClose? && w.events[e].Live() ==>
          !w.issues[w.events[e].issue].status.Draft? || w.issues[w.events[e].issue].halfStarted)
    && (forall i :: 0 <= i < |w.issues| && w.issues[i].halfStarted ==> w.outages.statuses)
  }

  /** The close of a collecting round at its present deadline: still queued,
      skipped past the lateness ceiling, or taken by archiving the loop. */
  ghost predicate ClosesAt(ev: Event, i: nat, deadline: Instant, now: Instant) {
    && ev.issue == i
    && ev.kind.AutoClose?
    && ev.at == deadline
    && !ev.state.Deleted?
    && ev.state != Fired(Handled)
    && (ev.state == Fired(Skipped) ==> now - ev.at > STALE_EVENT_CEILING)
  }

  ghost predicate HasClose(w: World, i: nat)
    requires i < |w.issues|
  {
    exists e :: 0 <= e < |w.events| && ClosesAt(w.events[e], i, w.issues[i].deadline, w.now)
  }

  /** A round and a loop that a handler is in the middle of moving. */
  datatype Except = Except(issue: Option<nat>, loop: Option<nat>)

  const NOTHING := Except(None, None)

  /** A round whose close was lost has none, and lost it in a run that may. */
  ghost predicate LostClose(w: World, i: nat)
    requires i < |w.issues|
  {
    w.outages.closes && !EventTaken(w.events, i, CloseSpec(w.issues[i]))
  }

  /** Every collecting round has its close or has lost it, as its mark says;
      the one in `but` excepted. */
  ghost predicate Closing(w: World, but: Option<nat>) {
    forall i :: 0 <= i < |w.issues| && w.issues[i].status.Collecting? && Some(i) != but ==>
      if w.issues[i].noClose then LostClose(w, i) else HasClose(w, i)
  }

  /** Nothing is queued to close a round at any other time. */
  ghost predicate ClosesOnlyAt(events: seq<Event>, i: nat, deadline: Instant) {
    forall e :: 0 <= e < |events| && IsPendingClose(events[e], i) ==> events[e].at == deadline
  }

  /** No collecting round waits for a close at any time but its present
      deadline, the one in `but` and those that began as half starts
      excepted. */
  ghost predicate OwnCloses(w: World, but: Option<nat>) {
    forall i :: 0 <= i < |w.issues| && w.issues[i].status.Collecting? && Some(i) != but && !w.issues[i].halfStarted ==>
      ClosesOnlyAt(w.events, i, w.issues[i].deadline)
  }

  ghost predicate InvBut(w: World, but: Except) {
    && Keyed(w)
    && OneOfEach(w.issues)
    && HalfStartsAlone(w.issues)
    && OneOpening(w)
    && OpeningsDue(w)
    && NoOverlap(w, but.loop)
    && FiredPast(w.events, w.now)
    && SlotsUnique(w.events)
    && NoCloseOnDraft(w)
    && Closing(w, but.issue)
    && OwnCloses(w, but.issue)
  }

  ghost predicate Inv(w: World) { InvBut(w, NOTHING) }

  lemma InvKeyed(w: World)
    requires Inv(w)
    ensures Keyed(w)
  {
  }

  lemma FactsOfInv(w: World, but: Except)
    requires InvBut(w, but)
    ensures Keyed(w) && SlotsUnique(w.events) && FiredPast(w.events, w.now)
  {
  }

  ghost predicate NoOpening(w: World, g: nat)
    requires Keyed(w)
  {
    forall e :: 0 <= e < |w.events| && IsOpening(w.events[e]) ==> w.issues[w.events[e].issue].group != g
  }

  ghost predicate SameStatuses(a: seq<Issue>, b: seq<Issue>) {
    && |a| == |b|
    && (forall i :: 0 <= i < |a| ==>
          a[i].group == b[i].group && a[i].status == b[i].status && a[i].halfStarted == b[i].halfStarted)
  }

  lemma StatusTransfer(a: seq<Issue>, b: seq<Issue>)
    requires SameStatuses(a, b)
    ensures OneOfEach(a) ==> OneOfEach(b)
    ensures HalfStartsAlone(a) ==> HalfStartsAlone(b)
  {
  }

  // ---- Statements --------------------------------------------------------

  lemma SlotsUniqueInsert(events: seq<Event>, i: nat, spec: EventSpec)
    requires SlotsUnique(events) && !EventTaken(events, i, spec)
    ensures SlotsUnique(events + [NewEvent(i, spec)])
  {
  }

  lemma SlotsUniqueDrop(events: seq<Event>, dropped: seq<Event>)
    requires SlotsUnique(events) && |dropped| == |events|
    requires forall e :: 0 <= e < |events| ==> dropped[e] == events[e] || !dropped[e].Live()
    ensures SlotsUnique(dropped)
  {
  }

  ghost predicate OtherClose(ev: Event, but: Option<nat>) { ev.kind.AutoClose? && Some(ev.issue) != but }

  /** The worlds have the same closes, but for the round in `but`. */
  ghost predicate SameCloses(w: World, w1: World, but: Option<nat>) {
    && |w.events| <= |w1.events| && w1.outages == w.outages
    && (forall e :: 0 <= e < |w.events| && (OtherClose(w.events[e], but) || OtherClose(w1.events[e], but)) ==>
          w1.events[e] == w.events[e])
    && (forall e :: |w.events| <= e < |w1.events| ==> !OtherClose(w1.events[e], but))
  }

  lemma ClosingTransfer(w: World, w1: World, but: Option<nat>)
    requires Closing(w, but) && OwnCloses(w, but) && w.now <= w1.now
    requires |w1.issues| == |w.issues|
    requires forall i :: 0 <= i < |w.issues| && w1.issues[i].status.Collecting? && Some(i) != but ==>
               && w.issues[i].status.Collecting? && w.issues[i].deadline == w1.issues[i].deadline
               && w.issues[i].noClose == w1.issues[i].noClose && w.issues[i].halfStarted == w1.issues[i].halfStarted
    requires SameCloses(w, w1, but)
    ensures Closing(w1, but) && OwnCloses(w1, but)
  {
    forall i | 0 <= i < |w1.issues| && w1.issues[i].status.Collecting? && Some(i) != but
      ensures if w1.issues[i].noClose then LostClose(w1, i) else HasClose(w1, i)
    {
      CloseTransfer(w, w1, but, i);
    }
  }

  lemma CloseTransfer(w: World, w1: World, but: Option<nat>, i: nat)
    requires SameCloses(w, w1, but) && w.now <= w1.now && Some(i) != but
    requires i < |w.issues| && i < |w1.issues| && w1.issues[i].deadline == w.issues[i].deadline
    ensures HasClose(w, i) ==> HasClose(w1, i)
    ensures LostClose(w, i) ==> LostClose(w1, i)
    ensures ClosesOnlyAt(w.events, i, w.issues[i].deadline) ==> ClosesOnlyAt(w1.events, i, w1.issues[i].deadline)
  {
    if HasClose(w, i) {
      var e :| 0 <= e < |w.events| && ClosesAt(w.events[e], i, w.issues[i].deadline, w.now);
      assert ClosesAt(w1.events[e], i, w1.issues[i].deadline, w1.now);
    }
  }

  lemma ClearingKeeps(w: World, g: nat, but: Except)
    requires InvBut(w, but)
    ensures InvBut(DeletePendingOfGroup(w, g, true), if but.loop == Some(g) then but.(loop := None) else but)
    ensures NoOpening(DeletePendingOfGroup(w, g, true), g)
  {
    hide OneOfEach, HalfStartsAlone;
    SlotsUniqueDrop(w.events, DeletePendingOfGroup(w, g, true).events);
    hide SlotsUnique;
    ClosingTransfer(w, DeletePendingOfGroup(w, g, true), but.issue);
  }

  lemma ClearingIssueKeeps(w: World, i: nat, but: Except)
    requires InvBut(w, but) && but.issue == Some(i)
    ensures InvBut(DeletePendingOfIssue(w, i), but)
  {
    hide OneOfEach, HalfStartsAlone;
    SlotsUniqueDrop(w.events, DeletePendingOfIssue(w, i).events);
    hide SlotsUnique;
    ClosingTransfer(w, DeletePendingOfIssue(w, i), Some(i));
  }

  lemma InsertOpeningKeeps(w: World, d: nat, at: Instant, but: Except)
    requires InvBut(w, but)
    requires d < |w.issues| && w.issues[d].status.Draft? && at <= w.issues[d].opensAt
    requires NoOpening(w, w.issues[d].group)
    requires forall i :: 0 <= i < |w.issues| && IsCollecting(w.issues[i], w.issues[d].group) ==> w.issues[i].deadline < at
    requires InsertEvent(w, d, EventSpec(CreateNextIssue, at)).Some?
    ensures InvBut(InsertEvent(w, d, EventSpec(CreateNextIssue, at)).value, but)
  {
    SlotsUniqueInsert(w.events, d, EventSpec(CreateNextIssue, at));
    hide OneOfEach, HalfStartsAlone, SlotsUnique;
    ClosingTransfer(w, InsertEvent(w, d, EventSpec(CreateNextIssue, at)).value, but.issue);
  }

  lemma InsertPlainKeeps(w: World, i: nat, spec: EventSpec, but: Except)
    requires InvBut(w, but)
    requires but.issue == Some(i)
    requires i < |w.issues| && (w.issues[i].status.Draft? ==> w.issues[i].halfStarted) && !spec.kind.CreateNextIssue?
    requires InsertEvent(w, i, spec).Some?
    ensures InvBut(InsertEvent(w, i, spec).value, but)
  {
    SlotsUniqueInsert(w.events, i, spec);
    hide OneOfEach, HalfStartsAlone, SlotsUnique;
    ClosingTransfer(w, InsertEvent(w, i, spec).value, but.issue);
  }

  lemma {:induction false} InsertEachKeepsInv(w: World, i: nat, specs: seq<EventSpec>, lost: set<EventKind>, but: Except)
    requires InvBut(w, but) && but.issue == Some(i)
    requires i < |w.issues| && (w.issues[i].status.Draft? ==> w.issues[i].halfStarted)
    requires forall s :: s in specs ==> !s.kind.CreateNextIssue?
    ensures InvBut(InsertEach(w, i, specs, lost), but)
    decreases |specs|
  {
    if specs != [] {
      hide InvBut;
      var w1 := TryInsert(w, i, specs[0], specs[0].kind in lost);
      if w1 != w {
        InsertPlainKeeps(w, i, specs[0], but);
      }
      InsertEachKeepsInv(w1, i, specs[1..], lost, but);
    }
  }

  /** After the inserts every wanted slot that was not lost is on file: pending,
      or there before. */
  lemma {:induction false} InsertEachCovers(w: World, i: nat, specs: seq<EventSpec>, lost: set<EventKind>, k: nat)
    returns (e: nat)
    requires Keyed(w) && i < |w.issues| && k < |specs| && specs[k].kind !in lost
    ensures var events := InsertEach(w, i, specs, lost).events;
            && e < |events|
            && events[e].Live()
            && events[e].issue == i && events[e].kind == specs[k].kind && events[e].at == specs[k].at
            && (events[e].state.Pending? || (e < |w.events| && events[e] == w.events[e]))
    decreases |specs|
  {
    var w1 := TryInsert(w, i, specs[0], specs[0].kind in lost);
    InsertEachKeeps(w1, i, specs[1..], lost);
    if k > 0 {
      e := InsertEachCovers(w1, i, specs[1..], lost, k - 1);
    } else if EventTaken(w.events, i, specs[0]) {
      e :| 0 <= e < |w.events| && w.events[e].Live()
           && w.events[e].issue == i && w.events[e].kind == specs[0].kind && w.events[e].at == specs[0].at;
    } else {
      e := |w.events|;
      assert w1.events[e] == NewEvent(i, specs[0]);
    }
  }

  /** And nothing but the wanted ones that were not lost is added. */
  lemma {:induction false} InsertEachAdds(w: World, i: nat, specs: seq<EventSpec>, lost: set<EventKind>, e: nat)
    requires Keyed(w) && i < |w.issues|
    requires |w.events| <= e < |InsertEach(w, i, specs, lost).events|
    ensures exists k :: 0 <= k < |specs| && specs[k].kind !in lost
                        && InsertEach(w, i, specs, lost).events[e] == NewEvent(i, specs[k])
    decreases |specs|
  {
    var w1 := TryInsert(w, i, specs[0], specs[0].kind in lost);
    InsertEachKeeps(w1, i, specs[1..], lost);
    if w1 != w && e == |w.events| {
      assert w1.events[e] == NewEvent(i, specs[0]);
    } else {
      InsertEachAdds(w1, i, specs[1..], lost, e);
      var k :| 0 <= k < |specs| - 1 && specs[1..][k].kind !in lost
               && InsertEach(w1, i, specs[1..], lost).events[e] == NewEvent(i, specs[1..][k]);
      assert specs[1..][k] == specs[k + 1];
    }
  }

  /** A started round is as its note says: its close is on file and still to
      come, or it was lost in a run that may lose it. */
  lemma NotedKeeps(w: World, i: nat, but: Except)
    requires InvBut(w, but) && but.issue == Some(i) && i < |w.issues|
    requires EventTaken(w.events, i, CloseSpec(w.issues[i])) || w.outages.closes || w.issues[i].status.Draft?
    requires forall e :: 0 <= e < |w.events| && IsClose(w.events[e], i) && w.events[e].at == w.issues[i].deadline ==>
               w.events[e].state.Pending?
    requires w.issues[i].halfStarted || ClosesOnlyAt(w.events, i, w.issues[i].deadline)
    ensures InvBut(NoteClose(w, i), but.(issue := None))
  {
    StatusTransfer(w.issues, NoteClose(w, i).issues);
    hide OneOfEach, HalfStartsAlone, SlotsUnique, FiredPast;
    NotedCloses(w, i);
    hide Closing, OwnCloses;
  }

  lemma NotedCloses(w: World, i: nat)
    requires Closing(w, Some(i)) && OwnCloses(w, Some(i)) && i < |w.issues|
    requires EventTaken(w.events, i, CloseSpec(w.issues[i])) || w.outages.closes || w.issues[i].status.Draft?
    requires forall e :: 0 <= e < |w.events| && IsClose(w.events[e], i) && w.events[e].at == w.issues[i].deadline ==>
               w.events[e].state.Pending?
    requires w.issues[i].halfStarted || ClosesOnlyAt(w.events, i, w.issues[i].deadline)
    ensures Closing(NoteClose(w, i), None) && OwnCloses(NoteClose(w, i), None)
  {
    var w1 := NoteClose(w, i);
    assert w1.issues[i].status.Collecting? && !w1.issues[i].noClose ==> HasClose(w1, i) by {
      if EventTaken(w.events, i, CloseSpec(w.issues[i])) {
        var e :| 0 <= e < |w.events| && w.events[e].Live() && w.events[e].issue == i
                 && w.events[e].kind.AutoClose? && w.events[e].at == w.issues[i].deadline;
        assert ClosesAt(w1.events[e], i, w1.issues[i].deadline, w1.now);
      }
    }
    ClosingTransfer(w, w1, Some(i));
  }

  lemma SetScheduleKeeps(w: World, d: nat, masthead: Label, opensAt: Instant, deadline: Instant, but: Except)
    requires InvBut(w, but)
    requires d < |w.issues| && w.issues[d].status.Draft?
    requires forall e :: 0 <= e < |w.events| && IsOpening(w.events[e]) && w.events[e].issue == d ==>
               w.events[e].at <= opensAt
    ensures InvBut(SetSchedule(w, d, masthead, opensAt, deadline), but)
  {
    StatusTransfer(w.issues, SetSchedule(w, d, masthead, opensAt, deadline).issues);
    hide OneOfEach, HalfStartsAlone, SlotsUnique, FiredPast;
    ClosingTransfer(w, SetSchedule(w, d, masthead, opensAt, deadline), but.issue);
  }

  lemma SetDraftDeadlineKeeps(w: World, d: nat, deadline: Instant)
    requires Inv(w)
    requires d < |w.issues| && w.issues[d].status.Draft?
    ensures Inv(SetDeadline(w, d, deadline))
  {
    StatusTransfer(w.issues, SetDeadline(w, d, deadline).issues);
    hide OneOfEach, HalfStartsAlone, SlotsUnique, FiredPast;
    ClosingTransfer(w, SetDeadline(w, d, deadline), None);
  }

  ghost predicate ClosesBeforeQueued(w: World, i: nat, deadline: Instant)
    requires Keyed(w) && i < |w.issues|
  {
    forall e | 0 <= e < |w.events| && IsQueuedOpening(w, e, w.issues[i].group) :: deadline < w.events[e].at
  }

  lemma MoveDeadlineKeeps(w: World, i: nat, deadline: Instant, gap: bool)
    requires Inv(w)
    requires i < |w.issues| && w.issues[i].status.Collecting?
    requires gap || ClosesBeforeQueued(w, i, deadline)
    ensures InvBut(SetDeadline(w, i, deadline), Except(Some(i), if gap then Some(w.issues[i].group) else None))
  {
    StatusTransfer(w.issues, SetDeadline(w, i, deadline).issues);
    MovedBeforeQueued(w, i, deadline, gap);
    hide OneOfEach, HalfStartsAlone, SlotsUnique, FiredPast, NoOverlap, ClosesBeforeQueued;
    ClosingTransfer(w, SetDeadline(w, i, deadline), Some(i));
  }

  lemma MovedBeforeQueued(w: World, i: nat, deadline: Instant, gap: bool)
    requires Keyed(w) && NoOverlap(w, None) && i < |w.issues|
    requires gap || ClosesBeforeQueued(w, i, deadline)
    ensures NoOverlap(SetDeadline(w, i, deadline), if gap then Some(w.issues[i].group) else None)
  {
  }

  lemma InsertIssueKeeps(w: World, g: nat, masthead: Label, opensAt: Instant, deadline: Instant, but: Except)
    requires InvBut(w, but) && g < |w.loops|
    requires but.issue.Some? ==> but.issue.value < |w.issues|
    requires forall i :: 0 <= i < |w.issues| ==> !IsDraft(w.issues[i], g, None)
    ensures InvBut(InsertIssue(w, g, masthead, opensAt, deadline), but)
  {
    hide SlotsUnique, FiredPast;
    var w1 := InsertIssue(w, g, masthead, opensAt, deadline);
    forall i | 0 <= i < |w1.issues| && w1.issues[i].status.Collecting? && Some(i) != but.issue
      ensures if w1.issues[i].noClose then LostClose(w1, i) else HasClose(w1, i)
    {
      CloseTransfer(w, w1, None, i);
    }
  }

  lemma PublishKeeps(w: World, i: nat)
    requires Inv(w)
    requires i < |w.issues| && !w.issues[i].status.Published?
    ensures Inv(SetStatus(w, i, Published))
  {
    hide SlotsUnique, FiredPast;
    ClosingTransfer(w, SetStatus(w, i, Published), None);
  }

  lemma MarkKeeps(w: World, e: nat, reason: FiredReason)
    requires Inv(w)
    requires e < |w.events| && w.events[e].at <= w.now
    requires w.events[e].kind.AutoClose? && w.issues[w.events[e].issue].status.Collecting? ==>
               reason.ArchivedLoop? || (reason.Skipped? && w.now - w.events[e].at > STALE_EVENT_CEILING)
    ensures Inv(MarkFired(w, e, reason))
  {
    hide OneOfEach, HalfStartsAlone;
    var w1 := MarkFired(w, e, reason);
    forall i | 0 <= i < |w1.issues| && w1.issues[i].status.Collecting?
      ensures if w1.issues[i].noClose then LostClose(w1, i) else HasClose(w1, i)
    {
      if w.issues[i].noClose {
        assert LostClose(w, i);
      } else {
        assert HasClose(w, i);
        var f :| 0 <= f < |w.events| && ClosesAt(w.events[f], i, w.issues[i].deadline, w.now);
        assert ClosesAt(w1.events[f], i, w1.issues[i].deadline, w1.now);
      }
    }
  }

  /** Archiving a loop cancels its events; its collecting round keeps the
      cancelled close. */
  lemma CancellingKeeps(w: World, g: nat)
    requires Inv(w)
    ensures Inv(DeletePendingOfGroup(w, g, false))
  {
    hide OneOfEach, HalfStartsAlone;
    var w1 := DeletePendingOfGroup(w, g, false);
    SlotsUniqueDrop(w.events, w1.events);
    hide SlotsUnique;
    forall i | 0 <= i < |w1.issues| && w1.issues[i].status.Collecting?
      ensures if w1.issues[i].noClose then LostClose(w1, i) else HasClose(w1, i)
    {
      if w.issues[i].noClose {
        assert LostClose(w, i);
      } else {
        assert HasClose(w, i);
        var f :| 0 <= f < |w.events| && ClosesAt(w.events[f], i, w.issues[i].deadline, w.now);
        assert ClosesAt(w1.events[f], i, w1.issues[i].deadline, w1.now);
      }
    }
  }
}
