/** The handlers as they run: statements on tables, step by step. Each method
    is held to the function that specifies it, so everything proved of whole
    runs holds of a server that takes these methods. */
module RoundServer {
  import opened Options
  import opened Calendar
  import opened RoundTiming
  import opened SchedulerPolicy
  import opened RoundTables
  import H = RoundHandlers
  import R = RoundRuns
  import S = RoundSafety

  class Server {
    var loops: seq<Loop>
    var issues: seq<Issue>
    var events: seq<Event>
    var now: Instant
    const outages: Outages

    /** The tables as one value. */
    function View(): World
      reads this
    {
      World(loops, issues, events, now, outages)
    }

    // ---- Store statements ------------------------------------------------

    method CreateIssue(g: nat, masthead: Label, opensAt: Instant, deadline: Instant) returns (id: nat)
      modifies `issues
      ensures id == |old(issues)|
      ensures View() == InsertIssue(old(View()), g, masthead, opensAt, deadline)
    {
      id := |issues|;
      issues := issues + [Issue(g, masthead.month, masthead.year, Draft, opensAt, deadline, false, false, masthead.blind)];
    }

    method SetIssueStatus(i: nat, status: Status)
      requires i < |issues|
      modifies `issues
      ensures View() == SetStatus(old(View()), i, status)
    {
      issues := issues[i := issues[i].(status := status)];
    }

    method UpdateIssueSchedule(i: nat, masthead: Label, opensAt: Instant, deadline: Instant)
      requires i < |issues|
      modifies `issues
      ensures View() == SetSchedule(old(View()), i, masthead, opensAt, deadline)
    {
      issues := issues[i := issues[i].(month := masthead.month, year := masthead.year, blindLabel := masthead.blind,
          opensAt := opensAt, deadline := deadline)];
    }

    /** The insert fails on the unique constraint, or for the store's own
        reasons. */
    method CreateSchedulerEvent(i: nat, spec: EventSpec, fails: bool) returns (ok: bool)
      modifies `events
      ensures ok == (!fails && InsertEvent(old(View()), i, spec).Some?)
      ensures ok ==> View() == InsertEvent(old(View()), i, spec).value
      ensures !ok ==> View() == old(View())
    {
      if fails || EventTaken(events, i, spec) {
        return false;
      }
      events := events + [Event(i, spec.kind, spec.at, Pending)];
      return true;
    }

    method DeletePendingOpenings(g: nat)
      requires Keyed(View())
      modifies `events
      ensures View() == DeletePendingOfGroup(old(View()), g, true)
    {
      var e := 0;
      while e < |events|
        invariant 0 <= e <= |events| == |old(events)|
        invariant unchanged(`loops, `issues, `now)
        invariant forall k :: 0 <= k < e ==> events[k] == DeletePendingOfGroup(old(View()), g, true).events[k]
        invariant forall k :: e <= k < |events| ==> events[k] == old(events)[k]
      {
        if issues[events[e].issue].group == g && events[e].kind.CreateNextIssue? && events[e].state.Pending? {
          events := events[e := events[e].(state := Deleted)];
        }
        e := e + 1;
      }
      assert events == DeletePendingOfGroup(old(View()), g, true).events;
    }

    /** The walk to the first free month; a query that fails ends it. */
    method NextAvailableIssueLabel(g: nat, exclude: Option<nat>, baseMonth: int, baseYear: int, fails: bool)
      returns (r: Option<Label>)
      requires 1 <= baseMonth
      ensures r == if fails then None else NextAvailableLabel(issues, g, exclude, baseMonth, baseYear)
    {
      if fails {
        return None;
      }
      var offset := 0;
      while offset < LABEL_WALK
        invariant 0 <= offset <= LABEL_WALK
        invariant LabelWalk(issues, g, exclude, baseMonth, baseYear, 0)
                  == LabelWalk(issues, g, exclude, baseMonth, baseYear, offset)
      {
        var month := (baseMonth - 1 + offset) % 12 + 1;
        var year := baseYear + (baseMonth - 1 + offset) / 12;
        if !LabelTaken(issues, g, exclude, month, year) {
          return Some(Label(month, year, false));
        }
        offset := offset + 1;
      }
      return None;
    }

    /** issueLabel. */
    method IssueLabelAt(g: nat, exclude: Option<nat>, baseMonth: int, baseYear: int, fails: bool) returns (masthead: Label)
      requires 1 <= baseMonth
      ensures masthead == IssueLabel(issues, g, exclude, baseMonth, baseYear, fails)
    {
      hide LabelWalk;
      var found := NextAvailableIssueLabel(g, exclude, baseMonth, baseYear, fails);
      if found.None? {
        return Label(baseMonth, baseYear, true);
      }
      return found.value;
    }

    method IssueLabelFor(g: nat, exclude: Option<nat>, open: Instant, zone: int, fails: bool) returns (masthead: Label)
      ensures masthead == LabelForOpening(issues, g, exclude, open, zone, fails)
    {
      hide MonthOfYear, YearOf, IssueLabel;
      var day := LocalDay(open, zone);
      masthead := IssueLabelAt(g, exclude, MonthOfYear(day), YearOf(day), fails);
    }

    // ---- Handlers --------------------------------------------------------

    /** The inserts, up to a close that fails; then the note of how it fared. */
    method ScheduleIssueEvents(i: nat, deadline: Instant, lost: set<EventKind>) returns (ok: bool)
      requires Keyed(View()) && i < |issues| && issues[i].deadline == deadline
      modifies `issues, `events
      ensures View() == H.QueueEvents(old(View()), i, lost)
      ensures Keyed(View())
    {
      hide IssueEventSpecs;
      var specs, _ := BuildIssueEventSpecs(deadline, loops[issues[i].group].zone, now);
      H.InsertEachKeeps(View(), i, specs, lost);
      IssueEventSpecsShape(deadline, loops[issues[i].group].zone, now);
      ok := InsertUpToClose(i, specs, lost);
      NoteClose(i);
    }

    method InsertUpToClose(i: nat, specs: seq<EventSpec>, lost: set<EventKind>) returns (ok: bool)
      requires forall k :: 0 <= k < |specs| - 1 ==> !specs[k].kind.AutoClose?
      modifies `events
      ensures View() == InsertEach(old(View()), i, specs, lost)
    {
      var k := 0;
      while k < |specs|
        invariant 0 <= k <= |specs|
        invariant unchanged(`loops, `issues, `now)
        invariant InsertEach(View(), i, specs[k..], lost) == InsertEach(old(View()), i, specs, lost)
      {
        assert specs[k..][0] == specs[k] && specs[k..][1..] == specs[k + 1..];
        ok := CreateSchedulerEvent(i, specs[k], specs[k].kind in lost);
        k := k + 1;
        if !ok && specs[k - 1].kind.AutoClose? {
          return;
        }
      }
      ok := true;
    }

    method QueueOpening(d: nat, at: Instant, fault: H.QueueFault)
      requires Keyed(View()) && d < |issues|
      modifies `events
      ensures View() == H.QueueOpening(old(View()), d, at, fault)
    {
      var _ := CreateSchedulerEvent(d, EventSpec(EventKind.CreateNextIssue, at), fault.stop.EventWriteFails?);
    }

    method QueueNextIssueEvent(g: nat, lastOpensAt: Instant, fault: H.QueueFault)
      requires Keyed(View()) && g < |loops|
      modifies `issues, `events
      ensures View() == H.QueueNextIssueEvent(old(View()), g, lastOpensAt, fault)
      ensures Keyed(View()) && |old(issues)| <= |issues|
    {
      hide CadenceNextOpen, DefaultDeadline, LabelForOpening, PendingNextRoundAmong, H.QueueOpening, EarliestDraft;
      if fault.stop.PendingLookupFails? || PendingNextRound(View(), g).Some? || fault.stop.ClearFails? {
        return;
      }
      DeletePendingOpenings(g);
      if fault.stop.DraftLookupFails? {
        return;
      }
      var loop := loops[g];
      var slot := CadenceNextOpen(lastOpensAt, loop.storedZone, loop.frequency, loop.zone, now);
      var draft := EarliestDraft(issues, g, None);
      if draft.Some? && issues[draft.value].opensAt > now + 12 * HOUR {
        QueueOpening(draft.value, issues[draft.value].opensAt, fault);
        return;
      }
      if fault.stop.DraftWriteFails? {
        return;
      }
      var masthead := IssueLabelFor(g, draft, slot, loop.zone, fault.labelFails);
      var deadline := DefaultDeadline(slot, loop.windowDays, loop.zone);
      var d;
      if draft.Some? {
        d := draft.value;
        UpdateIssueSchedule(d, masthead, slot, deadline);
      } else {
        d := CreateIssue(g, masthead, slot, deadline);
      }
      QueueOpening(d, slot, fault);
    }

    method Publish(i: nat, writeFails: bool, fault: H.QueueFault) returns (ok: bool)
      requires Keyed(View()) && i < |issues|
      modifies `issues, `events
      ensures (View(), ok) == H.PublishRound(old(View()), i, writeFails, fault)
    {
      hide H.QueueNextIssueEvent;
      if issues[i].status.Published? {
        return true;
      }
      if writeFails {
        return false;
      }
      SetIssueStatus(i, Published);
      if loops[issues[i].group].autoCreate {
        QueueNextIssueEvent(issues[i].group, issues[i].opensAt, fault);
      }
      return true;
    }

    method OpenIssueForCollecting(i: nat, fault: H.OpenFault) returns (ok: bool)
      requires Keyed(View()) && i < |issues|
      modifies `issues, `events
      ensures (View(), ok) == H.OpenForCollecting(old(View()), i, fault)
    {
      hide H.QueueEvents;
      if fault.stop.OpenWriteFails? {
        return false;
      }
      SetIssueStatus(i, Collecting);
      var _ := ScheduleIssueEvents(i, issues[i].deadline, fault.lost);
      return true;
    }

    method CreateNextIssue(g: nat, scheduledAt: Instant, fault: H.OpenFault) returns (ok: bool)
      requires Keyed(View()) && g < |loops|
      modifies `issues, `events
      ensures (View(), ok) == H.OpenNextIssue(old(View()), g, scheduledAt, fault)
    {
      hide DefaultDeadline, LabelForOpening, EarliestDraft, CollectingRound, H.OpenForCollecting;
      if fault.stop.ReadFails? {
        return false;
      }
      var loop := loops[g];
      if !loop.autoCreate || CollectingRound(issues, g).Some? {
        return true;
      }
      var draft := EarliestDraft(issues, g, None);
      if draft.Some? {
        var d := draft.value;
        if issues[d].opensAt > scheduledAt {
          return true;
        }
        if issues[d].deadline <= now + MIN_REMINDER_LEAD {
          if fault.stop.ReanchorFails? {
            return false;
          }
          var masthead := IssueLabelFor(g, draft, now, loop.zone, fault.labelFails);
          UpdateIssueSchedule(d, masthead, now, DefaultDeadline(now, loop.windowDays, loop.zone));
        }
        ok := OpenIssueForCollecting(d, fault);
        return;
      }
      if fault.stop.CreateFails? {
        return false;
      }
      var masthead := IssueLabelFor(g, None, now, loop.zone, fault.labelFails);
      var id := CreateIssue(g, masthead, now, DefaultDeadline(now, loop.windowDays, loop.zone));
      ok := OpenIssueForCollecting(id, fault);
    }

    /** The daily repair. */
    method ReconcileAutoCreate(faults: seq<H.QueueFault>)
      requires Keyed(View())
      modifies `issues, `events
      ensures View() == H.ReconcileAutoCreate(old(View()), faults)
    {
      hide H.QueueNextIssueEvent, PendingNextRoundAmong, LatestPublished, CollectingRound, H.ReconcileFrom;
      var g := 0;
      while g < |loops|
        invariant 0 <= g <= |loops|
        invariant unchanged(`loops, `now)
        invariant Keyed(View())
        invariant H.ReconcileFrom(View(), g, faults) == H.ReconcileAutoCreate(old(View()), faults)
      {
        ghost var before := View();
        var fault := if g < |faults| then faults[g] else H.NO_QUEUE_FAULT;
        SweepStep(before, g, faults);
        g := g + 1;
        var loop := loops[g - 1];
        if !loop.active || !loop.setupComplete || !loop.autoCreate {
          continue;
        }
        if CollectingRound(issues, g - 1).Some? || PendingNextRound(View(), g - 1).Some? {
          continue;
        }
        var published := LatestPublished(issues, g - 1);
        if published.None? {
          continue;
        }
        QueueNextIssueEvent(g - 1, issues[published.value].opensAt, fault);
      }
      SweepEnd(View(), faults);
    }

    /** Early opening, as one transaction: a failed insert undoes the rest. */
    method OpenDraftEarly(g: nat, d: nat, masthead: Label, opensAt: Instant, deadline: Instant, specs: seq<EventSpec>)
      returns (ok: bool)
      requires Keyed(View()) && d < |issues|
      modifies `issues, `events
      ensures ok == H.OpenDraftEarly(old(View()), g, d, masthead, opensAt, deadline, specs).Some?
      ensures View() == if ok then H.OpenDraftEarly(old(View()), g, d, masthead, opensAt, deadline, specs).value
                else old(View())
    {
      hide InsertAll, DeletePendingOfGroup;
      if !IsDraft(issues[d], g, None) {
        return false;
      }
      var issuesBefore, eventsBefore := issues, events;
      UpdateIssueSchedule(d, masthead, opensAt, deadline);
      SetIssueStatus(d, Collecting);
      DeletePendingOpenings(g);
      ok := InsertEvents(d, specs);
      if !ok {
        issues, events := issuesBefore, eventsBefore;
        return;
      }
      NoteClose(d);
    }

    /** History, in no column. */
    method NoteClose(i: nat)
      requires i < |issues|
      modifies `issues
      ensures View() == RoundTables.NoteClose(old(View()), i)
    {
      issues := issues[i := issues[i].(noClose := !EventTaken(events, i, CloseSpec(issues[i])))];
    }

    /** The inserts of a transaction, up to the first that fails. */
    method InsertEvents(i: nat, specs: seq<EventSpec>) returns (ok: bool)
      modifies `events
      ensures ok == InsertAll(old(View()), i, specs).Some?
      ensures ok ==> View() == InsertAll(old(View()), i, specs).value
    {
      var k := 0;
      while k < |specs|
        invariant 0 <= k <= |specs|
        invariant unchanged(`loops, `issues, `now)
        invariant InsertAll(View(), i, specs[k..]) == InsertAll(old(View()), i, specs)
      {
        assert specs[k..][0] == specs[k] && specs[k..][1..] == specs[k + 1..];
        var inserted := CreateSchedulerEvent(i, specs[k], false);
        if !inserted {
          return false;
        }
        k := k + 1;
      }
      return true;
    }

    /** "Create Issue". */
    method StartRound(g: nat, req: H.StartRequest, fault: H.StartFault) returns (response: H.Response)
      requires Keyed(View()) && g < |loops|
      modifies `issues, `events
      ensures (View(), response) == H.StartRound(old(View()), g, req, fault)
    {
      hide DefaultDeadline, IssueEventSpecs, IssueLabel, LabelForOpening, HasActive, H.Requested, H.OpenDraftEarly,
          H.QueueEvents, EarliestDraft;
      var loop := loops[g];
      var asked := H.Requested(View(), g, req);
      if asked.month < 1 || asked.month > 12 || asked.year < 2020 || req.questionCount < 0 || req.questionCount > 20 {
        return H.Refused;
      }
      if asked.deadline <= asked.opensAt || HasActive(View(), g) {
        return H.Refused;
      }
      var upcoming := if fault.draftLookupFails then None else UpcomingDraft(View(), g);
      if fault.writeFails {
        return H.ServerError;
      }
      if upcoming.Some? {
        var d := upcoming.value;
        var newDeadline := DefaultDeadline(now, loop.windowDays, loop.zone);
        var masthead := IssueLabelFor(g, Some(d), now, loop.zone, fault.labelFails);
        var specs, _ := BuildIssueEventSpecs(newDeadline, loop.zone, now);
        var ok := OpenDraftEarly(g, d, masthead, now, newDeadline, specs);
        return if ok then H.Accepted else H.ServerError;
      }
      var masthead := IssueLabelAt(g, None, asked.month, asked.year, fault.labelFails);
      var id := CreateIssue(g, masthead, asked.opensAt, asked.deadline);
      if fault.statusFails {
        issues := issues[id := issues[id].(halfStarted := true)];
      } else {
        SetIssueStatus(id, Collecting);
      }
      var _ := ScheduleIssueEvents(id, asked.deadline, fault.lost);
      return H.Accepted;
    }

    /** The schedule transaction. */
    method ApplySchedule(u: H.ScheduleUpdate) returns (error: Option<H.ApplyError>)
      requires Keyed(View())
      requires u.next.Some? ==> 1 <= u.next.value.month
      modifies `loops, `issues, `events
      ensures error.None? <==> H.ApplySchedule(old(View()), u).Committed?
      ensures error.None? ==> View() == H.ApplySchedule(old(View()), u).world
      ensures error.Some? ==> View() == old(View()) && H.ApplySchedule(old(View()), u).error == error.value
    {
      hide H.ApplyCurrent, H.ApplyNext, H.Overlaps;
      if H.Overlaps(View(), u) {
        return Some(H.ScheduleOverlap);
      }
      var loopsBefore, issuesBefore, eventsBefore := loops, issues, events;
      error := None;
      if u.current.Some? {
        error := MoveDeadline(u.group, u.current.value);
      }
      if error.None? && u.next.Some? {
        error := PinNextRound(u.group, u.next.value);
      }
      if error.Some? {
        loops, issues, events := loopsBefore, issuesBefore, eventsBefore;
      }
    }

    /** The schedule editor: every bound is checked before the transaction. */
    method UpdateSchedule(g: nat, req: H.ScheduleRequest, active: Option<nat>, recent: RecentReminder)
      returns (response: H.Response)
      requires Keyed(View()) && g < |loops|
      requires active.Some? ==> active.value < |issues| && IsActive(issues[active.value], g, now)
      modifies `loops, `issues, `events
      ensures (View(), response) == H.UpdateSchedule(old(View()), g, req, active, recent)
    {
      hide H.ApplySchedule, H.PinnedHalf, H.RescheduledHalf, H.CloseDateFits, H.NextDatesFit, LocalDay, IsActive;
      var loop := loops[g];
      if req.currentClose.None? && req.nextOpen.None? && req.nextClose.None? {
        return H.Refused;
      }
      if req.nextOpen.Some? != req.nextClose.Some? {
        return H.Refused;
      }
      var currentDeadline, currentHalf, nextHalf := None, None, None;
      if active.Some? && issues[active.value].status.Collecting? {
        currentDeadline := Some(issues[active.value].deadline);
      }
      if req.currentClose.Some? {
        if currentDeadline.None? || active != Some(req.currentIssue) {
          return H.Refused;
        }
        if !H.CloseDateFits(View(), active.value, req.currentClose.value, req.nextOpen.None?) {
          return H.Refused;
        }
        var close := H.LocalInstant(req.currentClose.value, DEADLINE_LOCAL_HOUR, loop.zone);
        currentDeadline := Some(close);
        currentHalf := Some(H.RescheduledHalf(View(), active.value, close, H.RescheduleLookups(recent, false)));
      }
      if req.nextOpen.Some? {
        if !loop.autoCreate {
          return H.Refused;
        }
        if !H.NextDatesFit(loop, LocalDay(now, loop.zone), req.nextOpen.value, req.nextClose.value, currentDeadline) {
          return H.Refused;
        }
        nextHalf := Some(H.PinnedHalf(loop, req.nextOpen.value, req.nextClose.value));
      }
      var error := ApplySchedule(H.ScheduleUpdate(g, currentHalf, nextHalf));
      return Answer(error);
    }

    function Answer(error: Option<H.ApplyError>): H.Response {
      if error.None? then H.Accepted else if error.value.ScheduleOverlap? then H.Refused else H.ServerError
    }

    /** rescheduleIssueDeadline. */
    method RescheduleIssueDeadline(i: nat, newDeadline: Instant, lookups: H.RescheduleLookups)
      returns (response: H.Response)
      requires Keyed(View()) && i < |issues|
      modifies `loops, `issues, `events
      ensures (View(), response) == H.RescheduleDeadline(old(View()), i, newDeadline, lookups)
    {
      hide H.ApplySchedule, H.RescheduledHalf, H.PinnedRoundOverlaps;
      if H.PinnedRoundOverlaps(View(), issues[i].group, newDeadline) {
        return H.Refused;
      }
      var half := H.RescheduledHalf(View(), i, newDeadline, lookups);
      var error := ApplySchedule(H.ScheduleUpdate(issues[i].group, Some(half), None));
      return Answer(error);
    }

    method ExtendDeadline(i: nat, newDeadline: Instant, lookups: H.RescheduleLookups) returns (response: H.Response)
      requires Keyed(View()) && i < |issues|
      modifies `loops, `issues, `events
      ensures (View(), response) == H.ExtendDeadline(old(View()), i, newDeadline, lookups)
    {
      hide H.RescheduleDeadline;
      if !issues[i].status.Collecting? || newDeadline <= now || newDeadline <= issues[i].deadline {
        return H.Refused;
      }
      response := RescheduleIssueDeadline(i, newDeadline, lookups);
    }

    /** The deadline part of an issue's update. */
    method UpdateIssue(i: nat, newDeadline: Instant, lookups: H.RescheduleLookups) returns (response: H.Response)
      requires Keyed(View()) && i < |issues|
      modifies `loops, `issues, `events
      ensures (View(), response) == H.EditDeadline(old(View()), i, newDeadline, lookups)
    {
      hide H.RescheduleDeadline;
      if issues[i].status.Published? || newDeadline <= now || newDeadline <= issues[i].opensAt {
        return H.Refused;
      }
      if issues[i].status.Collecting? {
        response := RescheduleIssueDeadline(i, newDeadline, lookups);
        return;
      }
      issues := issues[i := issues[i].(deadline := newDeadline)];
      return H.Accepted;
    }

    /** Archiving a loop cancels its events; restoring it brings none back. */
    method SetGroupActive(g: nat, active: bool, cancelFails: bool)
      requires Keyed(View()) && g < |loops|
      modifies `loops, `events
      ensures View() == S.Apply(old(View()), if active then S.Restore(g) else S.Archive(g, cancelFails))
    {
      loops := loops[g := loops[g].(active := active)];
      if !active && !cancelFails {
        DeletePendingEvents(g);
      }
    }

    method DeletePendingEvents(g: nat)
      requires Keyed(View())
      modifies `events
      ensures View() == DeletePendingOfGroup(old(View()), g, false)
    {
      var e := 0;
      while e < |events|
        invariant 0 <= e <= |events| == |old(events)|
        invariant unchanged(`loops, `issues, `now)
        invariant forall k :: 0 <= k < e ==> events[k] == DeletePendingOfGroup(old(View()), g, false).events[k]
        invariant forall k :: e <= k < |events| ==> events[k] == old(events)[k]
      {
        if issues[events[e].issue].group == g && events[e].state.Pending? {
          events := events[e := events[e].(state := Cancelled)];
        }
        e := e + 1;
      }
      assert events == DeletePendingOfGroup(old(View()), g, false).events;
    }

    method MoveDeadline(g: nat, half: H.CurrentHalf) returns (error: Option<H.ApplyError>)
      requires Keyed(View())
      modifies `issues, `events
      ensures error.None? <==> H.ApplyCurrent(old(View()), g, half).Committed?
      ensures error.None? ==> View() == H.ApplyCurrent(old(View()), g, half).world
      ensures error.Some? ==> H.ApplyCurrent(old(View()), g, half).error == error.value
    {
      hide InsertAll;
      if half.issue >= |issues| || !IsCollecting(issues[half.issue], g) {
        return Some(H.NoSuchRow);
      }
      issues := issues[half.issue := issues[half.issue].(deadline := half.deadline)];
      events := DeletePendingOfIssue(View(), half.issue).events;
      var ok := InsertEvents(half.issue, half.events);
      if !ok {
        return Some(H.Constraint);
      }
      NoteClose(half.issue);
      return None;
    }

    method PinNextRound(g: nat, half: H.NextHalf) returns (error: Option<H.ApplyError>)
      requires Keyed(View()) && 1 <= half.month
      modifies `loops, `issues, `events
      ensures error.None? <==> H.ApplyNext(old(View()), g, half).Committed?
      ensures error.None? ==> View() == H.ApplyNext(old(View()), g, half).world
      ensures error.Some? ==> H.ApplyNext(old(View()), g, half).error == error.value
    {
      hide LabelWalk, EarliestDraft, EventTaken;
      if g >= |loops| {
        return Some(H.NoSuchRow);
      }
      loops := loops[g := loops[g].(windowDays := half.windowDays)];
      DeletePendingOpenings(g);
      var draft := EarliestDraft(issues, g, None);
      var masthead := NextAvailableIssueLabel(g, draft, half.month, half.year, false);
      if masthead.None? {
        return Some(H.NoFreeLabel);
      }
      var d;
      if draft.Some? {
        d := draft.value;
        UpdateIssueSchedule(d, masthead.value, half.open, half.close);
      } else {
        d := CreateIssue(g, masthead.value, half.open, half.close);
      }
      var ok := CreateSchedulerEvent(d, EventSpec(EventKind.CreateNextIssue, half.open), false);
      return if ok then None else Some(H.Constraint);
    }

    // ---- The scheduler ---------------------------------------------------

    method MarkEventFired(e: nat, reason: FiredReason, fails: bool)
      requires e < |events|
      modifies `events
      ensures View() == if fails then old(View()) else MarkFired(old(View()), e, reason)
    {
      if !fails && events[e].state.Pending? {
        events := events[e := events[e].(state := Fired(reason))];
      }
    }

    method RunHandler(e: nat, f: H.FireFaults) returns (ok: bool)
      requires Keyed(View()) && e < |events|
      modifies `issues, `events
      ensures (View(), ok) == H.HandleEvent(old(View()), e, f)
    {
      hide H.PublishRound, H.OpenNextIssue;
      var ev := events[e];
      match ev.kind {
        case Reminder1 => ok := issues[ev.issue].status.Collecting? && !f.sendFails;
        case Reminder2 => ok := issues[ev.issue].status.Collecting? && !f.sendFails;
        case AutoClose => ok := Publish(ev.issue, f.publishWriteFails, f.queue);
        case CreateNextIssue => ok := CreateNextIssue(issues[ev.issue].group, ev.at, f.open);
        case _ => ok := !f.sendFails;
      }
    }

    method FireEvent(e: nat, f: H.FireFaults)
      requires Keyed(View()) && e < |events| && events[e].at <= now
      modifies `issues, `events
      ensures View() == H.FireEvent(old(View()), e, f)
    {
      hide H.HandleEvent, ShouldSkip;
      if f.confirmFails || !events[e].state.Pending? {
        return;
      }
      var ev := events[e];
      var issue := issues[ev.issue];
      if !f.archiveReadFails && !loops[issue.group].active {
        MarkEventFired(e, ArchivedLoop, f.markFails);
        return;
      }
      var round := if f.revalidateFails then Failed else Found(Round(issue.status, issue.deadline));
      if ShouldSkip(ev.kind, true, round, ev.at, now) {
        MarkEventFired(e, Skipped, f.markFails);
        return;
      }
      var ok := RunHandler(e, f);
      if ok {
        MarkEventFired(e, Handled, f.markFails);
      }
    }

    /** One pass over a list of overdue events, of any age: a run of Fire steps
        of the round machine, whose safety theorem therefore covers it. */
    method FireOverdueEvents(overdue: seq<nat>, faults: seq<H.FireFaults>)
      requires Keyed(View()) && |faults| == |overdue|
      requires forall e :: e in overdue ==> e < |events| && events[e].at <= now
      requires forall k :: 0 <= k < |faults| ==> S.Meets(outages, S.Fire(overdue[k], faults[k]))
      modifies `issues, `events
      ensures View() == S.Run(old(View()), FireSteps(overdue, faults))
    {
      hide H.FireEvent, S.Run, S.Meets;
      RunNothing(View());
      assert FireSteps(overdue[..0], faults[..0]) == [];
      for k := 0 to |overdue|
        invariant unchanged(`loops, `now)
        invariant Keyed(View())
        invariant |events| >= |old(events)| && forall e :: 0 <= e < |old(events)| ==> events[e].at == old(events)[e].at
        invariant View() == S.Run(old(View()), FireSteps(overdue[..k], faults[..k]))
      {
        ghost var before := View();
        assert overdue[k] in overdue;
        FiringKeepsTimes(before, overdue[k], faults[k]);
        RunOneMore(old(View()), overdue[..k], faults[..k], overdue[k], faults[k]);
        assert overdue[..k + 1] == overdue[..k] + [overdue[k]] && faults[..k + 1] == faults[..k] + [faults[k]];
        FireEvent(overdue[k], faults[k]);
      }
      assert overdue[..|overdue|] == overdue && faults[..|overdue|] == faults;
    }
  }

  function FireSteps(overdue: seq<nat>, faults: seq<H.FireFaults>): seq<S.Step>
    requires |faults| == |overdue|
  {
    seq(|overdue|, k requires 0 <= k < |overdue| => S.Fire(overdue[k], faults[k]))
  }

  lemma SweepStep(w: World, g: nat, faults: seq<H.QueueFault>)
    requires Keyed(w) && g < |w.loops|
    ensures H.ReconcileFrom(w, g, faults)
         == H.ReconcileFrom(H.ReconcileLoop(w, g, if g < |faults| then faults[g] else H.NO_QUEUE_FAULT), g + 1, faults)
  {
    hide H.ReconcileLoop;
  }

  lemma {:induction false} SweepEnd(w: World, faults: seq<H.QueueFault>)
    requires Keyed(w)
    ensures H.ReconcileFrom(w, |w.loops|, faults) == w
  {
  }

  lemma {:induction false} RunNothing(w: World)
    requires Keyed(w)
    ensures S.Run(w, []) == w
  {
  }

  lemma {:induction false} RunOneMore(w: World, overdue: seq<nat>, faults: seq<H.FireFaults>, e: nat, f: H.FireFaults)
    requires Keyed(w) && |faults| == |overdue|
    ensures S.Run(w, FireSteps(overdue + [e], faults + [f])) == S.Apply(S.Run(w, FireSteps(overdue, faults)), S.Fire(e, f))
  {
    hide S.Apply;
    var steps := FireSteps(overdue + [e], faults + [f]);
    assert steps[..|overdue|] == FireSteps(overdue, faults);
  }

  /** Firing moves no event's time. */
  lemma FiringKeepsTimes(w: World, e: nat, f: H.FireFaults)
    requires Keyed(w) && e < |w.events| && w.events[e].at <= w.now
    ensures var w1 := H.FireEvent(w, e, f);
            |w.events| <= |w1.events| && forall k :: 0 <= k < |w.events| ==> w1.events[k].at == w.events[k].at
  {
    hide H.OpenNextIssue, H.QueueNextIssueEvent, ShouldSkip;
    var ev := w.events[e];
    match ev.kind {
      case AutoClose =>
        R.QueueNextTouchesDrafts(SetStatus(w, ev.issue, Published), w.issues[ev.issue].group,
            w.issues[ev.issue].opensAt, f.queue);
      case CreateNextIssue =>
        H.OpeningKeepsEvents(w, w.issues[ev.issue].group, ev.at, f.open);
      case _ =>
    }
  }
}
