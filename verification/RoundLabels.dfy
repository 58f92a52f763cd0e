/** The archive addresses an edition as /issues/{year}/{month}: no two
    editions of a group should share a label. */
module RoundLabels {
  import opened Options
  import opened Calendar
  import opened RoundTiming
  import opened SchedulerPolicy
  import opened RoundTables
  import opened RoundHandlers
  import opened RoundSafety

  ghost function Editions(issues: seq<Issue>, g: nat): set<nat> {
    set i: nat | i < |issues| && issues[i].group == g
  }

  ghost predicate LabelsDistinct(issues: seq<Issue>, g: nat) {
    forall i, j :: 0 <= i < j < |issues| && issues[i].group == g && issues[j].group == g ==>
      issues[i].month != issues[j].month || issues[i].year != issues[j].year
  }

  /** Two editions share a label only when one of the two labels is blind, and
      a label is blind only where the lookup may fail, or had more editions to
      pass than it is long. */
  ghost predicate Addressable(issues: seq<Issue>, lookupsFail: bool) {
    && (forall i, j :: 0 <= i < j < |issues| && SameLabel(issues[i], issues[j]) ==>
          issues[i].blindLabel || issues[j].blindLabel)
    && (forall i :: 0 <= i < |issues| && issues[i].blindLabel ==>
          lookupsFail || |Editions(issues, issues[i].group)| > LABEL_WALK)
  }

  ghost predicate SameLabel(a: Issue, b: Issue) { a.group == b.group && a.month == b.month && a.year == b.year }

  // ---- The walk finds a free label ---------------------------------------

  ghost predicate Holds(issues: seq<Issue>, g: nat, exclude: Option<nat>, baseMonth: int, baseYear: int, k: nat, i: nat)
    requires 1 <= baseMonth
  {
    && i < |issues| && Some(i) != exclude && issues[i].group == g
    && issues[i].month == LabelMonth(baseMonth, k) && issues[i].year == LabelYear(baseMonth, baseYear, k)
  }

  lemma LabelsOfOffsetsDiffer(baseMonth: int, baseYear: int, a: nat, b: nat)
    requires 1 <= baseMonth
    requires LabelMonth(baseMonth, a) == LabelMonth(baseMonth, b)
    requires LabelYear(baseMonth, baseYear, a) == LabelYear(baseMonth, baseYear, b)
    ensures a == b
  {
  }

  /** Each taken label names another edition, so `n` taken labels in a row take
      `n` editions. */
  lemma {:induction false} TakenLabelsTakeEditions(
    issues: seq<Issue>, g: nat, exclude: Option<nat>, baseMonth: int, baseYear: int, n: nat) returns (holders: set<nat>)
    requires 1 <= baseMonth
    requires forall k :: 0 <= k < n ==>
               LabelTaken(issues, g, exclude, LabelMonth(baseMonth, k), LabelYear(baseMonth, baseYear, k))
    ensures |holders| == n
    ensures forall i :: i in holders ==>
              && i in Editions(issues, g) && Some(i) != exclude
              && exists k: nat :: k < n && Holds(issues, g, exclude, baseMonth, baseYear, k, i)
  {
    if n == 0 {
      holders := {};
    } else {
      var before := TakenLabelsTakeEditions(issues, g, exclude, baseMonth, baseYear, n - 1);
      var k := n - 1;
      assert LabelTaken(issues, g, exclude, LabelMonth(baseMonth, k), LabelYear(baseMonth, baseYear, k));
      var i: nat :| i < |issues| && Some(i) != exclude && issues[i].group == g
                    && issues[i].month == LabelMonth(baseMonth, k) && issues[i].year == LabelYear(baseMonth, baseYear, k);
      assert Holds(issues, g, exclude, baseMonth, baseYear, k, i);
      if i in before {
        var earlier: nat :| earlier < k && Holds(issues, g, exclude, baseMonth, baseYear, earlier, i);
        LabelsOfOffsetsDiffer(baseMonth, baseYear, earlier, k);
      }
      holders := before + {i};
    }
  }

  lemma SubsetSize(a: set<nat>, b: set<nat>)
    requires a <= b
    ensures |a| <= |b|
  {
    assert b == a + (b - a);
  }

  /** With fewer other editions than the walk is long, the walk succeeds. */
  lemma FreeLabelFound(issues: seq<Issue>, g: nat, exclude: Option<nat>, baseMonth: int, baseYear: int)
    requires 1 <= baseMonth
    requires |Editions(issues, g) - (if exclude.Some? then {exclude.value} else {})| < LABEL_WALK
    ensures NextAvailableLabel(issues, g, exclude, baseMonth, baseYear).Some?
    ensures var masthead := IssueLabel(issues, g, exclude, baseMonth, baseYear, false);
            !masthead.blind && !LabelTaken(issues, g, exclude, masthead.month, masthead.year)
  {
    if LabelWalk(issues, g, exclude, baseMonth, baseYear, 0).None? {
      var holders := TakenLabelsTakeEditions(issues, g, exclude, baseMonth, baseYear, LABEL_WALK);
      SubsetSize(holders, Editions(issues, g) - (if exclude.Some? then {exclude.value} else {}));
    }
  }

  // ---- What each kind of change does to the labels -----------------------

  /** Only statuses and dates differ. */
  ghost predicate SameLabels(a: seq<Issue>, b: seq<Issue>) {
    && |a| == |b|
    && (forall i :: 0 <= i < |a| ==> SameLabel(a[i], b[i]) && a[i].blindLabel == b[i].blindLabel)
  }

  lemma SameLabelsKeep(a: seq<Issue>, b: seq<Issue>, lookupsFail: bool)
    requires Addressable(a, lookupsFail) && SameLabels(a, b)
    ensures Addressable(b, lookupsFail)
  {
    forall g: nat ensures Editions(b, g) == Editions(a, g) {
    }
    hide Editions;
  }

  /** `b` is `a` with one edition added or relabelled, by way of the lookup, and
      any statuses and dates changed. */
  ghost predicate Relabelled(
    a: seq<Issue>, b: seq<Issue>, g: nat, exclude: Option<nat>, baseMonth: int, baseYear: int, fails: bool)
    requires 1 <= baseMonth
    requires exclude.Some? ==> exclude.value < |a| && a[exclude.value].group == g
  {
    var at := if exclude.Some? then exclude.value else |a|;
    var masthead := IssueLabel(a, g, exclude, baseMonth, baseYear, fails);
    && |b| == (if exclude.Some? then |a| else |a| + 1)
    && b[at].group == g && b[at].month == masthead.month && b[at].year == masthead.year
    && b[at].blindLabel == masthead.blind
    && (forall i :: 0 <= i < |a| && i != at ==> SameLabel(a[i], b[i]) && a[i].blindLabel == b[i].blindLabel)
  }

  lemma RelabelledKeeps(
    a: seq<Issue>, b: seq<Issue>, g: nat, exclude: Option<nat>, baseMonth: int, baseYear: int, fails: bool,
    lookupsFail: bool)
    requires 1 <= baseMonth && (fails ==> lookupsFail)
    requires exclude.Some? ==> exclude.value < |a| && a[exclude.value].group == g
    requires Addressable(a, lookupsFail) && Relabelled(a, b, g, exclude, baseMonth, baseYear, fails)
    ensures Addressable(b, lookupsFail)
  {
    var at := if exclude.Some? then exclude.value else |a|;
    var masthead := IssueLabel(a, g, exclude, baseMonth, baseYear, fails);
    forall i | 0 <= i < |b| && b[i].blindLabel
      ensures lookupsFail || |Editions(b, b[i].group)| > LABEL_WALK
    {
      SubsetSize(Editions(a, b[i].group), Editions(b, b[i].group));
      if i == at && !fails {
        BlindAtTheEnd(a, b, g, exclude, baseMonth, baseYear);
      }
    }
    hide IssueLabel, Editions;
    forall i | 0 <= i < |b| && i != at && SameLabel(b[i], b[at]) ensures masthead.blind || b[i].blindLabel {
      FreshLabelIsFree(a, g, exclude, baseMonth, baseYear, fails);
      assert Some(i) != exclude && SameLabel(a[i], b[i]);
    }
  }

  /** A label that is not blind was free. */
  lemma FreshLabelIsFree(a: seq<Issue>, g: nat, exclude: Option<nat>, baseMonth: int, baseYear: int, fails: bool)
    requires 1 <= baseMonth
    ensures var masthead := IssueLabel(a, g, exclude, baseMonth, baseYear, fails);
            !masthead.blind ==> !LabelTaken(a, g, exclude, masthead.month, masthead.year)
  {
  }

  /** A lookup that works only gives up behind more than 1200 editions. */
  lemma BlindAtTheEnd(
    a: seq<Issue>, b: seq<Issue>, g: nat, exclude: Option<nat>, baseMonth: int, baseYear: int)
    requires 1 <= baseMonth
    requires exclude.Some? ==> exclude.value < |a| && a[exclude.value].group == g
    requires Relabelled(a, b, g, exclude, baseMonth, baseYear, false)
    requires IssueLabel(a, g, exclude, baseMonth, baseYear, false).blind
    ensures |Editions(b, g)| > LABEL_WALK
  {
    hide IssueLabel;
    var others := Editions(a, g) - (if exclude.Some? then {exclude.value} else {});
    OneMoreEdition(a, b, g, exclude, baseMonth, baseYear);
    if |others| < LABEL_WALK {
      FreeLabelFound(a, g, exclude, baseMonth, baseYear);
    }
  }

  lemma OneMoreEdition(a: seq<Issue>, b: seq<Issue>, g: nat, exclude: Option<nat>, baseMonth: int, baseYear: int)
    requires 1 <= baseMonth
    requires exclude.Some? ==> exclude.value < |a| && a[exclude.value].group == g
    requires Relabelled(a, b, g, exclude, baseMonth, baseYear, false)
    ensures |Editions(b, g)| == |Editions(a, g) - (if exclude.Some? then {exclude.value} else {})| + 1
  {
    hide IssueLabel;
    var at := if exclude.Some? then exclude.value else |a|;
    var others := Editions(a, g) - (if exclude.Some? then {exclude.value} else {});
    assert Editions(b, g) == others + {at};
  }

  /** A step of the round machine leaves labels alone or relabels one edition. */
  ghost predicate LabelStep(a: seq<Issue>, b: seq<Issue>, lookupsFail: bool) {
    || SameLabels(a, b)
    || exists g: nat, exclude: Option<nat>, baseMonth: int, baseYear: int, fails: bool ::
         && 1 <= baseMonth
         && (exclude.Some? ==> exclude.value < |a| && a[exclude.value].group == g)
         && (fails ==> lookupsFail)
         && Relabelled(a, b, g, exclude, baseMonth, baseYear, fails)
  }

  lemma LabelStepKeeps(a: seq<Issue>, b: seq<Issue>, lookupsFail: bool)
    requires Addressable(a, lookupsFail) && LabelStep(a, b, lookupsFail)
    ensures Addressable(b, lookupsFail)
  {
    if SameLabels(a, b) {
      SameLabelsKeep(a, b, lookupsFail);
    } else {
      hide Relabelled, Addressable;
      var g: nat, exclude: Option<nat>, baseMonth: int, baseYear: int, fails: bool :|
        && 1 <= baseMonth
        && (exclude.Some? ==> exclude.value < |a| && a[exclude.value].group == g)
        && (fails ==> lookupsFail)
        && Relabelled(a, b, g, exclude, baseMonth, baseYear, fails);
      RelabelledKeeps(a, b, g, exclude, baseMonth, baseYear, fails, lookupsFail);
    }
  }

  /** What a handler does to the labels of a group: nothing, or one lookup. */
  ghost predicate Relabels(
    a: seq<Issue>, b: seq<Issue>, g: nat, exclude: Option<nat>, base: Label, fails: bool)
  {
    || SameLabels(a, b)
    || (&& 1 <= base.month
        && (exclude.Some? ==> exclude.value < |a| && a[exclude.value].group == g)
        && Relabelled(a, b, g, exclude, base.month, base.year, fails))
  }

  lemma RelabelsSteps(
    a: seq<Issue>, b: seq<Issue>, g: nat, exclude: Option<nat>, base: Label, fails: bool, lookupsFail: bool)
    requires Relabels(a, b, g, exclude, base, fails) && (fails ==> lookupsFail)
    ensures LabelStep(a, b, lookupsFail)
  {
    hide Relabelled, SameLabels;
    if !SameLabels(a, b) {
      var baseMonth, baseYear := base.month, base.year;
      assert Relabelled(a, b, g, exclude, baseMonth, baseYear, fails);
    }
  }

  /** The month a round asks for when it opens at an instant. */
  function BaseLabel(open: Instant, zone: int): (base: Label)
    ensures 1 <= base.month <= 12
  {
    Label(MonthOfYear(LocalDay(open, zone)), YearOf(LocalDay(open, zone)), true)
  }

  /** Up to 1200 editions, labels that were distinct stay so if and only if the
      lookup worked, or the month it fell back on was free. */
  lemma RelabelledStaysDistinct(
    a: seq<Issue>, b: seq<Issue>, g: nat, exclude: Option<nat>, base: Label, fails: bool)
    requires Relabels(a, b, g, exclude, base, fails) && !SameLabels(a, b)
    requires LabelsDistinct(a, g) && |Editions(b, g)| <= LABEL_WALK
    ensures LabelsDistinct(b, g) <==> !fails || !LabelTaken(a, g, exclude, base.month, base.year)
  {
    var at := if exclude.Some? then exclude.value else |a|;
    var masthead := IssueLabel(a, g, exclude, base.month, base.year, fails);
    if !fails && masthead.blind {
      BlindAtTheEnd(a, b, g, exclude, base.month, base.year);
    }
    FreshLabelIsFree(a, g, exclude, base.month, base.year, fails);
    if LabelTaken(a, g, exclude, masthead.month, masthead.year) {
      hide IssueLabel, Editions;
      var i :| 0 <= i < |a| && Some(i) != exclude
               && a[i].group == g && a[i].month == masthead.month && a[i].year == masthead.year;
      assert SameLabel(b[i], b[at]);
    } else {
      hide IssueLabel, Editions;
      forall i | 0 <= i < |b| && i != at && b[i].group == g
        ensures b[i].month != masthead.month || b[i].year != masthead.year
      {
        assert Some(i) != exclude && SameLabel(a[i], b[i]);
      }
    }
  }

  // ---- The handlers ------------------------------------------------------

  lemma QueueNextRelabels(w: World, g: nat, lastOpensAt: Instant, fault: QueueFault)
    requires Keyed(w) && g < |w.loops|
    ensures var slot := CadenceNextOpen(lastOpensAt, w.loops[g].storedZone, w.loops[g].frequency, w.loops[g].zone, w.now);
            Relabels(w.issues, QueueNextIssueEvent(w, g, lastOpensAt, fault).issues, g, NextDraft(w, g),
                     BaseLabel(slot, w.loops[g].zone), fault.labelFails)
  {
    hide CadenceNextOpen, DefaultDeadline, IssueLabel, MonthOfYear, YearOf, PendingNextRoundAmong, EventTaken;
  }

  lemma PublishLabels(w: World, i: nat, writeFails: bool, fault: QueueFault)
    requires Keyed(w) && i < |w.issues| && Addressable(w.issues, w.outages.labels)
    requires fault.labelFails ==> w.outages.labels
    ensures Addressable(PublishRound(w, i, writeFails, fault).0.issues, w.outages.labels)
  {
    hide QueueNextIssueEvent, LabelStep, Addressable, Relabels;
    var published := SetStatus(w, i, Published);
    var g := w.issues[i].group;
    SameLabelsKeep(w.issues, published.issues, w.outages.labels);
    var slot := CadenceNextOpen(w.issues[i].opensAt, w.loops[g].storedZone, w.loops[g].frequency, w.loops[g].zone, w.now);
    hide CadenceNextOpen, BaseLabel;
    var queued := QueueNextIssueEvent(published, g, w.issues[i].opensAt, fault);
    QueueNextRelabels(published, g, w.issues[i].opensAt, fault);
    RelabelsSteps(published.issues, queued.issues, g, NextDraft(published, g), BaseLabel(slot, w.loops[g].zone),
                  fault.labelFails, w.outages.labels);
    LabelStepKeeps(published.issues, queued.issues, w.outages.labels);
  }

  lemma QueuedLabels(w: World, i: nat, lost: set<EventKind>)
    requires Keyed(w) && i < |w.issues|
    ensures SameLabels(w.issues, QueueEvents(w, i, lost).issues)
  {
    hide IssueEventSpecs, InsertEach;
    InsertEachKeeps(w, i, IssueEventSpecs(w.issues[i].deadline, w.loops[w.issues[i].group].zone, w.now), lost);
  }

  lemma OpenedLabels(w: World, i: nat, fault: OpenFault)
    requires Keyed(w) && i < |w.issues|
    ensures SameLabels(w.issues, OpenForCollecting(w, i, fault).0.issues)
  {
    hide QueueEvents;
    QueuedLabels(SetStatus(w, i, Collecting), i, fault.lost);
  }

  lemma RelabelsThen(
    a: seq<Issue>, b: seq<Issue>, c: seq<Issue>, g: nat, exclude: Option<nat>, base: Label, fails: bool)
    requires Relabels(a, b, g, exclude, base, fails) && SameLabels(b, c)
    ensures Relabels(a, c, g, exclude, base, fails)
  {
    hide IssueLabel;
  }

  lemma ReanchorRelabels(w: World, d: nat, labelFails: bool)
    requires Keyed(w) && d < |w.issues|
    ensures Relabels(w.issues, Reanchor(w, d, labelFails).issues, w.issues[d].group, Some(d),
                     BaseLabel(w.now, w.loops[w.issues[d].group].zone), labelFails)
  {
    hide DefaultDeadline, IssueLabel, MonthOfYear, YearOf;
  }

  lemma OpenNextRelabels(w: World, g: nat, scheduledAt: Instant, fault: OpenFault)
    requires Keyed(w) && g < |w.loops|
    ensures Relabels(w.issues, OpenNextIssue(w, g, scheduledAt, fault).0.issues, g, NextDraft(w, g),
                     BaseLabel(w.now, w.loops[g].zone), fault.labelFails)
  {
    hide DefaultDeadline, LabelForOpening, Relabelled, Reanchor, OpenForCollecting, BaseLabel, EarliestDraft,
        CollectingRound;
    var loop := w.loops[g];
    match NextDraft(w, g) {
      case Some(d) =>
        OpenedLabels(w, d, fault);
        var reanchored := Reanchor(w, d, fault.labelFails);
        ReanchorRelabels(w, d, fault.labelFails);
        OpenedLabels(reanchored, d, fault);
        RelabelsThen(w.issues, reanchored.issues, OpenForCollecting(reanchored, d, fault).0.issues, g, Some(d),
                     BaseLabel(w.now, loop.zone), fault.labelFails);
      case None => FreshOpenRelabels(w, g, fault);
    }
  }

  lemma FreshOpenRelabels(w: World, g: nat, fault: OpenFault)
    requires Keyed(w) && g < |w.loops|
    ensures var loop := w.loops[g];
            var created := InsertIssue(w, g, LabelForOpening(w.issues, g, None, w.now, loop.zone, fault.labelFails), w.now,
                                       DefaultDeadline(w.now, loop.windowDays, loop.zone));
            Keyed(created) && Relabels(w.issues, OpenForCollecting(created, |w.issues|, fault).0.issues, g, None,
                                       BaseLabel(w.now, loop.zone), fault.labelFails)
  {
    hide DefaultDeadline, IssueLabel, MonthOfYear, YearOf, OpenForCollecting;
    var loop := w.loops[g];
    var created := InsertIssue(w, g, LabelForOpening(w.issues, g, None, w.now, loop.zone, fault.labelFails), w.now,
                               DefaultDeadline(w.now, loop.windowDays, loop.zone));
    OpenedLabels(created, |w.issues|, fault);
    RelabelsThen(w.issues, created.issues, OpenForCollecting(created, |w.issues|, fault).0.issues, g, None,
                 BaseLabel(w.now, loop.zone), fault.labelFails);
  }

  /** The edition a start labels, and the month it asks for. */
  function StartLabel(w: World, g: nat, req: StartRequest, fault: StartFault): (Option<nat>, Label)
    requires g < |w.loops|
  {
    if !fault.draftLookupFails && UpcomingDraft(w, g).Some?
    then (UpcomingDraft(w, g), BaseLabel(w.now, w.loops[g].zone))
    else (None, Label(Requested(w, g, req).month, Requested(w, g, req).year, true))
  }

  lemma StartRelabels(w: World, g: nat, req: StartRequest, fault: StartFault)
    requires Keyed(w) && g < |w.loops|
    ensures Relabels(w.issues, StartRound(w, g, req, fault).0.issues, g, StartLabel(w, g, req, fault).0,
                     StartLabel(w, g, req, fault).1, fault.labelFails)
  {
    hide DefaultDeadline, IssueLabel, IssueEventSpecs, OpenDraftEarly, StartFresh, EarliestDraft, Requested, Relabelled,
        MonthOfYear, YearOf;
    var (w1, response) := StartRound(w, g, req, fault);
    var (upcoming, base) := StartLabel(w, g, req, fault);
    var loop := w.loops[g];
    if response.Accepted? {
      if upcoming.Some? {
        var close := DefaultDeadline(w.now, loop.windowDays, loop.zone);
        EarlyOpenRelabels(w, g, upcoming.value, close, IssueEventSpecs(close, loop.zone, w.now), fault.labelFails);
      } else {
        var asked := Requested(w, g, req);
        FreshRelabels(w, g, asked, fault);
      }
    }
  }

  lemma EarlyOpenRelabels(w: World, g: nat, d: nat, deadline: Instant, specs: seq<EventSpec>, labelFails: bool)
    requires Keyed(w) && d < |w.issues| && g < |w.loops| && w.issues[d].group == g
    requires OpenDraftEarly(w, g, d, LabelForOpening(w.issues, g, Some(d), w.now, w.loops[g].zone, labelFails), w.now,
               deadline, specs).Some?
    ensures Relabels(w.issues,
              OpenDraftEarly(w, g, d, LabelForOpening(w.issues, g, Some(d), w.now, w.loops[g].zone, labelFails), w.now,
                deadline, specs).value.issues,
              g, Some(d), BaseLabel(w.now, w.loops[g].zone), labelFails)
  {
    hide IssueLabel, MonthOfYear, YearOf, InsertAll;
    var masthead := LabelForOpening(w.issues, g, Some(d), w.now, w.loops[g].zone, labelFails);
    var consumed := DeletePendingOfGroup(SetStatus(SetSchedule(w, d, masthead, w.now, deadline), d, Collecting), g, true);
    InsertAllKeeps(consumed, d, specs);
  }

  lemma FreshRelabels(w: World, g: nat, asked: RequestedRound, fault: StartFault)
    requires Keyed(w) && g < |w.loops| && 1 <= asked.month
    ensures Relabels(w.issues,
              StartFresh(w, g, IssueLabel(w.issues, g, None, asked.month, asked.year, fault.labelFails), asked.opensAt,
                asked.deadline, fault.statusFails, fault.lost).issues,
              g, None, Label(asked.month, asked.year, true), fault.labelFails)
  {
    hide IssueLabel, QueueEvents;
    var i := |w.issues|;
    var masthead := IssueLabel(w.issues, g, None, asked.month, asked.year, fault.labelFails);
    var created := InsertIssue(w, g, masthead, asked.opensAt, asked.deadline);
    var begun := if fault.statusFails then NoteHalfStart(created, i) else SetStatus(created, i, Collecting);
    QueuedLabels(begun, i, fault.lost);
    assert Relabelled(w.issues, begun.issues, g, None, asked.month, asked.year, fault.labelFails);
    RelabelsThen(w.issues, begun.issues, QueueEvents(begun, i, fault.lost).issues, g, None,
                 Label(asked.month, asked.year, true), fault.labelFails);
  }

  // ---- When a failed lookup costs an address -----------------------------

  /** Queueing the next round, up to 1200 editions: if it labels an edition at
      all, labels stay distinct if and only if the lookup worked or no other
      edition holds the slot's month. */
  lemma QueueNextStaysDistinct(w: World, g: nat, lastOpensAt: Instant, fault: QueueFault)
    requires Keyed(w) && g < |w.loops| && LabelsDistinct(w.issues, g)
    requires |Editions(QueueNextIssueEvent(w, g, lastOpensAt, fault).issues, g)| <= LABEL_WALK
    ensures var w1 := QueueNextIssueEvent(w, g, lastOpensAt, fault);
            var slot := CadenceNextOpen(lastOpensAt, w.loops[g].storedZone, w.loops[g].frequency, w.loops[g].zone, w.now);
            var base := BaseLabel(slot, w.loops[g].zone);
            LabelsDistinct(w1.issues, g) <==>
              SameLabels(w.issues, w1.issues) || !fault.labelFails
              || !LabelTaken(w.issues, g, NextDraft(w, g), base.month, base.year)
  {
    hide QueueNextIssueEvent, CadenceNextOpen, BaseLabel, Relabels, Editions, EarliestDraft;
    var w1 := QueueNextIssueEvent(w, g, lastOpensAt, fault);
    var slot := CadenceNextOpen(lastOpensAt, w.loops[g].storedZone, w.loops[g].frequency, w.loops[g].zone, w.now);
    QueueNextRelabels(w, g, lastOpensAt, fault);
    if !SameLabels(w.issues, w1.issues) {
      RelabelledStaysDistinct(w.issues, w1.issues, g, NextDraft(w, g), BaseLabel(slot, w.loops[g].zone), fault.labelFails);
    }
  }

  /** The same for the scheduler's opening, which asks for the present month. */
  lemma OpenNextStaysDistinct(w: World, g: nat, scheduledAt: Instant, fault: OpenFault)
    requires Keyed(w) && g < |w.loops| && LabelsDistinct(w.issues, g)
    requires |Editions(OpenNextIssue(w, g, scheduledAt, fault).0.issues, g)| <= LABEL_WALK
    ensures var w1 := OpenNextIssue(w, g, scheduledAt, fault).0;
            var base := BaseLabel(w.now, w.loops[g].zone);
            LabelsDistinct(w1.issues, g) <==>
              SameLabels(w.issues, w1.issues) || !fault.labelFails
              || !LabelTaken(w.issues, g, NextDraft(w, g), base.month, base.year)
  {
    hide OpenNextIssue, BaseLabel, Relabels, Editions, EarliestDraft;
    var w1 := OpenNextIssue(w, g, scheduledAt, fault).0;
    OpenNextRelabels(w, g, scheduledAt, fault);
    if !SameLabels(w.issues, w1.issues) {
      RelabelledStaysDistinct(w.issues, w1.issues, g, NextDraft(w, g), BaseLabel(w.now, w.loops[g].zone), fault.labelFails);
    }
  }

  /** And for a start by hand, which asks for the month requested. */
  lemma StartStaysDistinct(w: World, g: nat, req: StartRequest, fault: StartFault)
    requires Keyed(w) && g < |w.loops| && LabelsDistinct(w.issues, g)
    requires |Editions(StartRound(w, g, req, fault).0.issues, g)| <= LABEL_WALK
    ensures var w1 := StartRound(w, g, req, fault).0;
            var (exclude, base) := StartLabel(w, g, req, fault);
            LabelsDistinct(w1.issues, g) <==>
              SameLabels(w.issues, w1.issues) || !fault.labelFails
              || !LabelTaken(w.issues, g, exclude, base.month, base.year)
  {
    hide StartRound, StartLabel, Relabels, Editions;
    var w1 := StartRound(w, g, req, fault).0;
    var (exclude, base) := StartLabel(w, g, req, fault);
    StartRelabels(w, g, req, fault);
    if !SameLabels(w.issues, w1.issues) {
      RelabelledStaysDistinct(w.issues, w1.issues, g, exclude, base, fault.labelFails);
    }
  }

  lemma ApplyCurrentLabels(w: World, g: nat, half: CurrentHalf)
    requires Keyed(w) && ApplyCurrent(w, g, half).Committed?
    ensures SameLabels(w.issues, ApplyCurrent(w, g, half).world.issues)
  {
    InsertAllKeeps(DeletePendingOfIssue(SetDeadline(w, half.issue, half.deadline), half.issue), half.issue, half.events);
  }

  lemma ApplyNextLabels(w: World, g: nat, half: NextHalf)
    requires Keyed(w) && 1 <= half.month && ApplyNext(w, g, half).Committed?
    ensures LabelStep(w.issues, ApplyNext(w, g, half).world.issues, w.outages.labels)
  {
    hide LabelWalk, EventTaken;
    var saved := w.(loops := w.loops[g := w.loops[g].(windowDays := half.windowDays)]);
    var cleared := DeletePendingOfGroup(saved, g, true);
    assert Relabelled(w.issues, ApplyNext(w, g, half).world.issues, g, NextDraft(cleared, g), half.month, half.year, false);
  }

  lemma ApplyScheduleLabels(w: World, u: ScheduleUpdate)
    requires Keyed(w) && Addressable(w.issues, w.outages.labels)
    requires u.next.Some? ==> 1 <= u.next.value.month
    requires ApplySchedule(w, u).Committed?
    ensures Addressable(ApplySchedule(w, u).world.issues, w.outages.labels)
  {
    hide LabelStep, Addressable, ApplyCurrent, ApplyNext, SameLabels;
    var half := w;
    if u.current.Some? {
      ApplyCurrentLabels(w, u.group, u.current.value);
      half := ApplyCurrent(w, u.group, u.current.value).world;
      SameLabelsKeep(w.issues, half.issues, w.outages.labels);
    }
    if u.next.Some? {
      ApplyNextLabels(half, u.group, u.next.value);
      LabelStepKeeps(half.issues, ApplyNext(half, u.group, u.next.value).world.issues, w.outages.labels);
    }
  }

  lemma DeadlineLabels(w: World, i: nat, newDeadline: Instant, lookups: RescheduleLookups)
    requires Keyed(w) && i < |w.issues| && Addressable(w.issues, w.outages.labels)
    ensures Addressable(ExtendDeadline(w, i, newDeadline, lookups).0.issues, w.outages.labels)
    ensures Addressable(EditDeadline(w, i, newDeadline, lookups).0.issues, w.outages.labels)
  {
    hide Addressable, ApplySchedule, RescheduledHalf;
    var u := ScheduleUpdate(w.issues[i].group, Some(RescheduledHalf(w, i, newDeadline, lookups)), None);
    if ApplySchedule(w, u).Committed? {
      ApplyScheduleLabels(w, u);
    }
    SameLabelsKeep(w.issues, SetDeadline(w, i, newDeadline).issues, w.outages.labels);
  }

  lemma UpdateScheduleLabels(w: World, g: nat, req: ScheduleRequest, active: Option<nat>, recent: RecentReminder)
    requires Keyed(w) && g < |w.loops| && Addressable(w.issues, w.outages.labels)
    requires active.Some? ==> active.value < |w.issues| && IsActive(w.issues[active.value], g, w.now)
    ensures Addressable(UpdateSchedule(w, g, req, active, recent).0.issues, w.outages.labels)
  {
    hide Addressable, ApplySchedule, RescheduledHalf, CloseDateFits, NextDatesFit, PinnedHalf;
    if UpdateSchedule(w, g, req, active, recent).1.Accepted? {
      var loop := w.loops[g];
      var currentHalf := None;
      if req.currentClose.Some? {
        var i := active.value;
        var close := LocalInstant(req.currentClose.value, DEADLINE_LOCAL_HOUR, loop.zone);
        currentHalf := Some(RescheduledHalf(w, i, close, RescheduleLookups(recent, false)));
      }
      var nextHalf := if req.nextOpen.Some? then Some(PinnedHalf(loop, req.nextOpen.value, req.nextClose.value)) else None;
      ApplyScheduleLabels(w, ScheduleUpdate(g, currentHalf, nextHalf));
    }
  }

  lemma {:induction false} ReconcileLabels(w: World, g: nat, faults: seq<QueueFault>)
    requires Keyed(w) && g <= |w.loops| && Addressable(w.issues, w.outages.labels)
    requires forall k :: 0 <= k < |faults| && faults[k].labelFails ==> w.outages.labels
    ensures Addressable(ReconcileFrom(w, g, faults).issues, w.outages.labels)
    decreases |w.loops| - g
  {
    hide Addressable, Keyed, ReconcileLoop;
    if g < |w.loops| {
      var fault := if g < |faults| then faults[g] else NO_QUEUE_FAULT;
      LoopLabels(w, g, fault);
      ReconcileLabels(ReconcileLoop(w, g, fault), g + 1, faults);
    }
  }

  lemma LoopLabels(w: World, g: nat, fault: QueueFault)
    requires Keyed(w) && g < |w.loops| && Addressable(w.issues, w.outages.labels)
    requires fault.labelFails ==> w.outages.labels
    ensures Addressable(ReconcileLoop(w, g, fault).issues, w.outages.labels)
  {
    hide QueueNextIssueEvent, LabelStep, Addressable, Relabels, LatestPublished, CadenceNextOpen, BaseLabel;
    if Stalled(w, g) {
      var last := w.issues[LatestPublished(w.issues, g).value].opensAt;
      var slot := CadenceNextOpen(last, w.loops[g].storedZone, w.loops[g].frequency, w.loops[g].zone, w.now);
      var queued := QueueNextIssueEvent(w, g, last, fault);
      QueueNextRelabels(w, g, last, fault);
      RelabelsSteps(w.issues, queued.issues, g, NextDraft(w, g), BaseLabel(slot, w.loops[g].zone), fault.labelFails,
                    w.outages.labels);
      LabelStepKeeps(w.issues, queued.issues, w.outages.labels);
    }
  }

  lemma FireLabels(w: World, e: nat, f: FireFaults)
    requires Keyed(w) && e < |w.events| && w.events[e].at <= w.now && Addressable(w.issues, w.outages.labels)
    requires f.open.labelFails || f.queue.labelFails ==> w.outages.labels
    ensures Addressable(FireEvent(w, e, f).issues, w.outages.labels)
  {
    hide Addressable, PublishRound, OpenNextIssue, LabelStep, Relabels, BaseLabel, EarliestDraft;
    var ev := w.events[e];
    PublishLabels(w, ev.issue, f.publishWriteFails, f.queue);
    var g := w.issues[ev.issue].group;
    var after := OpenNextIssue(w, g, ev.at, f.open).0;
    OpenNextRelabels(w, g, ev.at, f.open);
    RelabelsSteps(w.issues, after.issues, g, NextDraft(w, g), BaseLabel(w.now, w.loops[g].zone), f.open.labelFails,
                  w.outages.labels);
    LabelStepKeeps(w.issues, after.issues, w.outages.labels);
  }

  lemma StartLabels(w: World, g: nat, req: StartRequest, fault: StartFault)
    requires Keyed(w) && g < |w.loops| && Addressable(w.issues, w.outages.labels)
    requires fault.labelFails ==> w.outages.labels
    ensures Addressable(StartRound(w, g, req, fault).0.issues, w.outages.labels)
  {
    hide Addressable, LabelStep, Relabels, StartRound, StartLabel;
    var w1 := StartRound(w, g, req, fault).0;
    var (exclude, base) := StartLabel(w, g, req, fault);
    StartRelabels(w, g, req, fault);
    RelabelsSteps(w.issues, w1.issues, g, exclude, base, fault.labelFails, w.outages.labels);
    LabelStepKeeps(w.issues, w1.issues, w.outages.labels);
  }

  lemma ApplyLabels(w: World, step: Step)
    requires Keyed(w) && Enabled(w, step) && Addressable(w.issues, w.outages.labels)
    ensures Addressable(Apply(w, step).issues, w.outages.labels)
  {
    hide Addressable, FireEvent, StartRound, PublishRound, ExtendDeadline, EditDeadline, UpdateSchedule, ReconcileFrom;
    match step {
      case Fire(e, f) => FireLabels(w, e, f);
      case Start(g, req, fault) => StartLabels(w, g, req, fault);
      case Publish(i, writeFails, fault) => PublishLabels(w, i, writeFails, fault);
      case Extend(i, deadline, lookups) => DeadlineLabels(w, i, deadline, lookups);
      case Edit(i, deadline, lookups) => DeadlineLabels(w, i, deadline, lookups);
      case Reschedule(g, req, active, recent) => UpdateScheduleLabels(w, g, req, active, recent);
      case Reconcile(faults) => ReconcileLabels(w, 0, faults);
      case _ =>
    }
  }

  lemma {:induction false} RunLabels(w: World, steps: seq<Step>)
    requires Keyed(w) && Addressable(w.issues, w.outages.labels)
    ensures Addressable(Run(w, steps).issues, w.outages.labels)
  {
    hide Addressable, Apply, Keyed;
    if steps != [] {
      var w1 := Run(w, steps[..|steps| - 1]);
      RunLabels(w, steps[..|steps| - 1]);
      if Enabled(w1, steps[|steps| - 1]) {
        ApplyLabels(w1, steps[|steps| - 1]);
      } else {
        DisabledLabels(w1, steps[|steps| - 1]);
      }
    }
  }

  lemma DisabledLabels(w: World, step: Step)
    requires Keyed(w) && !Enabled(w, step)
    ensures Apply(w, step) == w
  {
  }

  /** In every reachable state, two editions of a group share a label only if
      one of them took it on a failed lookup, or behind more than 1200 editions.
      So where no lookup fails, and up to 1200 editions, the address of an
      edition finds that edition. */
  lemma {:induction false} EveryEditionIsAddressable(
    loops: seq<Loop>, start: Instant, outages: Outages, steps: seq<Step>, g: nat)
    ensures var issues := Run(World(loops, [], [], start, outages), steps).issues;
            && (forall i, j :: 0 <= i < j < |issues| && SameLabel(issues[i], issues[j]) ==>
                  issues[i].blindLabel || issues[j].blindLabel)
            && (!outages.labels && |Editions(issues, g)| <= LABEL_WALK ==> LabelsDistinct(issues, g))
  {
    RunLabels(World(loops, [], [], start, outages), steps);
  }

  /** A start asks for January 2024, which an edition holds, and its lookup
      fails: the archive can address only one of the two. */
  lemma FailedLookupHidesAnEdition()
    ensures var w := World([Loop(true, true, true, 7, Monthly, 0, 0)],
                           [Issue(0, 1, 2024, Published, 0, DAY, false, false, false)], [], 2 * DAY,
                           Outages(false, false, true));
            var w1 := StartRound(w, 0, StartRequest(None, None, 1, 2024, 0, 0), NO_START_FAULT.(labelFails := true)).0;
            LabelsDistinct(w.issues, 0) && !LabelsDistinct(w1.issues, 0)
  {
    var w := World([Loop(true, true, true, 7, Monthly, 0, 0)],
                   [Issue(0, 1, 2024, Published, 0, DAY, false, false, false)], [], 2 * DAY,
                   Outages(false, false, true));
    var req, fault := StartRequest(None, None, 1, 2024, 0, 0), NO_START_FAULT.(labelFails := true);
    assert w.issues[..0] == [];
    assert !HasActive(w, 0) && UpcomingDraft(w, 0).None?;
    DefaultDeadlineWindow(2 * DAY, 7, 0);
    hide DefaultDeadline, IssueEventSpecs, InsertEach, QueueEvents;
    var asked := Requested(w, 0, req);
    var started := SetStatus(InsertIssue(w, 0, Label(1, 2024, true), asked.opensAt, asked.deadline), 1, Collecting);
    QueuedLabels(started, 1, {});
    var w1 := StartRound(w, 0, req, fault).0;
    assert w1 == QueueEvents(started, 1, {});
    assert SameLabel(w1.issues[0], w1.issues[1]);
  }
}
