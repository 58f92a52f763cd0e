/** The email log that makes retries of a scheduler event safe to repeat: one
    row for each event, recipient and type, consulted before each send. */
module EmailLedger {
  import opened Options

  datatype EmailType = Reminder | AdminSummary

  datatype SendStatus = Pending | Sent | Failed

  /** `event` is absent on rows of sends an admin asked for. */
  datatype LogRow = LogRow(event: Option<nat>, user: nat, kind: EmailType, status: SendStatus)
  {
    predicate For(k: Key) { event == Some(k.event) && user == k.user && kind == k.kind }
  }

  datatype Key = Key(event: nat, user: nat, kind: EmailType)

  /** The log; every send that got through; and, of those, the ones whose
      "sent" never reached the log. */
  datatype Ledger = Ledger(rows: seq<LogRow>, delivered: seq<Key>, unlogged: seq<Key>)

  /** How one attempt ends. A process that dies between a send and its log
      write has delivered and left the write unlogged. */
  datatype Outcome =
    | ReserveFails
    | DiesAfterReserving
    | TokenFails(logged: bool)
    | SendFails(logged: bool)
    | Delivered(logged: bool)

  function RowFor(rows: seq<LogRow>, k: Key): (r: Option<nat>)
    ensures r.None? ==> forall i :: 0 <= i < |rows| ==> !rows[i].For(k)
    ensures r.Some? ==> r.value < |rows| && rows[r.value].For(k)
  {
    if rows == [] then None
    else
      var last := |rows| - 1;
      if rows[last].For(k) then Some(last) else RowFor(rows[..last], k)
  }

  /** What BeginSchedulerEmailAttempt reserves: the row, and whether to send. */
  datatype Reservation = Reservation(rows: seq<LogRow>, log: nat, shouldSend: bool)

  function Begin(rows: seq<LogRow>, k: Key): (r: Reservation)
    ensures r.log < |r.rows| && r.rows[r.log].For(k)
  {
    match RowFor(rows, k)
    case Some(i) =>
      if rows[i].status.Sent? then Reservation(rows, i, false)
      else Reservation(rows[i := rows[i].(status := Pending)], i, true)
    case None => Reservation(rows + [LogRow(Some(k.event), k.user, k.kind, Pending)], |rows|, true)
  }

  function UpdateLog(rows: seq<LogRow>, i: nat, status: SendStatus): seq<LogRow> {
    if i < |rows| then rows[i := rows[i].(status := status)] else rows
  }

  /** One recipient's turn in the loop. */
  function Attempt(l: Ledger, k: Key, outcome: Outcome): Ledger {
    if outcome.ReserveFails? then l
    else
      var begun := Begin(l.rows, k);
      if !begun.shouldSend then l
      else
        match outcome
        case Delivered(logged) =>
          Ledger(if logged then UpdateLog(begun.rows, begun.log, Sent) else begun.rows,
                 l.delivered + [k],
                 if logged then l.unlogged else l.unlogged + [k])
        case TokenFails(true) => l.(rows := UpdateLog(begun.rows, begun.log, Failed))
        case SendFails(true) => l.(rows := UpdateLog(begun.rows, begun.log, Failed))
        case _ => l.(rows := begun.rows)
  }

  function Count(keys: seq<Key>, k: Key): (n: nat)
    ensures n == multiset(keys)[k]
  {
    if keys == [] then 0
    else
      assert keys == keys[..|keys| - 1] + [keys[|keys| - 1]];
      Count(keys[..|keys| - 1], k) + (if keys[|keys| - 1] == k then 1 else 0)
  }

  predicate IsSent(rows: seq<LogRow>, k: Key) { exists i :: 0 <= i < |rows| && rows[i].For(k) && rows[i].status.Sent? }

  ghost predicate OneRow(rows: seq<LogRow>, k: Key) {
    forall i, j :: 0 <= i < j < |rows| && rows[i].For(k) ==> !rows[j].For(k)
  }

  /** The ledger balances: each delivery is either the one the log records or
      one the log missed. */
  ghost predicate Balanced(l: Ledger, k: Key) {
    && OneRow(l.rows, k)
    && Count(l.delivered, k) == Count(l.unlogged, k) + (if IsSent(l.rows, k) then 1 else 0)
  }

  lemma {:induction false} CountAppend(keys: seq<Key>, x: Key, k: Key)
    ensures Count(keys + [x], k) == Count(keys, k) + (if x == k then 1 else 0)
  {
    assert (keys + [x])[..|keys|] == keys;
  }

  lemma BeginKeeps(rows: seq<LogRow>, k: Key, other: Key)
    requires OneRow(rows, other)
    ensures var begun := Begin(rows, k);
            && OneRow(begun.rows, other)
            && IsSent(begun.rows, other) == IsSent(rows, other)
            && (k == other ==> begun.shouldSend == !IsSent(rows, k))
  {
    var begun := Begin(rows, k);
    if IsSent(rows, other) {
      var i :| 0 <= i < |rows| && rows[i].For(other) && rows[i].status.Sent?;
      assert begun.rows[i] == rows[i];
    }
  }

  lemma UpdateKeeps(rows: seq<LogRow>, i: nat, status: SendStatus, other: Key)
    requires OneRow(rows, other) && i < |rows|
    ensures var after := UpdateLog(rows, i, status);
            && OneRow(after, other)
            && (IsSent(after, other) <==> if rows[i].For(other) then status.Sent? else IsSent(rows, other))
  {
    var after := UpdateLog(rows, i, status);
    if rows[i].For(other) && status.Sent? {
      assert after[i].For(other);
    } else if !rows[i].For(other) && IsSent(rows, other) {
      var a :| 0 <= a < |rows| && rows[a].For(other) && rows[a].status.Sent?;
      assert after[a] == rows[a];
    }
  }

  lemma AttemptBalances(l: Ledger, k: Key, outcome: Outcome, other: Key)
    requires Balanced(l, other)
    ensures Balanced(Attempt(l, k, outcome), other)
  {
    hide IsSent, OneRow, Begin, UpdateLog, Count;
    if !outcome.ReserveFails? {
      BeginKeeps(l.rows, k, other);
      var begun := Begin(l.rows, k);
      if begun.shouldSend {
        UpdateKeeps(begun.rows, begun.log, Sent, other);
        UpdateKeeps(begun.rows, begun.log, Failed, other);
        CountAppend(l.delivered, k, other);
        CountAppend(l.unlogged, k, other);
      }
    }
  }

  // ---- Runs --------------------------------------------------------------

  /** An attempt of the scheduler, or the row of a send an admin asked for,
      which no retry of an event ever touches. */
  datatype Step = Try(key: Key, outcome: Outcome) | ManualSend(user: nat, kind: EmailType, status: SendStatus)

  function Take(l: Ledger, step: Step): Ledger {
    match step
    case Try(k, outcome) => Attempt(l, k, outcome)
    case ManualSend(user, kind, status) => l.(rows := l.rows + [LogRow(None, user, kind, status)])
  }

  function Run(l: Ledger, steps: seq<Step>): Ledger {
    if steps == [] then l else Take(Run(l, steps[..|steps| - 1]), steps[|steps| - 1])
  }

  lemma {:induction false} RunOneMore(l: Ledger, steps: seq<Step>, last: Step)
    ensures Run(l, steps + [last]) == Take(Run(l, steps), last)
  {
    hide Take;
    assert (steps + [last])[..|steps|] == steps;
  }

  lemma TakeBalances(l: Ledger, step: Step, k: Key)
    requires Balanced(l, k)
    ensures Balanced(Take(l, step), k)
  {
    match step {
      case Try(key, outcome) => AttemptBalances(l, key, outcome, k);
      case ManualSend(user, kind, status) =>
        var after := Take(l, step);
        if IsSent(l.rows, k) {
          var i :| 0 <= i < |l.rows| && l.rows[i].For(k) && l.rows[i].status.Sent?;
          assert after.rows[i] == l.rows[i];
        }
    }
  }

  lemma {:induction false} RunBalances(l: Ledger, steps: seq<Step>, k: Key)
    requires Balanced(l, k)
    ensures Balanced(Run(l, steps), k)
  {
    if steps != [] {
      RunBalances(l, steps[..|steps| - 1], k);
      TakeBalances(Run(l, steps[..|steps| - 1]), steps[|steps| - 1], k);
    }
  }

  /** Across any retries, crashes and failures: a recipient has at most one log
      row for an event and type, and gets the email at most once, plus once for
      every "sent" the log lost. */
  lemma {:induction false} RetriesDeliverOnce(steps: seq<Step>, k: Key)
    ensures var l := Run(Ledger([], [], []), steps);
            && Count(l.delivered, k) <= 1 + Count(l.unlogged, k)
            && Count(l.unlogged, k) <= Count(l.delivered, k)
            && (forall i, j :: 0 <= i < j < |l.rows| && l.rows[i].For(k) ==> !l.rows[j].For(k))
            && (IsSent(l.rows, k) <==> Count(l.delivered, k) == 1 + Count(l.unlogged, k))
  {
    RunBalances(Ledger([], [], []), steps, k);
  }

  /** A retry is not lost on a recipient either: it goes out exactly when it
      can be reserved, no earlier one is on record and the send succeeds. */
  lemma {:induction false} AttemptDelivers(l: Ledger, k: Key, outcome: Outcome)
    requires Balanced(l, k)
    ensures Count(Attempt(l, k, outcome).delivered, k) == Count(l.delivered, k) + 1
            <==> outcome.Delivered? && !IsSent(l.rows, k)
  {
    BeginKeeps(l.rows, k, k);
    CountAppend(l.delivered, k, k);
  }

  /** What an attempt leaves in the log: the key's row as the outcome says, and
      every other row as it was. */
  lemma AttemptRecords(l: Ledger, k: Key, outcome: Outcome)
    requires Balanced(l, k)
    ensures var rows := Attempt(l, k, outcome).rows;
            if outcome == ReserveFails || IsSent(l.rows, k) then rows == l.rows
            else
              && |l.rows| <= |rows|
              && (forall i :: 0 <= i < |l.rows| && !l.rows[i].For(k) ==> rows[i] == l.rows[i])
              && (forall i :: |l.rows| <= i < |rows| ==> rows[i].For(k))
              && (exists i :: 0 <= i < |rows| && rows[i].For(k))
              && (forall i :: 0 <= i < |rows| && rows[i].For(k) ==>
                    rows[i].status == if outcome == Delivered(true) then Sent
                                      else if outcome == TokenFails(true) || outcome == SendFails(true) then Failed
                                      else Pending)
  {
    BeginKeeps(l.rows, k, k);
    var begun := Begin(l.rows, k);
    assert begun.rows[begun.log].For(k);
    if outcome != ReserveFails && !IsSent(l.rows, k) {
      assert Attempt(l, k, outcome).rows[begun.log].For(k);
    }
  }

  // ---- The send loop -----------------------------------------------------

  datatype Member = Member(user: nat, responded: bool, wantsReminders: bool)

  datatype Recipient = Recipient(user: nat, wantsReminders: bool)

  /** The members who have not answered. */
  function NonResponders(members: seq<Member>): seq<Recipient> {
    if members == [] then []
    else
      var last := members[|members| - 1];
      NonResponders(members[..|members| - 1])
      + (if last.responded then [] else [Recipient(last.user, last.wantsReminders)])
  }

  lemma {:induction false} NonRespondersAre(members: seq<Member>, r: Recipient)
    ensures r in NonResponders(members) <==> Member(r.user, false, r.wantsReminders) in members
  {
    if members != [] {
      var front, last := members[..|members| - 1], members[|members| - 1];
      NonRespondersAre(front, r);
      assert members == front + [last];
    }
  }

  /** The loop over the members who have not answered; the context may be
      cancelled before any one of them, which fails the handler. */
  function SendFrom(l: Ledger, event: nat, recipients: seq<Recipient>, outcomes: seq<Outcome>, n: nat): Ledger
    requires |outcomes| == |recipients| && n <= |recipients|
  {
    if n == 0 then l
    else
      var before := SendFrom(l, event, recipients, outcomes, n - 1);
      if !recipients[n - 1].wantsReminders then before
      else Attempt(before, Key(event, recipients[n - 1].user, Reminder), outcomes[n - 1])
  }

  /** A whole reminder batch is a run of attempts, so what holds of runs holds
      of any number of batches, complete or cut short. */
  lemma {:induction false} BatchIsARun(
    l: Ledger, event: nat, recipients: seq<Recipient>, outcomes: seq<Outcome>, n: nat) returns (steps: seq<Step>)
    requires |outcomes| == |recipients| && n <= |recipients|
    ensures SendFrom(l, event, recipients, outcomes, n) == Run(l, steps)
    ensures forall s :: s in steps ==> s.Try? && s.key.event == event && s.key.kind.Reminder?
  {
    hide Attempt;
    if n == 0 {
      steps := [];
    } else {
      steps := BatchIsARun(l, event, recipients, outcomes, n - 1);
      if recipients[n - 1].wantsReminders {
        var last := Try(Key(event, recipients[n - 1].user, Reminder), outcomes[n - 1]);
        RunOneMore(l, steps, last);
        hide Run;
        steps := steps + [last];
      }
    }
  }

  /** A recipient the loop got to, who wants reminders. */
  predicate Reached(recipients: seq<Recipient>, n: nat, user: nat)
    requires n <= |recipients|
  {
    exists i :: 0 <= i < n && recipients[i] == Recipient(user, true)
  }

  predicate Sends(recipients: seq<Recipient>, outcomes: seq<Outcome>, n: nat, user: nat)
    requires |outcomes| == |recipients| && n <= |recipients|
  {
    exists i :: 0 <= i < n && recipients[i] == Recipient(user, true) && outcomes[i].Delivered?
  }

  /** A batch over different users delivers the reminder of its event to exactly
      those it gets to who want reminders, whose send succeeds and who are not on
      record as having had it, once; and delivers nothing else to anyone. */
  lemma {:induction false} BatchDelivers(
    l: Ledger, event: nat, recipients: seq<Recipient>, outcomes: seq<Outcome>, n: nat, k: Key)
    requires |outcomes| == |recipients| && n <= |recipients|
    requires forall i, j :: 0 <= i < j < |recipients| ==> recipients[i].user != recipients[j].user
    requires Balanced(l, k)
    ensures var after := SendFrom(l, event, recipients, outcomes, n);
            var owed :=
              k.event == event && k.kind.Reminder? && Sends(recipients, outcomes, n, k.user) && !IsSent(l.rows, k);
            && Balanced(after, k)
            && Count(after.delivered, k) == Count(l.delivered, k) + (if owed then 1 else 0)
            && (!(k.event == event && k.kind.Reminder? && Reached(recipients, n, k.user)) ==>
                  IsSent(after.rows, k) == IsSent(l.rows, k))
  {
    if n > 0 {
      LastRecipient(recipients, outcomes, n, k.user);
      hide Attempt, Balanced, Count, IsSent, Sends, Reached;
      BatchDelivers(l, event, recipients, outcomes, n - 1, k);
      var before := SendFrom(l, event, recipients, outcomes, n - 1);
      var key := Key(event, recipients[n - 1].user, Reminder);
      AttemptBalances(before, key, outcomes[n - 1], k);
      DeliversAtMost(before, key, outcomes[n - 1], k);
      if key == k {
        AttemptDelivers(before, k, outcomes[n - 1]);
      }
    } else {
      assert !Sends(recipients, outcomes, 0, k.user);
    }
  }

  lemma LastRecipient(recipients: seq<Recipient>, outcomes: seq<Outcome>, n: nat, user: nat)
    requires |outcomes| == |recipients| && 0 < n <= |recipients|
    requires forall i, j :: 0 <= i < j < |recipients| ==> recipients[i].user != recipients[j].user
    ensures var last := recipients[n - 1] == Recipient(user, true);
            && (Reached(recipients, n, user) <==> Reached(recipients, n - 1, user) || last)
            && (Sends(recipients, outcomes, n, user) <==>
                  Sends(recipients, outcomes, n - 1, user) || (last && outcomes[n - 1].Delivered?))
            && (recipients[n - 1].user == user ==>
                  !Reached(recipients, n - 1, user) && !Sends(recipients, outcomes, n - 1, user))
  {
  }

  /** An attempt delivers its own key, once, or nothing. */
  lemma {:induction false} DeliversAtMost(l: Ledger, k: Key, outcome: Outcome, other: Key)
    requires Balanced(l, other)
    ensures var after := Attempt(l, k, outcome);
            && Count(l.delivered, other) <= Count(after.delivered, other) <= Count(l.delivered, other) + 1
            && (k != other ==>
                  Count(after.delivered, other) == Count(l.delivered, other)
                  && IsSent(after.rows, other) == IsSent(l.rows, other))
  {
    CountAppend(l.delivered, k, other);
    BeginKeeps(l.rows, k, other);
    var begun := Begin(l.rows, k);
    UpdateKeeps(begun.rows, begun.log, Sent, other);
    UpdateKeeps(begun.rows, begun.log, Failed, other);
    hide IsSent, OneRow, UpdateLog, Count, Begin;
  }

  /** Nor is a row written for anyone else. */
  lemma {:induction false} BatchRecords(
    l: Ledger, event: nat, recipients: seq<Recipient>, outcomes: seq<Outcome>, n: nat)
    requires |outcomes| == |recipients| && n <= |recipients|
    ensures var rows := SendFrom(l, event, recipients, outcomes, n).rows;
            && |l.rows| <= |rows|
            && (forall i :: 0 <= i < |rows| && (i < |l.rows| ==> rows[i] != l.rows[i]) ==>
                  rows[i].event == Some(event) && rows[i].kind.Reminder? && Reached(recipients, n, rows[i].user))
  {
    if n > 0 {
      BatchRecords(l, event, recipients, outcomes, n - 1);
      var before := SendFrom(l, event, recipients, outcomes, n - 1);
      AttemptTouches(before, Key(event, recipients[n - 1].user, Reminder), outcomes[n - 1]);
      hide Attempt;
    }
  }

  lemma AttemptTouches(l: Ledger, k: Key, outcome: Outcome)
    ensures var rows := Attempt(l, k, outcome).rows;
            && |l.rows| <= |rows|
            && (forall i :: 0 <= i < |rows| && (i < |l.rows| ==> rows[i] != l.rows[i]) ==> rows[i].For(k))
            && (forall i :: 0 <= i < |l.rows| ==> rows[i] == l.rows[i].(status := rows[i].status))
  {
  }

  class Mailer {
    var rows: seq<LogRow>
    ghost var delivered: seq<Key>
    ghost var unlogged: seq<Key>

    ghost function View(): Ledger
      reads this
    {
      Ledger(rows, delivered, unlogged)
    }

    /** Reserves the row of a recipient, as one transaction. */
    method BeginSchedulerEmailAttempt(k: Key) returns (log: nat, shouldSend: bool)
      modifies `rows
      ensures Reservation(rows, log, shouldSend) == Begin(old(rows), k)
    {
      var found := RowFor(rows, k);
      if found.Some? {
        if rows[found.value].status.Sent? {
          return found.value, false;
        }
        rows := rows[found.value := rows[found.value].(status := Pending)];
        return found.value, true;
      }
      rows := rows + [LogRow(Some(k.event), k.user, k.kind, Pending)];
      return |rows| - 1, true;
    }

    method UpdateEmailLog(i: nat, status: SendStatus, fails: bool)
      modifies `rows
      ensures rows == if fails then old(rows) else UpdateLog(old(rows), i, status)
    {
      if !fails && i < |rows| {
        rows := rows[i := rows[i].(status := status)];
      }
    }

    /** A send that an admin asks for has a row of no event. */
    method LogEmail(user: nat, kind: EmailType, status: SendStatus)
      modifies `rows
      ensures View() == Take(old(View()), ManualSend(user, kind, status))
      ensures rows == old(rows) + [LogRow(None, user, kind, status)]
    {
      rows := rows + [LogRow(None, user, kind, status)];
    }

    method SendReminderForIssue(event: nat, members: seq<Member>, outcomes: seq<Outcome>, cancelledAt: nat)
      returns (ok: bool)
      requires |outcomes| == |NonResponders(members)|
      modifies this
      ensures ok == (cancelledAt >= |NonResponders(members)|)
      ensures var recipients := NonResponders(members);
              View() == SendFrom(old(View()), event, recipients, outcomes, if ok then |recipients| else cancelledAt)
    {
      var recipients := [];
      assert members[..0] == [];
      for i := 0 to |members|
        invariant recipients == NonResponders(members[..i])
      {
        assert members[..i + 1][..i] == members[..i];
        if !members[i].responded {
          recipients := recipients + [Recipient(members[i].user, members[i].wantsReminders)];
        }
      }
      assert members[..|members|] == members;
      ok := SendReminder(event, recipients, outcomes, cancelledAt);
    }

    /** `cancelledAt` is how many recipients the loop gets through. */
    method SendReminder(event: nat, recipients: seq<Recipient>, outcomes: seq<Outcome>, cancelledAt: nat) returns (ok: bool)
      requires |outcomes| == |recipients|
      modifies this
      ensures ok == (cancelledAt >= |recipients|)
      ensures View() == SendFrom(old(View()), event, recipients, outcomes, if ok then |recipients| else cancelledAt)
    {
      hide Begin, UpdateLog;
      for n := 0 to |recipients|
        invariant n <= cancelledAt
        invariant View() == SendFrom(old(View()), event, recipients, outcomes, n)
      {
        if n == cancelledAt {
          return false;
        }
        if !recipients[n].wantsReminders || outcomes[n].ReserveFails? {
          continue;
        }
        var key := Key(event, recipients[n].user, Reminder);
        var before := rows;
        var log, shouldSend := BeginSchedulerEmailAttempt(key);
        if !shouldSend {
          SentStaysPut(before, key);
          continue;
        }
        match outcomes[n] {
          case TokenFails(logged) => UpdateEmailLog(log, Failed, !logged);
          case SendFails(logged) => UpdateEmailLog(log, Failed, !logged);
          case Delivered(logged) =>
            delivered := delivered + [key];
            if !logged {
              unlogged := unlogged + [key];
            }
            UpdateEmailLog(log, Sent, !logged);
          case _ =>
        }
      }
      return true;
    }
  }

  lemma SentStaysPut(rows: seq<LogRow>, k: Key)
    requires !Begin(rows, k).shouldSend
    ensures Begin(rows, k).rows == rows
  {
  }
}
