/** The comment-notification queue and the daily digest that drains it. */
module CommentDigest {

  /** One queued "someone commented" row: UNIQUE(recipient, comment). */
  datatype Note = Note(recipient: nat, comment: nat)

  datatype Listed = Listed(id: nat, note: Note)

  datatype Email = Email(recipient: nat, ids: seq<nat>)

  /** The queue; the next id the table hands out; the digests that got through;
      and the rows of those whose drain then failed. */
  datatype Box = Box(queue: map<nat, Note>, nextId: nat, emails: seq<Email>, undrained: seq<nat>)

  /** Other writers: a new comment, or one deleted with its notifications. */
  datatype Change = Enqueue(note: Note) | Cascade(comment: nat)

  datatype Outcome = Muted(drained: bool) | TokenFails | SendFails | Delivered(drained: bool)

  /** A recipient's turn: what others write meanwhile, and how it ends. */
  datatype Turn = Turn(changes: seq<Change>, outcome: Outcome)

  /** A recipient whose digest was never owed, or has been handed over. */
  predicate Settled(o: Outcome) { o.Muted? || o.Delivered? }

  predicate Drains(o: Outcome) { Settled(o) && o.drained }

  // ---- Statements --------------------------------------------------------

  function Apply(b: Box, c: Change): Box {
    match c
    case Enqueue(note) =>
      if note in b.queue.Values then b
      else b.(queue := b.queue[b.nextId := note], nextId := b.nextId + 1)
    case Cascade(comment) =>
      b.(queue := map id | id in b.queue && b.queue[id].comment != comment :: b.queue[id])
  }

  /** A new comment's pair is queued afterwards, under a new id unless it was
      already, and a deleted comment's pairs are not; every other row stays. */
  lemma ChangesQueue(b: Box, c: Change)
    requires forall id :: id in b.queue ==> id < b.nextId
    ensures var after := Apply(b, c);
            && after.emails == b.emails && after.undrained == b.undrained
            && (c.Enqueue? ==>
                  && (exists id :: id in after.queue && after.queue[id] == c.note)
                  && (forall id :: id in b.queue ==> id in after.queue && after.queue[id] == b.queue[id])
                  && (forall id :: id in after.queue && id !in b.queue ==>
                        id == b.nextId < after.nextId && after.queue[id] == c.note
                        && forall earlier :: earlier in b.queue ==> b.queue[earlier] != c.note))
            && (c.Cascade? ==>
                  && after.nextId == b.nextId
                  && (forall id :: id in after.queue <==> id in b.queue && b.queue[id].comment != c.comment)
                  && (forall id :: id in after.queue ==> after.queue[id] == b.queue[id]))
  {
    if c.Enqueue? {
      if c.note in b.queue.Values {
        var id :| id in b.queue && b.queue[id] == c.note;
        assert id in Apply(b, c).queue;
      } else {
        assert b.nextId in Apply(b, c).queue;
        assert forall id :: id in b.queue ==> b.queue[id] in b.queue.Values;
      }
    }
  }

  function ApplyAll(b: Box, changes: seq<Change>): Box {
    if changes == [] then b else Apply(ApplyAll(b, changes[..|changes| - 1]), changes[|changes| - 1])
  }

  function Drain(b: Box, ids: seq<nat>): Box {
    b.(queue := map id | id in b.queue && id !in ids :: b.queue[id])
  }

  function Ids(batch: seq<Listed>): (r: seq<nat>)
    ensures |r| == |batch|
  {
    seq(|batch|, i requires 0 <= i < |batch| => batch[i].id)
  }

  /** sendCommentDigest for one recipient's rows. */
  function DigestBatch(b: Box, batch: seq<Listed>, t: Turn): Box
    requires batch != []
  {
    var others := ApplyAll(b, t.changes);
    var after := if Drains(t.outcome) then Drain(others, Ids(batch)) else others;
    if t.outcome.Delivered? then
      after.(emails := after.emails + [Email(batch[0].note.recipient, Ids(batch))],
             undrained := if t.outcome.drained then after.undrained else after.undrained + Ids(batch))
    else after
  }

  // ---- The walk ----------------------------------------------------------

  predicate Sorted(p: seq<Listed>) {
    forall i, j :: 0 <= i < j < |p| ==> p[i].note.recipient <= p[j].note.recipient
  }

  /** Where the run that `end` belongs to stops. */
  function RunEnd(p: seq<Listed>, start: nat, end: nat): (r: nat)
    requires start < end <= |p|
    requires forall i :: start <= i < end ==> p[i].note.recipient == p[start].note.recipient
    ensures end <= r <= |p|
    ensures forall i :: start <= i < r ==> p[i].note.recipient == p[start].note.recipient
    ensures r < |p| ==> p[r].note.recipient != p[start].note.recipient
    decreases |p| - end
  {
    if end < |p| && p[end].note.recipient == p[start].note.recipient then RunEnd(p, start, end + 1) else end
  }

  function DigestFrom(b: Box, p: seq<Listed>, start: nat, turns: nat -> Turn): Box
    requires start <= |p|
    decreases |p| - start
  {
    if start == |p| then b
    else
      var end := RunEnd(p, start, start + 1);
      DigestFrom(DigestBatch(b, p[start..end], turns(p[start].note.recipient)), p, end, turns)
  }

  /** All rows of one recipient. */
  function RowsFor(p: seq<Listed>, recipient: nat): seq<Listed> {
    if p == [] then []
    else RowsFor(p[..|p| - 1], recipient) + (if p[|p| - 1].note.recipient == recipient then [p[|p| - 1]] else [])
  }

  lemma {:induction false} RowsForNone(p: seq<Listed>, recipient: nat)
    requires forall i :: 0 <= i < |p| ==> p[i].note.recipient != recipient
    ensures RowsFor(p, recipient) == []
  {
    if p != [] {
      RowsForNone(p[..|p| - 1], recipient);
    }
  }

  lemma {:induction false} RowsForRun(p: seq<Listed>, start: nat, end: nat, recipient: nat)
    requires start <= end <= |p|
    requires forall i :: 0 <= i < |p| ==> (p[i].note.recipient == recipient <==> start <= i < end)
    ensures RowsFor(p, recipient) == p[start..end]
  {
    if end < |p| {
      RowsForRun(p[..|p| - 1], start, end, recipient);
      assert p[..|p| - 1][start..end] == p[start..end];
    } else if start < end {
      RowsForRun(p[..|p| - 1], start, end - 1, recipient);
      assert p[..|p| - 1][start..end - 1] + [p[|p| - 1]] == p[start..end];
    } else {
      RowsForNone(p, recipient);
    }
  }

  /** In a sorted list the run found is the whole of its recipient's rows. */
  lemma RunIsWhole(p: seq<Listed>, start: nat)
    requires Sorted(p) && start < |p|
    requires start > 0 ==> p[start - 1].note.recipient != p[start].note.recipient
    ensures p[start..RunEnd(p, start, start + 1)] == RowsFor(p, p[start].note.recipient)
  {
    var end := RunEnd(p, start, start + 1);
    var recipient := p[start].note.recipient;
    forall i | 0 <= i < |p| ensures p[i].note.recipient == recipient <==> start <= i < end {
      if i < start {
        assert p[i].note.recipient <= p[start - 1].note.recipient;
      } else if i > end {
        assert p[end].note.recipient <= p[i].note.recipient;
      }
    }
    RowsForRun(p, start, end, recipient);
  }

  predicate Before(p: seq<Listed>, start: nat, recipient: nat)
    requires start <= |p|
  {
    exists i :: 0 <= i < start && p[i].note.recipient == recipient
  }

  predicate Boundary(p: seq<Listed>, start: nat)
    requires start <= |p|
  {
    0 < start < |p| ==> p[start - 1].note.recipient != p[start].note.recipient
  }

  predicate Recipient(p: seq<Listed>, recipient: nat) { exists i :: 0 <= i < |p| && p[i].note.recipient == recipient }

  /** Emails still to come from the walk at `start`. */
  function EmailsTo(emails: seq<Email>, recipient: nat): seq<Email> {
    if emails == [] then []
    else EmailsTo(emails[..|emails| - 1], recipient)
         + (if emails[|emails| - 1].recipient == recipient then [emails[|emails| - 1]] else [])
  }

  lemma {:induction false} EmailsOfApplyAll(b: Box, changes: seq<Change>)
    ensures ApplyAll(b, changes).emails == b.emails && ApplyAll(b, changes).undrained == b.undrained
  {
    if changes != [] {
      EmailsOfApplyAll(b, changes[..|changes| - 1]);
    }
  }

  lemma {:induction false} BatchEmails(b: Box, batch: seq<Listed>, t: Turn, recipient: nat)
    requires batch != []
    ensures EmailsTo(DigestBatch(b, batch, t).emails, recipient)
         == EmailsTo(b.emails, recipient)
            + (if t.outcome.Delivered? && batch[0].note.recipient == recipient then [Email(recipient, Ids(batch))] else [])
  {
    EmailsOfApplyAll(b, t.changes);
    var after := DigestBatch(b, batch, t).emails;
    if t.outcome.Delivered? {
      assert after[..|after| - 1] == b.emails;
    }
  }

  /** The emails a recipient is still owed by the walk at `start`. */
  function Due(p: seq<Listed>, start: nat, turns: nat -> Turn, recipient: nat): seq<Email>
    requires start <= |p|
  {
    if Recipient(p, recipient) && !Before(p, start, recipient) && turns(recipient).outcome.Delivered?
    then [Email(recipient, Ids(RowsFor(p, recipient)))] else []
  }

  lemma DueStep(p: seq<Listed>, start: nat, turns: nat -> Turn, recipient: nat)
    requires Sorted(p) && start < |p| && Boundary(p, start)
    ensures var end := RunEnd(p, start, start + 1);
            && Boundary(p, end)
            && Due(p, start, turns, recipient)
               == (if turns(p[start].note.recipient).outcome.Delivered? && p[start].note.recipient == recipient
                   then [Email(recipient, Ids(p[start..end]))] else [])
                  + Due(p, end, turns, recipient)
  {
    RunIsWhole(p, start);
    hide RowsFor, Ids, Sorted, Before, Boundary, Recipient, RunEnd;
  }

  lemma {:induction false} WalkEmails(b: Box, p: seq<Listed>, start: nat, turns: nat -> Turn, recipient: nat)
    requires Sorted(p) && start <= |p| && Boundary(p, start)
    ensures EmailsTo(DigestFrom(b, p, start, turns).emails, recipient)
         == EmailsTo(b.emails, recipient) + Due(p, start, turns, recipient)
    decreases |p| - start
  {
    hide EmailsTo, DigestBatch, Ids, Sorted, Boundary, RunEnd;
    if start < |p| {
      hide Due;
      DueStep(p, start, turns, recipient);
      var end := RunEnd(p, start, start + 1);
      var turn := turns(p[start].note.recipient);
      BatchEmails(b, p[start..end], turn, recipient);
      WalkEmails(DigestBatch(b, p[start..end], turn), p, end, turns, recipient);
    }
  }

  /** Every recipient on the list whose send succeeds gets exactly one email,
      naming all of the recipient's rows in order; nobody else gets any. */
  lemma {:induction false} OneDigestEach(b: Box, p: seq<Listed>, turns: nat -> Turn, recipient: nat)
    requires Sorted(p)
    ensures EmailsTo(DigestFrom(b, p, 0, turns).emails, recipient)
         == EmailsTo(b.emails, recipient)
            + (if Recipient(p, recipient) && turns(recipient).outcome.Delivered?
               then [Email(recipient, Ids(RowsFor(p, recipient)))] else [])
  {
    hide EmailsTo, DigestFrom, RowsFor, Ids;
    WalkEmails(b, p, 0, turns, recipient);
  }

  // ---- What stays queued -------------------------------------------------

  predicate CascadeIn(changes: seq<Change>, comment: nat) { Cascade(comment) in changes }

  lemma {:induction false} QueueAfterChanges(b: Box, changes: seq<Change>, id: nat)
    requires id < b.nextId
    ensures ApplyAll(b, changes).nextId >= b.nextId
    ensures id in ApplyAll(b, changes).queue <==> id in b.queue && !CascadeIn(changes, b.queue[id].comment)
    ensures id in ApplyAll(b, changes).queue ==> ApplyAll(b, changes).queue[id] == b.queue[id]
  {
    if changes != [] {
      var before := changes[..|changes| - 1];
      QueueAfterChanges(b, before, id);
      assert changes == before + [changes[|changes| - 1]];
    }
  }

  /** A turn settles the rows of its batch and spares every other row, late
      arrivals included. */
  lemma {:induction false} BatchSpares(b: Box, batch: seq<Listed>, t: Turn, id: nat)
    requires batch != []
    ensures id in DigestBatch(b, batch, t).queue
            <==> id in ApplyAll(b, t.changes).queue && !(Drains(t.outcome) && id in Ids(batch))
    ensures id in DigestBatch(b, batch, t).queue ==> DigestBatch(b, batch, t).queue[id] == ApplyAll(b, t.changes).queue[id]
    ensures DigestBatch(b, batch, t).nextId == ApplyAll(b, t.changes).nextId
  {
  }

  /** A deletion of the comment reaches the queue while the walk runs. */
  predicate Cascaded(p: seq<Listed>, start: nat, turns: nat -> Turn, comment: nat)
    requires start <= |p|
  {
    exists i :: start <= i < |p| && CascadeIn(turns(p[i].note.recipient).changes, comment)
  }

  /** The listing's row for an id. */
  predicate Lists(p: seq<Listed>, id: nat, note: Note) { Listed(id, note) in p }

  lemma {:induction false} WalkQueue(b: Box, p: seq<Listed>, start: nat, turns: nat -> Turn, id: nat, note: Note)
    requires start <= |p| && id < b.nextId
    requires id in b.queue ==> b.queue[id] == note
    requires forall i, j :: 0 <= i < j < |p| ==> p[i].id != p[j].id
    ensures id in DigestFrom(b, p, start, turns).queue
            <==> && id in b.queue
                 && !Cascaded(p, start, turns, note.comment)
                 && !(exists i :: start <= i < |p| && p[i].id == id && Drains(turns(p[i].note.recipient).outcome))
    decreases |p| - start
  {
    if start < |p| {
      var end := RunEnd(p, start, start + 1);
      var turn := turns(p[start].note.recipient);
      var batch := p[start..end];
      QueueAfterChanges(b, turn.changes, id);
      BatchSpares(b, batch, turn, id);
      WalkQueue(DigestBatch(b, batch, turn), p, end, turns, id, note);
      assert CascadeIn(turn.changes, note.comment) || Cascaded(p, end, turns, note.comment)
             <==> Cascaded(p, start, turns, note.comment);
      assert forall i :: start <= i < end ==> turns(p[i].note.recipient) == turn && p[i].id == Ids(batch)[i - start];
      assert id in Ids(batch) <==> exists i :: start <= i < end && p[i].id == id;
    }
  }

  /** A listing of the queue: every row once, grouped by recipient. */
  ghost predicate ListingOf(b: Box, p: seq<Listed>) {
    && Sorted(p)
    && (forall i, j :: 0 <= i < j < |p| ==> p[i].id != p[j].id)
    && (forall i :: 0 <= i < |p| ==> p[i].id in b.queue && b.queue[p[i].id] == p[i].note)
    && (forall id :: id in b.queue ==> id < b.nextId && Listed(id, b.queue[id]) in p)
  }

  /** After the digest exactly these of the rows it started from are left:
      those whose recipient's digest failed, or could not be drained, less the
      ones whose comment was deleted meanwhile. */
  lemma {:induction false} DigestLeaves(b: Box, p: seq<Listed>, turns: nat -> Turn, id: nat)
    requires ListingOf(b, p) && id in b.queue
    ensures id in DigestFrom(b, p, 0, turns).queue
            <==> && turns(b.queue[id].recipient).outcome != Muted(true)
                 && turns(b.queue[id].recipient).outcome != Delivered(true)
                 && !Cascaded(p, 0, turns, b.queue[id].comment)
  {
    WalkQueue(b, p, 0, turns, id, b.queue[id]);
    var k :| 0 <= k < |p| && p[k] == Listed(id, b.queue[id]);
    if Drains(turns(b.queue[id].recipient).outcome) {
      assert p[k].id == id;
    }
  }

  // ---- Over many days ----------------------------------------------------

  function CountId(ids: seq<nat>, id: nat): nat {
    if ids == [] then 0 else CountId(ids[..|ids| - 1], id) + (if ids[|ids| - 1] == id then 1 else 0)
  }

  /** How often a row went out. */
  function TimesSent(emails: seq<Email>, id: nat): nat {
    if emails == [] then 0 else TimesSent(emails[..|emails| - 1], id) + CountId(emails[|emails| - 1].ids, id)
  }

  /** A row's sends match its failed drains. */
  predicate Even(b: Box, id: nat) { TimesSent(b.emails, id) == CountId(b.undrained, id) }

  /** A queued row has gone out once for each drain that failed on it, a row no
      longer queued at most once more; and no pair is queued twice. */
  ghost predicate Fair(b: Box) {
    && (forall id :: id in b.queue ==> id < b.nextId && Even(b, id))
    && (forall i, j :: i in b.queue && j in b.queue && i != j ==> b.queue[i] != b.queue[j])
    && (forall id: nat :: TimesSent(b.emails, id) <= CountId(b.undrained, id) + 1)
    && (forall id: nat :: id >= b.nextId ==> Even(b, id))
  }

  lemma {:induction false} ChangesFair(b: Box, changes: seq<Change>)
    requires Fair(b)
    ensures Fair(ApplyAll(b, changes))
    ensures b.nextId <= ApplyAll(b, changes).nextId
    ensures forall id: nat :: Even(ApplyAll(b, changes), id) == Even(b, id)
  {
    EmailsOfApplyAll(b, changes);
    if changes != [] {
      ChangesFair(b, changes[..|changes| - 1]);
      ChangeFair(ApplyAll(b, changes[..|changes| - 1]), changes[|changes| - 1]);
    }
  }

  lemma ChangeFair(b: Box, c: Change)
    requires Fair(b)
    ensures Fair(Apply(b, c))
  {
    hide TimesSent, CountId;
    match c {
      case Enqueue(note) =>
        if note !in b.queue.Values {
          assert forall id :: id in b.queue ==> b.queue[id] in b.queue.Values;
          assert forall id: nat :: Even(Apply(b, c), id) == Even(b, id);
        }
      case Cascade(_) =>
        assert forall id: nat :: Even(Apply(b, c), id) == Even(b, id);
    }
  }

  lemma {:induction false} CountDistinct(ids: seq<nat>, id: nat)
    requires forall i, j :: 0 <= i < j < |ids| ==> ids[i] != ids[j]
    ensures CountId(ids, id) == if id in ids then 1 else 0
  {
    if ids != [] {
      CountDistinct(ids[..|ids| - 1], id);
      assert ids == ids[..|ids| - 1] + [ids[|ids| - 1]];
    }
  }

  lemma {:induction false} CountConcat(a: seq<nat>, b: seq<nat>, id: nat)
    ensures CountId(a + b, id) == CountId(a, id) + CountId(b, id)
  {
    if b == [] {
      assert a + b == a;
    } else {
      CountConcat(a, b[..|b| - 1], id);
      assert (a + b)[..|a + b| - 1] == a + b[..|b| - 1];
    }
  }

  lemma {:induction false} BatchTallies(b: Box, batch: seq<Listed>, t: Turn, id: nat)
    requires batch != [] && forall i, j :: 0 <= i < j < |batch| ==> batch[i].id != batch[j].id
    ensures var r := DigestBatch(b, batch, t);
            var hit := if t.outcome.Delivered? && id in Ids(batch) then 1 else 0;
            && TimesSent(r.emails, id) == TimesSent(b.emails, id) + hit
            && CountId(r.undrained, id) == CountId(b.undrained, id) + (if Drains(t.outcome) then 0 else hit)
  {
    EmailsOfApplyAll(b, t.changes);
    hide ApplyAll;
    CountDistinct(Ids(batch), id);
    CountConcat(b.undrained, Ids(batch), id);
  }

  lemma BatchFair(b: Box, batch: seq<Listed>, t: Turn)
    requires batch != [] && forall i, j :: 0 <= i < j < |batch| ==> batch[i].id != batch[j].id
    requires Fair(b) && forall i :: 0 <= i < |batch| ==> batch[i].id < b.nextId && Even(b, batch[i].id)
    ensures Fair(DigestBatch(b, batch, t))
    ensures b.nextId <= DigestBatch(b, batch, t).nextId
    ensures forall id: nat :: id !in Ids(batch) ==> Even(DigestBatch(b, batch, t), id) == Even(b, id)
  {
    ChangesFair(b, t.changes);
    EmailsOfApplyAll(b, t.changes);
    var r := DigestBatch(b, batch, t);
    forall id: nat
      ensures TimesSent(r.emails, id) <= CountId(r.undrained, id) + 1
      ensures id !in Ids(batch) || !Drains(t.outcome) ==> Even(r, id) == Even(b, id)
    {
      hide *;
      BatchEvens(b, batch, t, id);
    }
    assert forall i :: 0 <= i < |batch| ==> Ids(batch)[i] < b.nextId;
    hide TimesSent, CountId, ApplyAll, Even;
  }

  lemma {:induction false} BatchEvens(b: Box, batch: seq<Listed>, t: Turn, id: nat)
    requires batch != [] && forall i, j :: 0 <= i < j < |batch| ==> batch[i].id != batch[j].id
    requires Fair(b) && forall i :: 0 <= i < |batch| ==> Even(b, batch[i].id)
    ensures var r := DigestBatch(b, batch, t);
            && TimesSent(r.emails, id) <= CountId(r.undrained, id) + 1
            && (id !in Ids(batch) || !Drains(t.outcome) ==> Even(r, id) == Even(b, id))
  {
    BatchTallies(b, batch, t, id);
    hide TimesSent, CountId, DigestBatch;
    if id in Ids(batch) {
      var k :| 0 <= k < |batch| && Ids(batch)[k] == id;
      assert Even(b, batch[k].id);
    }
  }

  lemma {:induction false} WalkFair(b: Box, p: seq<Listed>, start: nat, turns: nat -> Turn)
    requires start <= |p| && Fair(b)
    requires forall i, j :: 0 <= i < j < |p| ==> p[i].id != p[j].id
    requires forall i :: start <= i < |p| ==> p[i].id < b.nextId && Even(b, p[i].id)
    ensures Fair(DigestFrom(b, p, start, turns))
    decreases |p| - start
  {
    hide Fair, DigestBatch, Even;
    if start < |p| {
      var end := RunEnd(p, start, start + 1);
      var batch := p[start..end];
      var r := DigestBatch(b, batch, turns(p[start].note.recipient));
      assert forall i :: 0 <= i < |batch| ==> batch[i] == p[start + i];
      BatchFair(b, batch, turns(p[start].note.recipient));
      forall i | end <= i < |p| ensures p[i].id < r.nextId && Even(r, p[i].id) {
        assert forall k :: 0 <= k < |batch| ==> Ids(batch)[k] == p[start + k].id;
        assert p[i].id !in Ids(batch);
      }
      WalkFair(r, p, end, turns);
    }
  }

  /** A day: what happens before the digest, then the digest over a listing. */
  datatype Day = Day(changes: seq<Change>, listing: seq<Listed>, turns: nat -> Turn)

  ghost function Live(b: Box, days: seq<Day>): Box {
    if days == [] then b
    else
      var day := days[|days| - 1];
      DigestFrom(ApplyAll(Live(b, days[..|days| - 1]), day.changes), day.listing, 0, day.turns)
  }

  /** Each day's digest listed the queue as it stood. */
  ghost predicate Listings(b: Box, days: seq<Day>) {
    days == []
    || (&& Listings(b, days[..|days| - 1])
        && ListingOf(ApplyAll(Live(b, days[..|days| - 1]), days[|days| - 1].changes), days[|days| - 1].listing))
  }

  /** However long it runs: a row goes out at most once, plus once for every
      time it could not be drained after going out, and while it is queued no
      pair of recipient and comment is queued beside it. */
  lemma {:induction false} RowsGoOutOnce(days: seq<Day>)
    requires Listings(Box(map[], 0, [], []), days)
    ensures Fair(Live(Box(map[], 0, [], []), days))
  {
    var empty := Box(map[], 0, [], []);
    if days != [] {
      var day := days[|days| - 1];
      var before := Live(empty, days[..|days| - 1]);
      RowsGoOutOnce(days[..|days| - 1]);
      ChangesFair(before, day.changes);
      WalkFair(ApplyAll(before, day.changes), day.listing, 0, day.turns);
    }
  }

  // ---- The loop ----------------------------------------------------------

  class Digests {
    var queue: map<nat, Note>
    var nextId: nat
    ghost var emails: seq<Email>
    ghost var undrained: seq<nat>

    ghost function View(): Box
      reads this
    {
      Box(queue, nextId, emails, undrained)
    }

    method EnqueueCommentNotification(note: Note)
      modifies this
      ensures View() == Apply(old(View()), Enqueue(note))
    {
      if note !in queue.Values {
        queue := queue[nextId := note];
        nextId := nextId + 1;
      }
    }

    method DeleteCommentNotifications(ids: seq<nat>)
      modifies `queue
      ensures View() == Drain(old(View()), ids)
    {
      queue := map id | id in queue && id !in ids :: queue[id];
    }

    method Meanwhile(changes: seq<Change>)
      modifies this
      ensures View() == ApplyAll(old(View()), changes)
    {
      assert changes[..0] == [];
      for k := 0 to |changes|
        invariant View() == ApplyAll(old(View()), changes[..k])
      {
        assert changes[..k + 1][..k] == changes[..k];
        match changes[k] {
          case Enqueue(note) => EnqueueCommentNotification(note);
          case Cascade(comment) => queue := map id | id in queue && queue[id].comment != comment :: queue[id];
        }
      }
      assert changes[..|changes|] == changes;
    }

    method SendCommentDigest(batch: seq<Listed>, turn: Turn) returns (sent: bool)
      requires batch != []
      modifies this
      ensures View() == DigestBatch(old(View()), batch, turn)
      ensures sent == turn.outcome.Delivered?
    {
      hide ApplyAll;
      var ids := [];
      for i := 0 to |batch|
        invariant |ids| == i && forall j :: 0 <= j < i ==> ids[j] == batch[j].id
      {
        ids := ids + [batch[i].id];
      }
      assert ids == Ids(batch);
      Meanwhile(turn.changes);
      match turn.outcome {
        case Muted(drained) =>
          if drained {
            DeleteCommentNotifications(ids);
          }
          return false;
        case TokenFails => return false;
        case SendFails => return false;
        case Delivered(drained) =>
          emails := emails + [Email(batch[0].note.recipient, ids)];
          if drained {
            DeleteCommentNotifications(ids);
          } else {
            undrained := undrained + ids;
          }
          return true;
      }
    }

    /** Walks the listing run by run. */
    method SendCommentDigests(pending: seq<Listed>, turns: nat -> Turn)
      modifies this
      ensures View() == DigestFrom(old(View()), pending, 0, turns)
    {
      var start := 0;
      while start < |pending|
        invariant 0 <= start <= |pending|
        invariant DigestFrom(View(), pending, start, turns) == DigestFrom(old(View()), pending, 0, turns)
      {
        var end := start;
        while end < |pending| && pending[end].note.recipient == pending[start].note.recipient
          invariant start <= end <= |pending|
          invariant forall i :: start <= i < end ==> pending[i].note.recipient == pending[start].note.recipient
          invariant end == start || RunEnd(pending, start, end) == RunEnd(pending, start, start + 1)
        {
          end := end + 1;
        }
        var _ := SendCommentDigest(pending[start..end], turns(pending[start].note.recipient));
        start := end;
      }
    }
  }
}
