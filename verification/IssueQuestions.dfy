/** The question set of one upcoming round: suggestions, preparation and order. */
module IssueQuestions {
  import opened Options
  import opened QuestionPicker
  import opened RoundTiming
  import opened SchedulerPolicy

  datatype Source = Friend | Default | Bank

  datatype Question = Question(id: nat, text: string, source: Source, order: int)

  /** A draft with its questions, the bank of its loop, and the enabled default
      questions in their own order. */
  datatype QuestionSet = QuestionSet(
    status: Status, opensAt: Instant, curated: bool,
    questions: seq<Question>, nextId: nat, bank: seq<BankQuestion>, defaults: seq<string>)

  // ---- CreateSuggestedQuestion -------------------------------------------

  predicate Accepting(r: QuestionSet, now: Instant) { r.status.Draft? && r.opensAt > now && !r.curated }

  /** COALESCE(MAX(sort_order) + 1, 0). */
  function NextOrder(questions: seq<Question>): (r: int)
    ensures questions == [] ==> r == 0
    ensures questions != [] ==>
              (forall q :: q in questions ==> q.order < r) && exists q :: q in questions && q.order == r - 1
  {
    if |questions| == 0 then 0
    else if |questions| == 1 then questions[0].order + 1
    else
      var last := questions[|questions| - 1];
      var r := NextOrder(questions[..|questions| - 1]);
      assert questions == questions[..|questions| - 1] + [last];
      if last.order + 1 > r then last.order + 1 else r
  }

  function Add(r: QuestionSet, text: string, source: Source, order: int): QuestionSet {
    r.(questions := r.questions + [Question(r.nextId, text, source, order)], nextId := r.nextId + 1)
  }

  function Suggest(r: QuestionSet, text: string, now: Instant): Option<QuestionSet> {
    if Accepting(r, now) then Some(Add(r, text, Friend, NextOrder(r.questions))) else None
  }

  // ---- PrepareDraftQuestions ---------------------------------------------

  predicate HasDefaults(questions: seq<Question>): (has: bool)
    ensures has <==> exists q :: q in questions && q.source == Default
  {
    exists i :: 0 <= i < |questions| && questions[i].source.Default?
  }

  function AddDefaults(r: QuestionSet, texts: seq<string>, order: int): QuestionSet
    decreases |texts|
  {
    if texts == [] then r else AddDefaults(Add(r, texts[0], Default, order), texts[1..], order + 1)
  }

  function MarkUsed(bank: seq<BankQuestion>, id: nat): (b: seq<BankQuestion>)
    ensures |b| == |bank|
  {
    seq(|bank|, i requires 0 <= i < |bank| => if bank[i].id == id then bank[i].(used := true) else bank[i])
  }

  function AddPicked(r: QuestionSet, picked: seq<BankQuestion>, order: int): QuestionSet
    decreases |picked|
  {
    if picked == [] then r
    else AddPicked(Add(r, picked[0].text, Bank, order).(bank := MarkUsed(r.bank, picked[0].id)), picked[1..], order + 1)
  }

  datatype Prepared = Done(round: QuestionSet) | NotCuratable | BadTarget

  /** How many bank questions preparing asks for. */
  function Need(r: QuestionSet, target: int): int {
    target - |r.questions| - (if HasDefaults(r.questions) then 0 else |r.defaults|)
  }

  /** One transaction; `picked` is what the picker came up with. Numbering
      starts from the count of questions, not from the highest order. */
  function Prepare(r: QuestionSet, target: int, now: Instant, picked: seq<BankQuestion>): Prepared {
    if target <= 0 then BadTarget
    else if r.curated then Done(r)
    else if !r.status.Draft? || r.opensAt <= now then NotCuratable
    else
      var stitched := if HasDefaults(r.questions) then r else AddDefaults(r, r.defaults, |r.questions|);
      Done(AddPicked(stitched, picked, |stitched.questions|).(curated := true))
  }

  // ---- ReorderQuestions --------------------------------------------------

  predicate Unique(ids: seq<nat>) { forall i, j :: 0 <= i < j < |ids| ==> ids[i] != ids[j] }

  function SetOrder(questions: seq<Question>, id: nat, order: int): (r: seq<Question>)
    ensures |r| == |questions|
  {
    seq(|questions|, i requires 0 <= i < |questions| =>
      if questions[i].id == id then questions[i].(order := order) else questions[i])
  }

  function Reordered(questions: seq<Question>, ids: seq<nat>, n: nat): (r: seq<Question>)
    requires n <= |ids|
    ensures |r| == |questions|
    ensures forall i :: 0 <= i < |questions| ==> r[i] == questions[i].(order := r[i].order)
  {
    if n == 0 then questions else SetOrder(Reordered(questions, ids, n - 1), ids[n - 1], n - 1)
  }

  predicate HasId(questions: seq<Question>, id: nat) { exists i :: 0 <= i < |questions| && questions[i].id == id }

  predicate Accepts(questions: seq<Question>, ids: seq<nat>) {
    && |ids| == |questions|
    && Unique(ids)
    && (forall i :: 0 <= i < |ids| ==> HasId(questions, ids[i]))
  }

  function Reorder(r: QuestionSet, ids: seq<nat>): Option<QuestionSet> {
    if Accepts(r.questions, ids) then Some(r.(questions := Reordered(r.questions, ids, |ids|))) else None
  }

  // ---- What a request comes to -------------------------------------------

  /** A suggestion enters a draft that has not opened and is not curated, and no
      other: as the last question, a friend's, one past the highest order. */
  lemma SuggestOutcome(r: QuestionSet, text: string, now: Instant)
    ensures var after := Suggest(r, text, now);
            && (after.Some? <==> r.status == Draft && r.opensAt > now && !r.curated)
            && (after.Some? ==>
                  exists order ::
                    && after.value == r.(questions := r.questions + [Question(r.nextId, text, Friend, order)],
                                         nextId := r.nextId + 1)
                    && (r.questions == [] ==> order == 0)
                    && (forall q :: q in r.questions ==> q.order < order)
                    && (r.questions != [] ==> exists q :: q in r.questions && q.order == order - 1))
  {
    if Suggest(r, text, now).Some? {
      var order := NextOrder(r.questions);
      hide NextOrder;
      assert Suggest(r, text, now).value
          == r.(questions := r.questions + [Question(r.nextId, text, Friend, order)], nextId := r.nextId + 1);
    }
  }

  /** Preparing needs a positive target; a curated set stays as it is; and only
      a draft that has not opened can be prepared, which leaves its schedule and
      its defaults alone. */
  lemma PrepareOutcome(r: QuestionSet, target: int, now: Instant, picked: seq<BankQuestion>)
    ensures var result := Prepare(r, target, now, picked);
            if target <= 0 then result == BadTarget
            else if r.curated then result == Done(r)
            else if r.status != Draft || r.opensAt <= now then result == NotCuratable
            else
              && result.Done? && result.round.curated
              && result.round == r.(curated := true, questions := result.round.questions, nextId := result.round.nextId,
                                    bank := result.round.bank)
  {
    AddDefaultsFrame(r, r.defaults, |r.questions|);
    var stitched := if HasDefaults(r.questions) then r else AddDefaults(r, r.defaults, |r.questions|);
    AddPickedFrame(stitched, picked, |stitched.questions|);
  }

  lemma {:induction false} AddDefaultsFrame(r: QuestionSet, texts: seq<string>, order: int)
    ensures var after := AddDefaults(r, texts, order);
            after == r.(questions := after.questions, nextId := after.nextId)
    decreases |texts|
  {
    if texts != [] {
      AddDefaultsFrame(Add(r, texts[0], Default, order), texts[1..], order + 1);
    }
  }

  lemma {:induction false} AddPickedFrame(r: QuestionSet, picked: seq<BankQuestion>, order: int)
    ensures var after := AddPicked(r, picked, order);
            after == r.(questions := after.questions, nextId := after.nextId, bank := after.bank)
    decreases |picked|
  {
    if picked != [] {
      AddPickedFrame(Add(r, picked[0].text, Bank, order).(bank := MarkUsed(r.bank, picked[0].id)), picked[1..], order + 1);
    }
  }

  // ---- What holds of a question set --------------------------------------

  /** Ids are distinct, and handed out in advance of `nextId`. */
  ghost predicate Keyed(r: QuestionSet) {
    && (forall i, j :: 0 <= i < j < |r.questions| ==> r.questions[i].id != r.questions[j].id)
    && (forall i :: 0 <= i < |r.questions| ==> r.questions[i].id < r.nextId)
  }

  /** The orders are 0, 1, ..., n-1, in some arrangement. */
  ghost predicate Dense(questions: seq<Question>) {
    && (forall i :: 0 <= i < |questions| ==> 0 <= questions[i].order < |questions|)
    && (forall i, j :: 0 <= i < j < |questions| ==> questions[i].order != questions[j].order)
  }

  function IdsOf(questions: seq<Question>): (r: seq<nat>)
    ensures |r| == |questions|
  {
    seq(|questions|, i requires 0 <= i < |questions| => questions[i].id)
  }

  function Range(n: nat): (r: set<int>)
    ensures |r| == n && forall k :: k in r <==> 0 <= k < n
  {
    if n == 0 then {} else Range(n - 1) + {n - 1}
  }

  function Members(ids: seq<nat>): set<nat> { set id | id in ids }

  function Orders(questions: seq<Question>): set<int> { set q | q in questions :: q.order }

  lemma {:induction false} OrdersSize(questions: seq<Question>)
    requires forall i, j :: 0 <= i < j < |questions| ==> questions[i].order != questions[j].order
    ensures |Orders(questions)| == |questions|
  {
    if questions != [] {
      var rest, last := questions[..|questions| - 1], questions[|questions| - 1];
      OrdersSize(rest);
      assert questions == rest + [last];
      OrdersAppend(rest, last);
      assert forall i :: 0 <= i < |rest| ==> rest[i].order != last.order;
      assert last.order !in Orders(rest);
      hide Orders;
    }
  }

  lemma OrdersAppend(rest: seq<Question>, last: Question)
    ensures Orders(rest + [last]) == Orders(rest) + {last.order}
  {
    assert forall q :: q in rest + [last] <==> q in rest || q == last;
  }

  lemma SubsetFull<T>(a: set<T>, b: set<T>)
    requires a <= b && |a| == |b|
    ensures a == b
  {
    if x :| x in b && x !in a {
      assert a <= b - {x};
      SubsetSmaller(a, b - {x});
    }
  }

  lemma SubsetSmaller<T>(a: set<T>, b: set<T>)
    requires a <= b
    ensures |a| <= |b|
  {
    assert b == a + (b - a);
  }

  /** In a dense set the next free order is the count, so suggesting and
      preparing number alike. */
  lemma {:induction false} DenseNext(questions: seq<Question>)
    requires Dense(questions)
    ensures NextOrder(questions) == |questions|
  {
    if questions != [] {
      var n := |questions|;
      OrdersSize(questions);
      assert Orders(questions) <= Range(n);
      SubsetFull(Orders(questions), Range(n));
      assert n - 1 in Orders(questions);
    }
  }

  lemma AddDense(r: QuestionSet, text: string, source: Source)
    requires Keyed(r) && Dense(r.questions)
    ensures Keyed(Add(r, text, source, |r.questions|)) && Dense(Add(r, text, source, |r.questions|).questions)
  {
  }

  lemma {:induction false} AddDefaultsDense(r: QuestionSet, texts: seq<string>)
    requires Keyed(r) && Dense(r.questions)
    ensures var after := AddDefaults(r, texts, |r.questions|);
            && Keyed(after) && Dense(after.questions)
            && |after.questions| == |r.questions| + |texts|
            && r.questions <= after.questions
            && (forall j :: |r.questions| <= j < |after.questions| ==>
                  after.questions[j].text == texts[j - |r.questions|] && after.questions[j].source == Default)
            && after == r.(questions := after.questions, nextId := after.nextId)
    decreases |texts|
  {
    if texts != [] {
      AddDense(r, texts[0], Default);
      hide Dense, Keyed;
      AddDefaultsDense(Add(r, texts[0], Default, |r.questions|), texts[1..]);
    }
  }

  lemma {:induction false} AddPickedDense(r: QuestionSet, picked: seq<BankQuestion>)
    requires Keyed(r) && Dense(r.questions)
    ensures var after := AddPicked(r, picked, |r.questions|);
            && Keyed(after) && Dense(after.questions)
            && |after.questions| == |r.questions| + |picked|
            && r.questions <= after.questions
            && (forall j :: |r.questions| <= j < |after.questions| ==>
                  after.questions[j].text == picked[j - |r.questions|].text && after.questions[j].source == Bank)
            && after == r.(questions := after.questions, nextId := after.nextId, bank := after.bank)
    decreases |picked|
  {
    if picked != [] {
      AddDense(r, picked[0].text, Bank);
      hide Dense, Keyed;
      var added := Add(r, picked[0].text, Bank, |r.questions|);
      var next := added.(bank := MarkUsed(r.bank, picked[0].id));
      AddPickedDense(next, picked[1..]);
    }
  }

  /** Picking marks: exactly the picked rows turn used. */
  lemma {:induction false} AddPickedMarks(r: QuestionSet, picked: seq<BankQuestion>, order: int)
    ensures var after := AddPicked(r, picked, order).bank;
            && |after| == |r.bank|
            && (forall i :: 0 <= i < |after| ==>
                  after[i] == r.bank[i].(used :=
                    r.bank[i].used || exists k :: 0 <= k < |picked| && picked[k].id == r.bank[i].id))
    decreases |picked|
  {
    if picked != [] {
      var next := Add(r, picked[0].text, Bank, order).(bank := MarkUsed(r.bank, picked[0].id));
      AddPickedMarks(next, picked[1..], order + 1);
      forall i | 0 <= i < |r.bank|
        ensures (exists k :: 0 <= k < |picked| && picked[k].id == r.bank[i].id)
                <==> picked[0].id == r.bank[i].id || exists k :: 0 <= k < |picked| - 1 && picked[1..][k].id == r.bank[i].id
      {
        if exists k :: 0 < k < |picked| && picked[k].id == r.bank[i].id {
          var k :| 0 < k < |picked| && picked[k].id == r.bank[i].id;
          assert picked[1..][k - 1].id == r.bank[i].id;
        }
      }
    }
  }

  /** Preparing a set numbered 0..n-1 keeps what was there, appends every
      enabled default in order unless defaults are in already, fills up to the
      target as far as the bank goes, keeps the numbering dense and freezes the
      set. */
  lemma PrepareCompletes(r: QuestionSet, target: int, now: Instant, picked: seq<BankQuestion>)
    requires Keyed(r) && Dense(r.questions)
    requires target > 0 && Accepting(r, now)
    requires GoodPick(r.bank, Need(r, target), picked)
    ensures Prepare(r, target, now, picked).Done?
    ensures var after := Prepare(r, target, now, picked).round;
            var stitched := |r.questions| + (if HasDefaults(r.questions) then 0 else |r.defaults|);
            && after.curated && Keyed(after) && Dense(after.questions)
            && r.questions <= after.questions
            && |after.questions| == (if target <= stitched then stitched else Min(target, stitched + |r.bank|))
            && (forall j :: |r.questions| <= j < stitched ==>
                  after.questions[j].text == r.defaults[j - |r.questions|] && after.questions[j].source == Default)
            && (forall j :: stitched <= j < |after.questions| ==>
                  after.questions[j].text == picked[j - stitched].text && after.questions[j].source == Bank)
            && (forall i :: 0 <= i < |after.questions| ==>
                  after.questions[i].order == (if i < |r.questions| then r.questions[i].order else i))
  {
    hide GoodPick;
    GoodPickSize(r.bank, Need(r, target), picked);
    var stitched := if HasDefaults(r.questions) then r else AddDefaults(r, r.defaults, |r.questions|);
    if !HasDefaults(r.questions) {
      AddDefaultsDense(r, r.defaults);
      AddedOrders(r, r.defaults, |r.questions|);
    }
    AddPickedDense(stitched, picked);
    PickedOrders(stitched, picked, |stitched.questions|);
    var after := Prepare(r, target, now, picked).round;
  }

  lemma GoodPickSize(bank: seq<BankQuestion>, count: int, picked: seq<BankQuestion>)
    requires GoodPick(bank, count, picked)
    ensures |picked| == (if count <= 0 then 0 else Min(count, |bank|))
  {
  }

  lemma {:induction false} AddedOrders(r: QuestionSet, texts: seq<string>, order: int)
    ensures var after := AddDefaults(r, texts, order);
            && |after.questions| == |r.questions| + |texts|
            && r.questions <= after.questions
            && (forall j :: |r.questions| <= j < |after.questions| ==>
                  after.questions[j].order == order + j - |r.questions|)
    decreases |texts|
  {
    if texts != [] {
      AddedOrders(Add(r, texts[0], Default, order), texts[1..], order + 1);
    }
  }

  lemma {:induction false} PickedOrders(r: QuestionSet, picked: seq<BankQuestion>, order: int)
    ensures var after := AddPicked(r, picked, order);
            && |after.questions| == |r.questions| + |picked|
            && r.questions <= after.questions
            && (forall j :: |r.questions| <= j < |after.questions| ==>
                  after.questions[j].order == order + j - |r.questions|)
    decreases |picked|
  {
    if picked != [] {
      PickedOrders(Add(r, picked[0].text, Bank, order).(bank := MarkUsed(r.bank, picked[0].id)), picked[1..], order + 1);
    }
  }

  /** After deletions the count can lie below the highest order. Preparing then
      keeps orders distinct exactly when no question sits in the range it is
      about to number. */
  lemma PrepareAfterDeletions(r: QuestionSet, target: int, now: Instant, picked: seq<BankQuestion>)
    requires target > 0 && Accepting(r, now)
    requires forall i, j :: 0 <= i < j < |r.questions| ==> r.questions[i].order != r.questions[j].order
    ensures Prepare(r, target, now, picked).Done?
    ensures var after := Prepare(r, target, now, picked).round.questions;
            && |r.questions| <= |after|
            && ((forall i, j :: 0 <= i < j < |after| ==> after[i].order != after[j].order)
                <==> forall i :: 0 <= i < |r.questions| ==> !(|r.questions| <= r.questions[i].order < |after|))
  {
    var n := |r.questions|;
    var stitched := if HasDefaults(r.questions) then r else AddDefaults(r, r.defaults, n);
    AddedOrders(r, r.defaults, n);
    PickedOrders(stitched, picked, |stitched.questions|);
    var after := Prepare(r, target, now, picked).round.questions;
    assert forall i :: 0 <= i < |after| ==> after[i].order == if i < n then r.questions[i].order else i;
    if i :| 0 <= i < n && n <= r.questions[i].order < |after| {
      assert after[r.questions[i].order].order == after[i].order;
    }
  }

  // ---- Reordering --------------------------------------------------------

  lemma {:induction false} IdSetSize(ids: seq<nat>)
    requires Unique(ids)
    ensures |Members(ids)| == |ids|
  {
    if ids != [] {
      var rest, last := ids[..|ids| - 1], ids[|ids| - 1];
      IdSetSize(rest);
      assert ids == rest + [last];
      assert Members(ids) == Members(rest) + {last};
      assert forall i :: 0 <= i < |rest| ==> rest[i] != last;
    }
  }

  /** A list is accepted exactly when it is the current ids in some order. */
  lemma AcceptedIffPermutation(r: QuestionSet, ids: seq<nat>)
    requires Keyed(r)
    ensures Reorder(r, ids).Some? <==> Unique(ids) && Members(ids) == Members(IdsOf(r.questions))
  {
    var current := IdsOf(r.questions);
    IdSetSize(current);
    if Unique(ids) {
      IdSetSize(ids);
    }
    assert forall id :: id in current <==> HasId(r.questions, id) by {
      forall id | HasId(r.questions, id) ensures id in current {
        var i :| 0 <= i < |r.questions| && r.questions[i].id == id;
        assert current[i] == id;
      }
    }
    if Accepts(r.questions, ids) {
      assert forall id :: id in ids ==> id in current;
      SubsetFull(Members(ids), Members(current));
    } else if Unique(ids) && Members(ids) == Members(current) {
      forall i | 0 <= i < |ids| ensures HasId(r.questions, ids[i]) {
        assert ids[i] in Members(ids);
      }
    }
  }

  /** The question named k-th ends up at position k. */
  lemma {:induction false} ReorderedPlaces(questions: seq<Question>, ids: seq<nat>, n: nat, i: nat)
    requires n <= |ids| && Unique(ids) && i < |questions|
    ensures Reordered(questions, ids, n)[i].id == questions[i].id
    ensures forall k :: 0 <= k < n && ids[k] == questions[i].id ==> Reordered(questions, ids, n)[i].order == k
  {
    if n > 0 {
      ReorderedPlaces(questions, ids, n - 1, i);
    }
  }

  /** An accepted reorder puts the questions in the order asked for, touches
      nothing else, and leaves the numbering dense, whatever it was before. */
  lemma ReorderPlaces(r: QuestionSet, ids: seq<nat>)
    requires Keyed(r) && Reorder(r, ids).Some?
    ensures var after := Reorder(r, ids).value.questions;
            && Keyed(Reorder(r, ids).value) && Dense(after)
            && |after| == |r.questions|
            && (forall i :: 0 <= i < |after| ==>
                  && after[i] == r.questions[i].(order := after[i].order)
                  && after[i].order < |ids|
                  && ids[after[i].order] == r.questions[i].id)
  {
    var after := Reorder(r, ids).value.questions;
    AcceptedIffPermutation(r, ids);
    forall i | 0 <= i < |after|
      ensures after[i] == r.questions[i].(order := after[i].order)
      ensures 0 <= after[i].order < |ids| && ids[after[i].order] == r.questions[i].id
    {
      assert IdsOf(r.questions)[i] == r.questions[i].id;
      assert r.questions[i].id in Members(IdsOf(r.questions));
      var k :| 0 <= k < |ids| && ids[k] == r.questions[i].id;
      ReorderedPlaces(r.questions, ids, |ids|, i);
    }
  }

  // ---- Runs --------------------------------------------------------------

  datatype Step =
    | SuggestStep(text: string, now: Instant)
    | PrepareStep(target: int, now: Instant, picked: seq<BankQuestion>)
    | ReorderStep(ids: seq<nat>)
      /** The round opens, is published, or its opening time moves. */
    | Reschedule(status: Status, opensAt: Instant)

  /** The picker's contract is all that is known of a pick. */
  ghost predicate Possible(r: QuestionSet, step: Step) {
    step.PrepareStep? ==> GoodPick(r.bank, Need(r, step.target), step.picked)
  }

  function Take(r: QuestionSet, step: Step): QuestionSet {
    match step
    case SuggestStep(text, now) => if Suggest(r, text, now).Some? then Suggest(r, text, now).value else r
    case PrepareStep(target, now, picked) =>
      if Prepare(r, target, now, picked).Done? then Prepare(r, target, now, picked).round else r
    case ReorderStep(ids) => if Reorder(r, ids).Some? then Reorder(r, ids).value else r
    case Reschedule(status, opensAt) => r.(status := status, opensAt := opensAt)
  }

  ghost function Run(r: QuestionSet, steps: seq<Step>): QuestionSet {
    if steps == [] then r else Take(Run(r, steps[..|steps| - 1]), steps[|steps| - 1])
  }

  ghost predicate AllPossible(r: QuestionSet, steps: seq<Step>) {
    steps == []
    || (AllPossible(r, steps[..|steps| - 1]) && Possible(Run(r, steps[..|steps| - 1]), steps[|steps| - 1]))
  }

  lemma TakeDense(r: QuestionSet, step: Step)
    requires Keyed(r) && Dense(r.questions) && Possible(r, step)
    ensures Keyed(Take(r, step)) && Dense(Take(r, step).questions)
  {
    match step {
      case SuggestStep(text, now) =>
        DenseNext(r.questions);
        AddDense(r, text, Friend);
      case PrepareStep(target, now, picked) =>
        if target > 0 && Accepting(r, now) {
          PrepareCompletes(r, target, now, picked);
        }
      case ReorderStep(ids) =>
        if Reorder(r, ids).Some? {
          ReorderPlaces(r, ids);
        }
      case Reschedule(_, _) =>
    }
  }

  /** Through any suggestions, preparations, reorders and schedule changes, a
      round's questions are numbered exactly 0..n-1. */
  lemma {:induction false} AlwaysDense(r: QuestionSet, steps: seq<Step>)
    requires r.questions == [] && AllPossible(r, steps)
    ensures Keyed(Run(r, steps)) && Dense(Run(r, steps).questions)
  {
    if steps != [] {
      AlwaysDense(r, steps[..|steps| - 1]);
      hide Dense, Keyed, Take;
      TakeDense(Run(r, steps[..|steps| - 1]), steps[|steps| - 1]);
    }
  }

  /** The set apart from its order. */
  ghost predicate SameSet(a: seq<Question>, b: seq<Question>) {
    |a| == |b| && forall i :: 0 <= i < |a| ==> b[i] == a[i].(order := b[i].order)
  }

  /** Once curated the set is frozen: no suggestion ever enters, preparing again
      is a no-op, and only the order can still change. */
  lemma {:induction false} FrozenOnceCurated(r: QuestionSet, steps: seq<Step>)
    requires r.curated
    ensures Run(r, steps).curated && SameSet(r.questions, Run(r, steps).questions)
    ensures forall target, now, picked :: target > 0 ==> Prepare(r, target, now, picked) == Done(r)
    ensures forall text, now :: Suggest(r, text, now).None?
  {
    if steps != [] {
      FrozenOnceCurated(r, steps[..|steps| - 1]);
    }
  }

  // ---- The statements, loop by loop --------------------------------------

  class Questions {
    var status: Status
    var opensAt: Instant
    var curated: bool
    var questions: seq<Question>
    var nextId: nat
    var bank: seq<BankQuestion>
    var defaults: seq<string>

    function View(): QuestionSet
      reads this
    {
      QuestionSet(status, opensAt, curated, questions, nextId, bank, defaults)
    }

    method UpdateSchedule(status: Status, opensAt: Instant)
      modifies `status, `opensAt
      ensures View() == Take(old(View()), Reschedule(status, opensAt))
      ensures View() == old(View()).(status := status, opensAt := opensAt)
    {
      this.status := status;
      this.opensAt := opensAt;
    }

    method InsertQuestion(text: string, source: Source, order: int)
      modifies `questions, `nextId
      ensures View() == Add(old(View()), text, source, order)
    {
      questions := questions + [Question(nextId, text, source, order)];
      nextId := nextId + 1;
    }

    method CreateSuggestedQuestion(text: string, now: Instant) returns (ok: bool)
      modifies `questions, `nextId
      ensures ok == Suggest(old(View()), text, now).Some?
      ensures View() == if ok then Suggest(old(View()), text, now).value else old(View())
      ensures View() == Take(old(View()), SuggestStep(text, now))
    {
      ok := status.Draft? && opensAt > now && !curated;
      if ok {
        InsertQuestion(text, Friend, NextOrder(questions));
      }
    }

    method PrepareDraftQuestions(target: int, now: Instant, orders: Orders)
      returns (result: Prepared, ghost picked: seq<BankQuestion>)
      requires DistinctIds(bank) && orders.Of(bank)
      modifies this
      ensures result == Prepare(old(View()), target, now, picked)
      ensures View() == if result.Done? then result.round else old(View())
      ensures View() == Take(old(View()), PrepareStep(target, now, picked))
      ensures result.Done? && !old(curated) ==> GoodPick(old(bank), Need(old(View()), target), picked)
    {
      hide GoodPick;
      picked := [];
      if target <= 0 {
        return BadTarget, picked;
      }
      if curated {
        return Done(View()), picked;
      }
      if !status.Draft? || opensAt <= now {
        return NotCuratable, picked;
      }
      var nextOrder: int := |questions|;
      if !HasDefaults(questions) {
        AddedOrders(View(), defaults, nextOrder);
        nextOrder := InsertDefaults(nextOrder);
      }
      var chosen := [];
      if target - nextOrder > 0 {
        chosen := SelectRandomUnusedQuestions(bank, target - nextOrder, orders);
      } else {
        NothingToPick(bank, target - nextOrder);
      }
      picked := chosen;
      InsertPicked(chosen, nextOrder);
      curated := true;
      result := Done(View());
    }

    method InsertDefaults(start: int) returns (nextOrder: int)
      modifies `questions, `nextId
      ensures View() == AddDefaults(old(View()), defaults, start)
      ensures nextOrder == start + |defaults|
    {
      nextOrder := start;
      var k := 0;
      while k < |defaults|
        invariant 0 <= k <= |defaults| && nextOrder == start + k
        invariant unchanged(`status, `opensAt, `curated, `bank, `defaults)
        invariant AddDefaults(View(), defaults[k..], nextOrder) == AddDefaults(old(View()), defaults, start)
      {
        assert defaults[k..][0] == defaults[k] && defaults[k..][1..] == defaults[k + 1..];
        InsertQuestion(defaults[k], Default, nextOrder);
        nextOrder := nextOrder + 1;
        k := k + 1;
      }
    }

    method InsertPicked(picked: seq<BankQuestion>, start: int)
      modifies `questions, `nextId, `bank
      ensures View() == AddPicked(old(View()), picked, start)
    {
      var nextOrder := start;
      var k := 0;
      while k < |picked|
        invariant 0 <= k <= |picked| && nextOrder == start + k
        invariant unchanged(`status, `opensAt, `curated, `defaults)
        invariant AddPicked(View(), picked[k..], nextOrder) == AddPicked(old(View()), picked, start)
      {
        assert picked[k..][0] == picked[k] && picked[k..][1..] == picked[k + 1..];
        InsertQuestion(picked[k].text, Bank, nextOrder);
        bank := MarkUsed(bank, picked[k].id);
        nextOrder := nextOrder + 1;
        k := k + 1;
      }
    }

    /** Rewrites the order row by row, and rolls back at an unknown id. */
    method ReorderQuestions(ids: seq<nat>) returns (ok: bool)
      modifies `questions
      ensures ok == Reorder(old(View()), ids).Some?
      ensures View() == if ok then Reorder(old(View()), ids).value else old(View())
      ensures View() == Take(old(View()), ReorderStep(ids))
    {
      if |questions| != |ids| {
        return false;
      }
      var unique := CheckUniqueIDs(ids);
      if !unique {
        return false;
      }
      var before := questions;
      for k := 0 to |ids|
        invariant questions == Reordered(old(questions), ids, k)
        invariant forall i :: 0 <= i < k ==> HasId(old(questions), ids[i])
      {
        if !HasId(questions, ids[k]) {
          assert !HasId(old(questions), ids[k]) by {
            assert forall i :: 0 <= i < |questions| ==> questions[i].id == old(questions)[i].id;
          }
          questions := before;
          return false;
        }
        assert HasId(old(questions), ids[k]);
        questions := SetOrder(questions, ids[k], k);
      }
      return true;
    }
  }

  method CheckUniqueIDs(ids: seq<nat>) returns (unique: bool)
    ensures unique <==> Unique(ids)
  {
    var seen: set<nat> := {};
    for k := 0 to |ids|
      invariant seen == set i | 0 <= i < k :: ids[i]
      invariant Unique(ids[..k])
    {
      if ids[k] in seen {
        return false;
      }
      seen := seen + {ids[k]};
    }
    assert ids[..|ids|] == ids;
    return true;
  }

  lemma NothingToPick(bank: seq<BankQuestion>, count: int)
    requires count <= 0
    ensures GoodPick(bank, count, [])
  {
  }
}
