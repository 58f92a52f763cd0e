/** Picking bank questions for a round, whatever order the database returns
    its rows in. */
module QuestionPicker {
  import opened Options

  datatype Category = LifeUpdates | DeepThoughts | FunSilly | Memories | Goals | Recommendations | Hypotheticals

  const CATEGORIES := [LifeUpdates, DeepThoughts, FunSilly, Memories, Goals, Recommendations, Hypotheticals]

  /** Every category, each once. */
  lemma AllCategories(c: Category)
    ensures c in CATEGORIES && forall i, j :: 0 <= i < j < |CATEGORIES| ==> CATEGORIES[i] != CATEGORIES[j]
  {
    match c {
      case LifeUpdates => assert CATEGORIES[0] == c;
      case DeepThoughts => assert CATEGORIES[1] == c;
      case FunSilly => assert CATEGORIES[2] == c;
      case Memories => assert CATEGORIES[3] == c;
      case Goals => assert CATEGORIES[4] == c;
      case Recommendations => assert CATEGORIES[5] == c;
      case Hypotheticals => assert CATEGORIES[6] == c;
    }
  }

  datatype BankQuestion = BankQuestion(id: nat, text: string, category: Category, used: bool)

  ghost predicate DistinctIds(questions: seq<BankQuestion>) {
    forall i, j :: 0 <= i < j < |questions| ==> questions[i].id != questions[j].id
  }

  /** Some order of exactly the bank's rows that satisfy a condition. */
  ghost predicate Shuffles(rows: seq<BankQuestion>, bank: seq<BankQuestion>, keep: BankQuestion -> bool) {
    && DistinctIds(rows)
    && (forall q :: q in rows <==> q in bank && keep(q))
  }

  function Unused(): BankQuestion -> bool { (q: BankQuestion) => !q.used }

  function UnusedIn(category: Category): BankQuestion -> bool { (q: BankQuestion) => !q.used && q.category == category }

  function Anything(): BankQuestion -> bool { (q: BankQuestion) => true }

  /** The orders ORDER BY RANDOM() comes up with: one for each category, one of
      the unused questions and one of the whole bank. */
  datatype Orders = Orders(byCategory: Category -> seq<BankQuestion>, unused: seq<BankQuestion>, all: seq<BankQuestion>)
  {
    ghost predicate Of(bank: seq<BankQuestion>) {
      && (forall c :: Shuffles(byCategory(c), bank, UnusedIn(c)))
      && Shuffles(unused, bank, Unused())
      && Shuffles(all, bank, Anything())
    }
  }

  function Min(a: int, b: int): int { if a <= b then a else b }

  function Limit<T>(rows: seq<T>, n: nat): seq<T> { if n <= |rows| then rows[..n] else rows }

  predicate HasUnused(bank: seq<BankQuestion>, category: Category) {
    exists i :: 0 <= i < |bank| && !bank[i].used && bank[i].category == category
  }

  /** How many of the first `n` categories still have an unused question. */
  function Available(bank: seq<BankQuestion>, n: nat): (r: nat)
    requires n <= |CATEGORIES|
    ensures r <= n
  {
    if n == 0 then 0 else Available(bank, n - 1) + (if HasUnused(bank, CATEGORIES[n - 1]) then 1 else 0)
  }

  /** The categories that the fresh questions of the bank come from. */
  function FreshCategories(bank: seq<BankQuestion>): set<Category> { set q | q in bank && !q.used :: q.category }

  function FreshAmong(bank: seq<BankQuestion>, n: nat): set<Category>
    requires n <= |CATEGORIES|
  {
    set k | 0 <= k < n && HasUnused(bank, CATEGORIES[k]) :: CATEGORIES[k]
  }

  lemma {:induction false} AvailableAmong(bank: seq<BankQuestion>, n: nat)
    requires n <= |CATEGORIES|
    ensures Available(bank, n) == |FreshAmong(bank, n)|
  {
    hide HasUnused;
    if n > 0 {
      AvailableAmong(bank, n - 1);
      AllCategories(LifeUpdates);
      var category := CATEGORIES[n - 1];
      assert category !in FreshAmong(bank, n - 1);
      assert FreshAmong(bank, n) == FreshAmong(bank, n - 1) + (if HasUnused(bank, category) then {category} else {});
    }
  }

  /** The stage that goes through the categories counts each that has a fresh
      question, once. */
  lemma {:induction false} AvailableCounts(bank: seq<BankQuestion>)
    ensures Available(bank, |CATEGORIES|) == |FreshCategories(bank)|
  {
    AvailableAmong(bank, |CATEGORIES|);
    forall c: Category ensures c in FreshAmong(bank, |CATEGORIES|) <==> c in FreshCategories(bank) {
      AllCategories(c);
      if c in FreshCategories(bank) {
        var q :| q in bank && !q.used && q.category == c;
        assert HasUnused(bank, c);
      }
    }
    assert FreshAmong(bank, |CATEGORIES|) == FreshCategories(bank);
  }

  /** What a pick must be: the size asked for, as far as the bank goes; from the
      bank, without repeats; no repeat question while a fresh one is left; and
      as varied as the fresh questions allow. */
  ghost predicate GoodPick(bank: seq<BankQuestion>, count: int, picked: seq<BankQuestion>) {
    && |picked| == (if count <= 0 then 0 else Min(count, |bank|))
    && DistinctIds(picked)
    && (forall q :: q in picked ==> q in bank)
    && ((exists q :: q in picked && q.used) ==> forall u :: u in bank && !u.used ==> u in picked)
    && (count > 0 ==>
          var variety := Min(count, |FreshCategories(bank)|);
          && variety <= |picked|
          && (forall i, j :: 0 <= i < j < variety ==> picked[i].category != picked[j].category))
  }

  // ---- Counting ----------------------------------------------------------

  function IdSet(questions: seq<BankQuestion>): set<nat> { set q | q in questions :: q.id }

  lemma IdSetAppend(questions: seq<BankQuestion>, last: BankQuestion)
    ensures IdSet(questions + [last]) == IdSet(questions) + {last.id}
    ensures last.id in IdSet(questions) ==> exists i :: 0 <= i < |questions| && questions[i].id == last.id
  {
    assert forall q :: q in questions + [last] <==> q in questions || q == last;
  }

  lemma {:induction false} DistinctCount(questions: seq<BankQuestion>)
    requires DistinctIds(questions)
    ensures |IdSet(questions)| == |questions|
  {
    if questions != [] {
      var rest, last := questions[..|questions| - 1], questions[|questions| - 1];
      DistinctCount(rest);
      IdSetAppend(rest, last);
      hide IdSet;
      assert questions == rest + [last];
    }
  }

  lemma SubsetSize(a: set<nat>, b: set<nat>)
    requires a <= b
    ensures |a| <= |b|
  {
    assert b == a + (b - a);
  }

  /** Distinct questions out of a list are no more than the list. */
  lemma NoMoreThan(some: seq<BankQuestion>, all: seq<BankQuestion>)
    requires DistinctIds(some) && DistinctIds(all)
    requires forall q :: q in some ==> q in all
    ensures |some| <= |all|
  {
    DistinctCount(some);
    DistinctCount(all);
    assert forall q :: q in some ==> q.id in IdSet(all);
    SubsetSize(IdSet(some), IdSet(all));
  }

  lemma SameId(questions: seq<BankQuestion>, a: BankQuestion, b: BankQuestion)
    requires DistinctIds(questions) && a in questions && b in questions && a.id == b.id
    ensures a == b
  {
  }

  // ---- The three stages --------------------------------------------------

  /** One unused question from each category, up to `count`. */
  method PickByCategory(bank: seq<BankQuestion>, count: nat, orders: Orders) returns (results: seq<BankQuestion>)
    requires DistinctIds(bank) && orders.Of(bank)
    ensures |results| == Min(count, |FreshCategories(bank)|)
    ensures DistinctIds(results)
    ensures forall q :: q in results ==> q in bank && !q.used
    ensures forall i, j :: 0 <= i < j < |results| ==> results[i].category != results[j].category
  {
    hide HasUnused, Shuffles, FreshCategories;
    AvailableCounts(bank);
    results := [];
    var n := 0;
    while n < |CATEGORIES|
      invariant 0 <= n <= |CATEGORIES|
      invariant |results| == Min(count, Available(bank, n))
      invariant forall q :: q in results ==> q in bank && !q.used && q.category in CATEGORIES[..n]
      invariant forall i, j :: 0 <= i < j < |results| ==> results[i].category != results[j].category
    {
      if |results| >= count {
        AvailableGrows(bank, n, |CATEGORIES|);
        break;
      }
      var category := CATEGORIES[n];
      var rows := orders.byCategory(category);
      FirstOfCategory(bank, rows, category);
      n := n + 1;
      if rows == [] {
        continue;
      }
      assert category !in CATEGORIES[..n - 1];
      results := results + [rows[0]];
    }
  }

  lemma FirstOfCategory(bank: seq<BankQuestion>, rows: seq<BankQuestion>, category: Category)
    requires Shuffles(rows, bank, UnusedIn(category))
    ensures rows == [] <==> !HasUnused(bank, category)
    ensures rows != [] ==> rows[0] in bank && !rows[0].used && rows[0].category == category
  {
    if HasUnused(bank, category) {
      var i :| 0 <= i < |bank| && !bank[i].used && bank[i].category == category;
      assert bank[i] in bank;
    }
    if rows != [] {
      assert rows[0] in rows;
    }
  }

  lemma {:induction false} AvailableGrows(bank: seq<BankQuestion>, a: nat, b: nat)
    requires a <= b <= |CATEGORIES|
    ensures Available(bank, a) <= Available(bank, b)
  {
    if a < b {
      AvailableGrows(bank, a, b - 1);
    }
  }

  /** Questions already taken, and wanted ones after them. */
  ghost predicate Filling(bank: seq<BankQuestion>, before: seq<BankQuestion>, keep: BankQuestion -> bool,
                                  results: seq<BankQuestion>)
  {
    && DistinctIds(results)
    && before <= results
    && (forall q :: q in results ==> q in bank && (q in before || keep(q)))
  }

  lemma TakeRow(
    bank: seq<BankQuestion>, before: seq<BankQuestion>, keep: BankQuestion -> bool,
    results: seq<BankQuestion>, row: BankQuestion)
    requires Filling(bank, before, keep, results)
    requires row in bank && keep(row) && row.id !in IdSet(results)
    ensures Filling(bank, before, keep, results + [row])
    ensures IdSet(results + [row]) == IdSet(results) + {row.id}
  {
    assert forall q :: q in results ==> q.id in IdSet(results);
  }

  lemma Taken(bank: seq<BankQuestion>, before: seq<BankQuestion>, keep: BankQuestion -> bool,
      results: seq<BankQuestion>, row: BankQuestion)
    requires DistinctIds(bank) && Filling(bank, before, keep, results)
    requires row in bank && row.id in IdSet(results)
    ensures row in results
  {
    var q :| q in results && q.id == row.id;
    SameId(bank, q, row);
  }

  /** A list cut short at `count` rows cannot be exhausted below `count`. */
  lemma LimitSuffices(order: seq<BankQuestion>, count: nat, results: seq<BankQuestion>)
    requires DistinctIds(order) && DistinctIds(results) && |results| < count
    requires forall q :: q in Limit(order, count) ==> q in results
    ensures Limit(order, count) == order
  {
    if count < |order| {
      NoMoreThan(Limit(order, count), results);
    }
  }

  predicate Scanned(rows: seq<BankQuestion>, k: nat, results: seq<BankQuestion>) {
    forall j :: 0 <= j < k && j < |rows| ==> rows[j] in results
  }

  ghost predicate Covers(bank: seq<BankQuestion>, keep: BankQuestion -> bool, results: seq<BankQuestion>) {
    forall q :: q in bank && keep(q) ==> q in results
  }

  /** One row of the scan: taken if it is new. */
  lemma ScanRow(
    bank: seq<BankQuestion>, before: seq<BankQuestion>, keep: BankQuestion -> bool,
    order: seq<BankQuestion>, n: nat, k: nat, results: seq<BankQuestion>, next: seq<BankQuestion>)
    requires DistinctIds(bank) && Shuffles(order, bank, keep) && k < |Limit(order, n)|
    requires Filling(bank, before, keep, results) && Scanned(Limit(order, n), k, results)
    requires next == if Limit(order, n)[k].id in IdSet(results) then results else results + [Limit(order, n)[k]]
    ensures Filling(bank, before, keep, next) && Scanned(Limit(order, n), k + 1, next)
    ensures IdSet(next) == IdSet(results) + {Limit(order, n)[k].id}
  {
    var row := Limit(order, n)[k];
    assert row in order && row in bank && keep(row);
    hide *;
    if row.id in IdSet(results) {
      Taken(bank, before, keep, results, row);
      assert IdSet(next) == IdSet(results) + {row.id};
    } else {
      TakeRow(bank, before, keep, results, row);
    }
    ScannedOneMore(Limit(order, n), k, results, next);
  }

  lemma ScannedOneMore(rows: seq<BankQuestion>, k: nat, results: seq<BankQuestion>, next: seq<BankQuestion>)
    requires Scanned(rows, k, results) && k < |rows| && results <= next && rows[k] in next
    ensures Scanned(rows, k + 1, next)
  {
    assert forall q :: q in results ==> q in next;
  }

  /** A scan that ends below the count has seen every wanted row. */
  lemma ScanEnds(
    bank: seq<BankQuestion>, before: seq<BankQuestion>, keep: BankQuestion -> bool,
    order: seq<BankQuestion>, n: nat, results: seq<BankQuestion>)
    requires Shuffles(order, bank, keep) && Filling(bank, before, keep, results)
    requires |results| < n && Scanned(Limit(order, n), |Limit(order, n)|, results)
    ensures Covers(bank, keep, results)
  {
    LimitSuffices(order, n, results);
  }

  /** Scans a random list for questions not yet taken. The list is limited to
      the missing number plus the number taken: enough, because at most that
      many of its rows can be taken already. */
  method FillFrom(bank: seq<BankQuestion>, count: nat, before: seq<BankQuestion>, order: seq<BankQuestion>,
      keep: BankQuestion -> bool)
    returns (results: seq<BankQuestion>)
    requires DistinctIds(bank) && DistinctIds(before) && |before| < count
    requires forall q :: q in before ==> q in bank
    requires Shuffles(order, bank, keep)
    ensures Filling(bank, before, keep, results) && |results| <= count
    ensures |results| == count || Covers(bank, keep, results)
  {
    hide Shuffles, IdSet, Scanned, Covers, Limit, DistinctIds;
    var usedIDs := IdSet(before);
    DistinctCount(before);
    var rows := Limit(order, count - |before| + |usedIDs|);
    assert rows == Limit(order, count);
    NothingScanned(rows, before);
    hide Filling;
    results := before;
    var k := 0;
    while k < |rows| && |results| < count
      invariant 0 <= k <= |rows|
      invariant |results| <= count && Filling(bank, before, keep, results)
      invariant usedIDs == IdSet(results)
      invariant Scanned(rows, k, results)
    {
      ghost var previous := results;
      if rows[k].id !in usedIDs {
        results := results + [rows[k]];
      }
      usedIDs := usedIDs + {rows[k].id};
      ScanRow(bank, before, keep, order, count, k, previous, results);
      k := k + 1;
    }
    if |results| < count {
      ScanEnds(bank, before, keep, order, count, results);
    }
  }

  lemma NothingScanned(rows: seq<BankQuestion>, results: seq<BankQuestion>)
    ensures Scanned(rows, 0, results)
  {
  }

  /** The whole picker: for every bank, every count and every random order, the
      pick is a good one. */
  method SelectRandomUnusedQuestions(bank: seq<BankQuestion>, count: int, orders: Orders)
    returns (results: seq<BankQuestion>)
    requires DistinctIds(bank) && orders.Of(bank)
    ensures GoodPick(bank, count, results)
  {
    if count <= 0 {
      return [];
    }
    results := PickByCategory(bank, count, orders);
    ghost var varied := results;
    if |results| < count {
      results := FillFrom(bank, count, results, orders.unused, Unused());
    }
    assert forall q :: q in results ==> !q.used;
    ghost var unusedOnes := results;
    if |results| < count {
      results := FillFrom(bank, count, results, orders.all, Anything());
      assert forall u :: u in bank && !u.used ==> u in unusedOnes;
      assert forall u :: u in unusedOnes ==> u in results;
    }
    NoMoreThan(results, bank);
    if |results| < count {
      NoMoreThan(bank, results);
    }
    assert varied <= results;
  }

  lemma PickFacts(bank: seq<BankQuestion>, count: int, picked: seq<BankQuestion>)
    requires GoodPick(bank, count, picked)
    ensures DistinctIds(picked) && forall q :: q in picked ==> q in bank
    ensures (exists q :: q in picked && q.used) ==> forall u :: u in bank && !u.used ==> u in picked
  {
  }

  /** With enough fresh questions nothing is repeated from earlier rounds. */
  lemma FreshWhilePossible(bank: seq<BankQuestion>, unusedOnes: seq<BankQuestion>, count: int, picked: seq<BankQuestion>)
    requires DistinctIds(bank) && GoodPick(bank, count, picked)
    requires Shuffles(unusedOnes, bank, Unused())
    ensures (forall q :: q in picked ==> !q.used) <==> |picked| <= |unusedOnes|
  {
    PickFacts(bank, count, picked);
    hide GoodPick;
    if forall q :: q in picked ==> !q.used {
      NoMoreThan(picked, unusedOnes);
    } else {
      var q :| q in picked && q.used;
      MissesOne(unusedOnes, picked, q);
    }
  }

  /** Distinct questions out of a list that leave one out are fewer. */
  lemma MissesOne(some: seq<BankQuestion>, all: seq<BankQuestion>, left: BankQuestion)
    requires DistinctIds(some) && DistinctIds(all)
    requires left in all && left !in some && forall q :: q in some ==> q in all
    ensures |some| < |all|
  {
    forall i | 0 <= i < |some| ensures some[i].id != left.id {
      assert some[i] in some;
      if some[i].id == left.id {
        SameId(all, some[i], left);
      }
    }
    assert DistinctIds(some + [left]);
    NoMoreThan(some + [left], all);
  }
}
