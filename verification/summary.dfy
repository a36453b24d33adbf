/**
 * The summary engine behind `GET /transactions/summary/all`
 * (routes/transactions.js:138-182): build a query from the optional
 * startDate/endDate/category parameters, fetch the matching transactions,
 * fold them into income and expense totals, and derive the balance.
 *
 * The collection scan is a sequence in whatever order the database yields;
 * the query carries no sort, so results are proved not to depend on it.
 */
module Summary {
  import opened Results
  import opened Schema

  /**
   * The query-string parameters after parsing. A parameter that is absent or
   * empty (falsy in the handler) is None. Dates are integer timestamps.
   */
  datatype Query = Query(startDate: Option<int>, endDate: Option<int>, category: Option<Id>)

  /** The response body. */
  datatype Totals = Totals(totalIncome: int, totalExpenses: int, balance: int)

  /** Running income and expense totals of the fold. */
  datatype Sums = Sums(income: int, expenses: int)

  // ---------------------------------------------------------------------------
  // Filtering
  // ---------------------------------------------------------------------------

  /** The date condition is added to the query only when both bounds are given. */
  predicate DateFilterActive(q: Query) {
    q.startDate.Some? && q.endDate.Some?
  }

  /** `$gte: startDate, $lte: endDate`: both ends inclusive. */
  predicate InDateRange(t: Transaction, q: Query) {
    DateFilterActive(q) ==> q.startDate.value <= t.date <= q.endDate.value
  }

  predicate InCategory(t: Transaction, q: Query) {
    q.category.Some? ==> t.category == q.category.value
  }

  /** A MongoDB query object's conditions hold jointly. */
  predicate Matches(t: Transaction, q: Query) {
    InDateRange(t, q) && InCategory(t, q)
  }

  /** `TransactionModel.find(query)` over a scan of the collection. */
  function Filter(xs: seq<Transaction>, q: Query): (r: seq<Transaction>)
    ensures |r| <= |xs|
    ensures forall t :: t in r <==> t in xs && Matches(t, q)
  {
    if xs == [] then []
    else
      assert xs == [xs[0]] + xs[1..];
      if Matches(xs[0], q) then [xs[0]] + Filter(xs[1..], q) else Filter(xs[1..], q)
  }

  /** The query keeps every matching transaction as often as the scan holds it, and nothing else. */
  lemma {:induction false} FilterMultiset(xs: seq<Transaction>, q: Query)
    ensures forall t :: multiset(Filter(xs, q))[t] == if Matches(t, q) then multiset(xs)[t] else 0
  {
    if xs != [] {
      assert xs == [xs[0]] + xs[1..];
      FilterMultiset(xs[1..], q);
    }
  }

  /** The query with only its date condition. */
  function DateOnly(q: Query): Query {
    Query(q.startDate, q.endDate, None)
  }

  /** The query with only its category condition. */
  function CategoryOnly(q: Query): Query {
    Query(None, None, q.category)
  }

  // ---------------------------------------------------------------------------
  // Folding
  // ---------------------------------------------------------------------------

  /** One iteration of the `forEach`: income, else expense, else nothing. */
  function Contribution(t: Transaction): Sums {
    if t.kind == Income then Sums(t.amount, 0)
    else if t.kind == Expense then Sums(0, t.amount)
    else Sums(0, 0)
  }

  function Add(a: Sums, b: Sums): Sums {
    Sums(a.income + b.income, a.expenses + b.expenses)
  }

  /** The fold of the `forEach`, starting from zero totals. */
  function Tally(xs: seq<Transaction>): Sums {
    if xs == [] then Sums(0, 0) else Add(Contribution(xs[0]), Tally(xs[1..]))
  }

  /**
   * The reference definition of the response: the fold over the matching
   * transactions, and its balance.
   */
  function Summarize(scan: seq<Transaction>, q: Query): Totals
  {
    var m := Tally(Filter(scan, q));
    Totals(m.income, m.expenses, m.income - m.expenses)
  }

  /**
   * The handler body: query, then accumulate in a loop the way the
   * `forEach` mutates `result`, then set the balance.
   */
  method ComputeSummary(scan: seq<Transaction>, q: Query) returns (r: Totals)
    ensures r == Summarize(scan, q)
    ensures r.balance == r.totalIncome - r.totalExpenses
  {
    var matching := Filter(scan, q);
    var income, expenses := 0, 0;
    var i := 0;
    while i < |matching|
      invariant 0 <= i <= |matching|
      invariant Sums(income, expenses) == Tally(matching[..i])
    {
      var t := matching[i];
      if t.kind == Income {
        income := income + t.amount;
      } else if t.kind == Expense {
        expenses := expenses + t.amount;
      }
      assert matching[..i + 1] == matching[..i] + [t];
      TallyAppend(matching[..i], [t]);
      i := i + 1;
    }
    assert matching[..i] == matching;
    r := Totals(income, expenses, income - expenses);
  }

  // ---------------------------------------------------------------------------
  // Properties of the fold
  // ---------------------------------------------------------------------------

  /** The fold distributes over concatenation. */
  lemma {:induction false} TallyAppend(a: seq<Transaction>, b: seq<Transaction>)
    ensures Tally(a + b) == Add(Tally(a), Tally(b))
  {
    if a == [] {
      assert a + b == b;
    } else {
      assert (a + b)[1..] == a[1..] + b;
      TallyAppend(a[1..], b);
    }
  }

  /**
   * Where a transaction sits in the scan, it adds its amount to income if its
   * type is "income", to expenses if "expense", and nothing otherwise.
   */
  lemma TallySplit(a: seq<Transaction>, t: Transaction, b: seq<Transaction>)
    ensures t.kind == Income ==>
              Tally(a + [t] + b) == Sums(Tally(a + b).income + t.amount, Tally(a + b).expenses)
    ensures t.kind == Expense ==>
              Tally(a + [t] + b) == Sums(Tally(a + b).income, Tally(a + b).expenses + t.amount)
    ensures !InKindEnum(t.kind) ==> Tally(a + [t] + b) == Tally(a + b)
  {
    TallyAppend(a + [t], b);
    TallyAppend(a, [t]);
    TallyAppend(a, b);
    TallySingleton(t);
  }

  /** A single transaction folds to its own contribution. */
  lemma TallySingleton(t: Transaction)
    ensures Tally([t]) == Contribution(t)
  {
    assert [t][1..] == [];
  }

  /** The totals depend only on the multiset of transactions folded. */
  lemma {:induction false} TallyPermutation(a: seq<Transaction>, b: seq<Transaction>)
    requires multiset(a) == multiset(b)
    ensures Tally(a) == Tally(b)
    decreases |a|
  {
    if a == [] {
      assert |b| == |multiset(b)| == 0;
    } else {
      var x := a[0];
      assert x in multiset(b);
      var i :| 0 <= i < |b| && b[i] == x;
      var rest := b[..i] + b[i + 1..];
      assert b == b[..i] + [x] + b[i + 1..];
      assert a == [x] + a[1..];
      assert multiset(a) == multiset{x} + multiset(a[1..]);
      assert multiset(b) == multiset(b[..i]) + multiset{x} + multiset(b[i + 1..]);
      assert multiset(rest) == multiset(b[..i]) + multiset(b[i + 1..]);
      assert multiset(a[1..]) == multiset(a) - multiset{x};
      assert multiset(rest) == multiset(b) - multiset{x};
      TallyPermutation(a[1..], rest);
      TallySplit(b[..i], x, b[i + 1..]);
      assert Tally(a) == Add(Contribution(x), Tally(a[1..]));
    }
  }

  lemma {:induction false} FilterAppend(a: seq<Transaction>, b: seq<Transaction>, q: Query)
    ensures Filter(a + b, q) == Filter(a, q) + Filter(b, q)
  {
    if a == [] {
      assert a + b == b;
    } else {
      assert (a + b)[1..] == a[1..] + b;
      FilterAppend(a[1..], b, q);
    }
  }

  // ---------------------------------------------------------------------------
  // Properties of the summary
  // ---------------------------------------------------------------------------

  /** With nothing matching, every total is zero. */
  lemma {:induction false} NoMatchesGivesZero(scan: seq<Transaction>, q: Query)
    requires forall i :: 0 <= i < |scan| ==> !Matches(scan[i], q)
    ensures Summarize(scan, q) == Totals(0, 0, 0)
  {
    if scan != [] {
      assert !Matches(scan[0], q);
      NoMatchesGivesZero(scan[1..], q);
    }
  }

  /** The order of the scan is irrelevant: the query has no sort and the fold is a sum. */
  lemma SummaryOrderIndependent(a: seq<Transaction>, b: seq<Transaction>, q: Query)
    requires multiset(a) == multiset(b)
    ensures Summarize(a, q) == Summarize(b, q)
  {
    FilterMultiset(a, q);
    FilterMultiset(b, q);
    assert multiset(Filter(a, q)) == multiset(Filter(b, q));
    TallyPermutation(Filter(a, q), Filter(b, q));
  }

  /**
   * One more transaction in the scan moves the totals by its amount: into
   * income and balance when it matches and is an income, into expenses and
   * against the balance when it matches and is an expense, and not at all
   * otherwise.
   */
  lemma SummaryOfAppended(scan: seq<Transaction>, t: Transaction, q: Query)
    ensures
      var before := Summarize(scan, q);
      var after := Summarize(scan + [t], q);
      && (Matches(t, q) && t.kind == Income ==>
            after == Totals(before.totalIncome + t.amount, before.totalExpenses, before.balance + t.amount))
      && (Matches(t, q) && t.kind == Expense ==>
            after == Totals(before.totalIncome, before.totalExpenses + t.amount, before.balance - t.amount))
      && (!Matches(t, q) || !InKindEnum(t.kind) ==> after == before)
  {
    var f := Filter(scan, q);
    var m := Tally(f);
    var c := if Matches(t, q) then Contribution(t) else Sums(0, 0);
    assert Tally(Filter(scan + [t], q)) == Add(m, c) by {
      FilterAppendOne(scan, t, q);
      if Matches(t, q) {
        TallyAppendOne(f, t);
      } else {
        assert Filter(scan + [t], q) == f;
      }
    }
    assert !Matches(t, q) || !InKindEnum(t.kind) ==> c == Sums(0, 0);
  }

  /** Appending one transaction adds its contribution to the fold. */
  lemma TallyAppendOne(f: seq<Transaction>, t: Transaction)
    ensures Tally(f + [t]) == Add(Tally(f), Contribution(t))
    ensures !InKindEnum(t.kind) ==> Tally(f + [t]) == Tally(f)
  {
    TallyAppend(f, [t]);
    TallySingleton(t);
  }

  /** One more scanned transaction joins the query result exactly when it matches. */
  lemma FilterAppendOne(scan: seq<Transaction>, t: Transaction, q: Query)
    ensures Filter(scan + [t], q) == if Matches(t, q) then Filter(scan, q) + [t] else Filter(scan, q)
  {
    FilterAppend(scan, [t], q);
    assert [t][1..] == [];
    assert Filter(scan, q) + [] == Filter(scan, q);
  }

  /**
   * With both bounds given, a transaction passes the date condition exactly
   * when its date lies in the closed interval, so both endpoints are included.
   */
  lemma DateRangeInclusive(scan: seq<Transaction>, lo: int, hi: int)
    ensures forall t :: t in Filter(scan, Query(Some(lo), Some(hi), None)) <==>
                          t in scan && lo <= t.date <= hi
    ensures forall t :: t in scan && (t.date == lo || t.date == hi) && lo <= hi ==>
                          t in Filter(scan, Query(Some(lo), Some(hi), None))
  {
  }

  /** With at most one bound, the query has no date condition at all. */
  lemma {:induction false} OneBoundIsIgnored(scan: seq<Transaction>, q: Query)
    requires !DateFilterActive(q)
    ensures Filter(scan, q) == Filter(scan, CategoryOnly(q))
    ensures Summarize(scan, q) == Summarize(scan, CategoryOnly(q))
  {
    if scan != [] {
      OneBoundIsIgnored(scan[1..], q);
    }
  }

  /** The category condition keeps exactly the transactions referencing that id. */
  lemma CategoryFilterExact(scan: seq<Transaction>, c: Id)
    ensures forall t :: multiset(Filter(scan, Query(None, None, Some(c))))[t] ==
                          if t.category == c then multiset(scan)[t] else 0
  {
    FilterMultiset(scan, Query(None, None, Some(c)));
  }

  /** The date and category conditions combine by AND: filtering by one then the other. */
  lemma {:induction false} FiltersCombineByAnd(scan: seq<Transaction>, q: Query)
    ensures Filter(scan, q) == Filter(Filter(scan, DateOnly(q)), CategoryOnly(q))
  {
    if scan != [] {
      FiltersCombineByAnd(scan[1..], q);
      var rest := Filter(scan[1..], DateOnly(q));
      if Matches(scan[0], DateOnly(q)) {
        assert Filter(scan, DateOnly(q)) == [scan[0]] + rest;
        assert ([scan[0]] + rest)[1..] == rest;
      }
    }
  }

  /**
   * The worked example: income 100 on 2024-01-01 and expense 50 on
   * 2024-02-01, queried for 2024-01-01..2024-01-31, gives {100, 0, 100}.
   * Dates are milliseconds since the epoch, as `new Date(...)` yields; the
   * end bound is midnight at the start of 2024-01-31, so an expense at noon
   * that day is outside the range as well.
   */
  lemma JanuaryExample()
    ensures
      var jan1 := 1704067200000;
      var jan31 := 1706659200000;
      var jan31Noon := jan31 + 43200000;
      var feb1 := 1706745600000;
      var scan := [
        Transaction(1, Income, 7, 100, "salary", jan1),
        Transaction(2, Expense, 8, 50, "rent", feb1),
        Transaction(3, Expense, 8, 20, "lunch", jan31Noon)];
      Summarize(scan, Query(Some(jan1), Some(jan31), None)) == Totals(100, 0, 100)
  {
    var jan1 := 1704067200000;
    var jan31 := 1706659200000;
    var q := Query(Some(jan1), Some(jan31), None);
    var t1 := Transaction(1, Income, 7, 100, "salary", jan1);
    var t2 := Transaction(2, Expense, 8, 50, "rent", 1706745600000);
    var t3 := Transaction(3, Expense, 8, 20, "lunch", jan31 + 43200000);
    assert [t3][1..] == [];
    assert Filter([t3], q) == [];
    assert [t2, t3][1..] == [t3];
    assert Filter([t2, t3], q) == [];
    assert [t1, t2, t3][1..] == [t2, t3];
    assert Filter([t1, t2, t3], q) == [t1];
    TallySingleton(t1);
  }
}
