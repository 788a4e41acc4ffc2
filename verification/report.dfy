/** The report page: income and expense per month, and the five categories
    with the largest spending in the current month. */
module Report {
  import opened Text
  import opened Ledger
  import Dashboard

  /** How many categories the report lists. */
  const TopCategoryLimit := 5

  datatype MonthRow = MonthRow(month: string, income: real, expense: real)

  datatype CategoryRow = CategoryRow(category: string, totalSpent: real)

  predicate Distinct(s: seq<string>)
  {
    forall i, j :: 0 <= i < j < |s| ==> s[i] != s[j]
  }

  // ---------------------------------------------------------------------
  // Monthly summary: one row per month key, latest month first
  // ---------------------------------------------------------------------

  /** Month keys in strictly descending order (hence without repeats). */
  predicate StrictlyNewestFirst(ks: seq<string>)
  {
    forall i, j :: 0 <= i < j < |ks| ==> Lt(ks[j], ks[i])
  }

  /** Adds k to a descending key list unless it is already there. */
  function InsertMonth(k: string, ks: seq<string>): (r: seq<string>)
    ensures forall x :: x in r <==> x == k || x in ks
  {
    if ks == [] then [k]
    else if ks[0] == k then ks
    else if Le(ks[0], k) then [k] + ks
    else [ks[0]] + InsertMonth(k, ks[1..])
  }

  /** The distinct month keys of the rows ts. */
  function MonthKeys(ts: seq<Txn>): (ks: seq<string>)
    ensures forall k :: k in ks <==> exists t :: t in ts && MonthKey(t.date) == k
  {
    if ts == [] then []
    else InsertMonth(MonthKey(ts[0].date), MonthKeys(ts[1..]))
  }

  lemma {:induction false} InsertMonthOrdered(k: string, ks: seq<string>)
    requires StrictlyNewestFirst(ks)
    ensures StrictlyNewestFirst(InsertMonth(k, ks))
  {
    var r := InsertMonth(k, ks);
    if ks == [] || ks[0] == k {
    } else if Le(ks[0], k) {
      forall i, j | 0 <= i < j < |r| ensures Lt(r[j], r[i]) {
        if i == 0 && j > 1 {
          LtTransitive(ks[j - 1], ks[0], k);
        }
      }
    } else {
      var rest := InsertMonth(k, ks[1..]);
      InsertMonthOrdered(k, ks[1..]);
      NotLeIsGreater(ks[0], k);
      forall i, j | 0 <= i < j < |r| ensures Lt(r[j], r[i]) {
        if i == 0 {
          assert r[j] == rest[j - 1];
          assert rest[j - 1] in rest;
        }
      }
    }
  }

  lemma {:induction false} MonthKeysOrdered(ts: seq<Txn>)
    ensures StrictlyNewestFirst(MonthKeys(ts))
  {
    if ts != [] {
      MonthKeysOrdered(ts[1..]);
      InsertMonthOrdered(MonthKey(ts[0].date), MonthKeys(ts[1..]));
    }
  }

  /** The total of the rows of ts of type `kind` in month m (0 when there
      are none). */
  function MonthSum(ts: seq<Txn>, m: string, kind: string): real
  {
    Sum(Select(Select(ts, InMonth(m)), OfKind(kind)))
  }

  /** One output row per key of ks, in the order of ks. */
  function MonthRows(own: seq<Txn>, ks: seq<string>): (rows: seq<MonthRow>)
    ensures |rows| == |ks|
    ensures forall i :: 0 <= i < |ks| ==>
      rows[i] == MonthRow(ks[i], MonthSum(own, ks[i], Income), MonthSum(own, ks[i], Expense))
  {
    if ks == [] then []
    else [MonthRow(ks[0], MonthSum(own, ks[0], Income), MonthSum(own, ks[0], Expense))]
         + MonthRows(own, ks[1..])
  }

  /** The monthly-summary query of the report: each row carries the user's
      exact income and expense totals of its month. */
  function MonthlyBreakdown(ts: seq<Txn>, userId: nat): (rows: seq<MonthRow>)
    ensures forall i :: 0 <= i < |rows| ==>
      && rows[i].income == MonthTotal(ts, userId, rows[i].month, Income)
      && rows[i].expense == MonthTotal(ts, userId, rows[i].month, Expense)
  {
    var own := Select(ts, OwnedBy(userId));
    MonthRows(own, MonthKeys(own))
  }

  /** The exact total of the user's rows of type `kind` in month m. */
  function MonthTotal(ts: seq<Txn>, userId: nat, m: string, kind: string): real
  {
    Sum(Select(Select(Select(ts, OwnedBy(userId)), InMonth(m)), OfKind(kind)))
  }

  /** Strictly newest month first, so no month appears twice. */
  lemma MonthlyBreakdownOrdered(ts: seq<Txn>, userId: nat)
    ensures var rows := MonthlyBreakdown(ts, userId);
      && (forall i, j :: 0 <= i < j < |rows| ==> Lt(rows[j].month, rows[i].month))
      && (forall i, j :: 0 <= i < |rows| && 0 <= j < |rows| && rows[i].month == rows[j].month ==> i == j)
  {
    MonthKeysOrdered(Select(ts, OwnedBy(userId)));
  }

  /** Each of the user's rows falls in some monthly row (in exactly one,
      with MonthlyBreakdownOrdered). */
  lemma MonthlyBreakdownCovers(ts: seq<Txn>, userId: nat)
    ensures var rows := MonthlyBreakdown(ts, userId);
      forall t :: t in ts && t.userId == userId ==>
        exists i :: 0 <= i < |rows| && rows[i].month == MonthKey(t.date)
  {
    var own := Select(ts, OwnedBy(userId));
    var ks := MonthKeys(own);
    var rows := MonthlyBreakdown(ts, userId);
    forall t | t in ts && t.userId == userId
      ensures exists i :: 0 <= i < |rows| && rows[i].month == MonthKey(t.date)
    {
      assert t in own;
      assert MonthKey(t.date) in ks;
      var i :| 0 <= i < |ks| && ks[i] == MonthKey(t.date);
      assert rows[i].month == MonthKey(t.date);
    }
  }

  /** No monthly row is empty: each comes from one of the user's rows. */
  lemma MonthlyBreakdownFromOwnRows(ts: seq<Txn>, userId: nat)
    ensures var rows := MonthlyBreakdown(ts, userId);
      forall i :: 0 <= i < |rows| ==>
        exists t :: t in ts && t.userId == userId && MonthKey(t.date) == rows[i].month
  {
    var own := Select(ts, OwnedBy(userId));
    var ks := MonthKeys(own);
    var rows := MonthlyBreakdown(ts, userId);
    forall i | 0 <= i < |rows|
      ensures exists t :: t in ts && t.userId == userId && MonthKey(t.date) == rows[i].month
    {
      assert ks[i] in ks;
      var t :| t in own && MonthKey(t.date) == ks[i];
      assert t in ts && t.userId == userId;
    }
  }

  /** Column sums of a monthly summary. */
  function IncomeColumn(rows: seq<MonthRow>): real
  {
    if rows == [] then 0.0 else rows[0].income + IncomeColumn(rows[1..])
  }

  function ExpenseColumn(rows: seq<MonthRow>): real
  {
    if rows == [] then 0.0 else rows[0].expense + ExpenseColumn(rows[1..])
  }

  /** The sum of MonthSum over the keys ks. */
  function MonthsTotal(ts: seq<Txn>, ks: seq<string>, kind: string): real
  {
    if ks == [] then 0.0 else MonthSum(ts, ks[0], kind) + MonthsTotal(ts, ks[1..], kind)
  }

  lemma {:induction false} ColumnsAreMonthsTotals(own: seq<Txn>, ks: seq<string>)
    ensures IncomeColumn(MonthRows(own, ks)) == MonthsTotal(own, ks, Income)
    ensures ExpenseColumn(MonthRows(own, ks)) == MonthsTotal(own, ks, Expense)
  {
    if ks != [] {
      ColumnsAreMonthsTotals(own, ks[1..]);
      assert MonthRows(own, ks)[1..] == MonthRows(own, ks[1..]);
    }
  }

  /** How one row t in front of `rest` contributes to MonthSum. */
  lemma MonthSumCons(t: Txn, rest: seq<Txn>, m: string, kind: string)
    ensures MonthSum([t] + rest, m, kind)
         == (if MonthKey(t.date) == m && t.kind == kind then t.amount else 0.0) + MonthSum(rest, m, kind)
  {
    SelectAppend([t], rest, InMonth(m));
    SelectAppend(Select([t], InMonth(m)), Select(rest, InMonth(m)), OfKind(kind));
    SumAppend(Select(Select([t], InMonth(m)), OfKind(kind)), Select(Select(rest, InMonth(m)), OfKind(kind)));
  }

  /** Over distinct keys, a row adds its amount once if its month is among
      them and not at all otherwise. */
  lemma {:induction false} MonthsTotalCons(t: Txn, rest: seq<Txn>, ks: seq<string>, kind: string)
    requires Distinct(ks)
    ensures MonthsTotal([t] + rest, ks, kind)
         == MonthsTotal(rest, ks, kind) + (if MonthKey(t.date) in ks && t.kind == kind then t.amount else 0.0)
  {
    if ks != [] {
      var tail := ks[1..];
      assert Distinct(tail) by {
        forall i, j | 0 <= i < j < |tail| ensures tail[i] != tail[j] {
          assert tail[i] == ks[i + 1] && tail[j] == ks[j + 1];
        }
      }
      MonthSumCons(t, rest, ks[0], kind);
      MonthsTotalCons(t, rest, tail, kind);
      assert MonthKey(t.date) in ks <==> MonthKey(t.date) == ks[0] || MonthKey(t.date) in tail by {
        assert ks == [ks[0]] + tail;
      }
    }
  }

  /** Summing per month over distinct keys that cover every row's month
      gives the plain total. */
  lemma {:induction false} MonthsTotalCovers(ts: seq<Txn>, ks: seq<string>, kind: string)
    requires Distinct(ks)
    requires forall t :: t in ts ==> MonthKey(t.date) in ks
    ensures MonthsTotal(ts, ks, kind) == Sum(Select(ts, OfKind(kind)))
  {
    if ts == [] {
      MonthsTotalZero(ks, kind);
    } else {
      assert ts == [ts[0]] + ts[1..];
      MonthsTotalCons(ts[0], ts[1..], ks, kind);
      MonthsTotalCovers(ts[1..], ks, kind);
    }
  }

  lemma {:induction false} MonthsTotalZero(ks: seq<string>, kind: string)
    ensures MonthsTotal([], ks, kind) == 0.0
  {
    if ks != [] {
      MonthsTotalZero(ks[1..], kind);
    }
  }

  /** The monthly summary accounts for every transaction once: its income
      and expense columns add up to the dashboard's totals. */
  lemma MonthlyBreakdownConserves(ts: seq<Txn>, userId: nat)
    ensures IncomeColumn(MonthlyBreakdown(ts, userId)) == Dashboard.TotalsOf(ts, userId).income
    ensures ExpenseColumn(MonthlyBreakdown(ts, userId)) == Dashboard.TotalsOf(ts, userId).expense
  {
    var own := Select(ts, OwnedBy(userId));
    var ks := MonthKeys(own);
    MonthKeysOrdered(own);
    ColumnsAreMonthsTotals(own, ks);
    MonthsTotalCovers(own, ks, Income);
    MonthsTotalCovers(own, ks, Expense);
  }

  // ---------------------------------------------------------------------
  // Top categories: one row per category, largest spending first, five at most
  // ---------------------------------------------------------------------

  /** The user's 'Expense' rows whose month key is `month`. */
  function MonthExpenses(ts: seq<Txn>, userId: nat, month: string): seq<Txn>
  {
    Select(Select(Select(ts, OwnedBy(userId)), OfKind(Expense)), InMonth(month))
  }

  lemma MonthExpensesMember(ts: seq<Txn>, userId: nat, month: string, t: Txn)
    ensures t in MonthExpenses(ts, userId, month)
        <==> t in ts && t.userId == userId && t.kind == Expense && MonthKey(t.date) == month
  {
  }

  /** What the user spent on `category` in `month`, exactly. */
  function CategorySpend(ts: seq<Txn>, userId: nat, month: string, category: string): real
  {
    Sum(Select(MonthExpenses(ts, userId, month), InCategory(category)))
  }

  /** The distinct categories of the rows es. */
  function Categories(es: seq<Txn>): (cs: seq<string>)
    ensures forall c :: c in cs <==> exists t :: t in es && t.category == c
    ensures Distinct(cs)
  {
    if es == [] then []
    else
      var rest := Categories(es[1..]);
      if es[0].category in rest then rest else [es[0].category] + rest
  }

  /** One row per category of cs with its sum over es. */
  function CategoryRows(es: seq<Txn>, cs: seq<string>): seq<CategoryRow>
  {
    seq(|cs|, i requires 0 <= i < |cs| => CategoryRow(cs[i], Sum(Select(es, InCategory(cs[i])))))
  }

  /** Rows ordered by total, largest first (equal totals in any order). */
  predicate LargestFirst(rows: seq<CategoryRow>)
  {
    forall i, j :: 0 <= i < j < |rows| ==> rows[j].totalSpent <= rows[i].totalSpent
  }

  predicate DistinctCategories(rows: seq<CategoryRow>)
  {
    forall i, j :: 0 <= i < j < |rows| ==> rows[i].category != rows[j].category
  }

  function InsertByTotal(row: CategoryRow, rows: seq<CategoryRow>): (r: seq<CategoryRow>)
    ensures multiset(r) == multiset(rows) + multiset{row}
  {
    if rows == [] || rows[0].totalSpent <= row.totalSpent then [row] + rows
    else
      assert rows == [rows[0]] + rows[1..];
      [rows[0]] + InsertByTotal(row, rows[1..])
  }

  /** The rows, largest total first. */
  function SortByTotal(rows: seq<CategoryRow>): (r: seq<CategoryRow>)
    ensures multiset(r) == multiset(rows)
  {
    if rows == [] then []
    else
      assert rows == [rows[0]] + rows[1..];
      InsertByTotal(rows[0], SortByTotal(rows[1..]))
  }

  lemma {:induction false} InsertByTotalKeepsOrder(row: CategoryRow, rows: seq<CategoryRow>)
    requires LargestFirst(rows)
    requires DistinctCategories(rows)
    requires forall x :: x in rows ==> x.category != row.category
    ensures LargestFirst(InsertByTotal(row, rows))
    ensures DistinctCategories(InsertByTotal(row, rows))
  {
    var r := InsertByTotal(row, rows);
    if rows != [] && rows[0].totalSpent > row.totalSpent {
      var rest := InsertByTotal(row, rows[1..]);
      InsertByTotalKeepsOrder(row, rows[1..]);
      forall j | 0 < j < |r|
        ensures r[j].totalSpent <= r[0].totalSpent && r[j].category != r[0].category
      {
        assert r[j] == rest[j - 1];
        InsertedRowFrom(row, rows[1..], rest[j - 1]);
        if rest[j - 1] != row {
          TailBelowHead(rows, rest[j - 1]);
        }
      }
    }
  }

  /** A row of an insertion result is the inserted row or an old one. */
  lemma InsertedRowFrom(row: CategoryRow, rows: seq<CategoryRow>, x: CategoryRow)
    requires x in InsertByTotal(row, rows)
    ensures x == row || x in rows
  {
    assert x in multiset(InsertByTotal(row, rows));
  }

  /** In a largest-first list with distinct categories, every later row is
      at most the first and names another category. */
  lemma TailBelowHead(rows: seq<CategoryRow>, x: CategoryRow)
    requires LargestFirst(rows) && DistinctCategories(rows)
    requires rows != [] && x in rows[1..]
    ensures x.totalSpent <= rows[0].totalSpent && x.category != rows[0].category
  {
    var k :| 0 <= k < |rows[1..]| && rows[1..][k] == x;
    assert rows[k + 1] == x;
  }

  lemma {:induction false} SortByTotalKeepsOrder(rows: seq<CategoryRow>)
    requires DistinctCategories(rows)
    ensures LargestFirst(SortByTotal(rows))
    ensures DistinctCategories(SortByTotal(rows))
  {
    if rows != [] {
      var sortedRest := SortByTotal(rows[1..]);
      SortByTotalKeepsOrder(rows[1..]);
      forall x | x in sortedRest ensures x.category != rows[0].category {
        assert x in multiset(rows[1..]);
        var k :| 0 <= k < |rows[1..]| && rows[1..][k] == x;
        assert rows[k + 1] == x;
      }
      InsertByTotalKeepsOrder(rows[0], sortedRest);
    }
  }

  /** The category rows of es before truncation, largest total first. */
  function CategoryTable(es: seq<Txn>): seq<CategoryRow>
  {
    SortByTotal(CategoryRows(es, Categories(es)))
  }

  /** The category query of the report for the month `month`. */
  function TopCategories(ts: seq<Txn>, userId: nat, month: string): (r: seq<CategoryRow>)
    ensures |r| <= TopCategoryLimit
  {
    Limit(CategoryTable(MonthExpenses(ts, userId, month)), TopCategoryLimit)
  }

  /** The table is largest first and names each category once. */
  lemma CategoryTableOrdered(es: seq<Txn>)
    ensures LargestFirst(CategoryTable(es))
    ensures DistinctCategories(CategoryTable(es))
  {
    SortByTotalKeepsOrder(CategoryRows(es, Categories(es)));
  }

  /** Each row of the table is a category of es with its exact total. */
  lemma CategoryTableRow(es: seq<Txn>, x: CategoryRow)
    requires x in CategoryTable(es)
    ensures x.totalSpent == Sum(Select(es, InCategory(x.category)))
    ensures exists t :: t in es && t.category == x.category
  {
    var cs := Categories(es);
    var rows := CategoryRows(es, cs);
    assert x in multiset(rows);
    var k :| 0 <= k < |rows| && rows[k] == x;
    assert cs[k] in cs;
  }

  /** Each category of es has a row in the table. */
  lemma CategoryTableCovers(es: seq<Txn>, t: Txn)
    requires t in es
    ensures exists x :: x in CategoryTable(es) && x.category == t.category
  {
    var cs := Categories(es);
    var rows := CategoryRows(es, cs);
    assert t.category in cs;
    var k :| 0 <= k < |cs| && cs[k] == t.category;
    assert rows[k] in multiset(CategoryTable(es));
  }

  /** At most five rows, one per category, largest total first, each
      carrying exactly the user's spending on that category in that month. */
  lemma TopCategoriesSpec(ts: seq<Txn>, userId: nat, month: string)
    ensures var r := TopCategories(ts, userId, month);
      && |r| <= TopCategoryLimit
      && LargestFirst(r)
      && DistinctCategories(r)
      && (forall i :: 0 <= i < |r| ==>
            r[i].totalSpent == CategorySpend(ts, userId, month, r[i].category))
  {
    var es := MonthExpenses(ts, userId, month);
    var table := CategoryTable(es);
    var r := TopCategories(ts, userId, month);
    CategoryTableOrdered(es);
    forall i | 0 <= i < |r|
      ensures r[i].totalSpent == CategorySpend(ts, userId, month, r[i].category)
    {
      assert r[i] == table[i];
      CategoryTableRow(es, table[i]);
    }
  }

  /** Every category shown is one the user spent on in that month. */
  lemma TopCategoriesFromOwnExpenses(ts: seq<Txn>, userId: nat, month: string)
    ensures var r := TopCategories(ts, userId, month);
      forall i :: 0 <= i < |r| ==>
        exists t :: t in ts && t.userId == userId && t.kind == Expense
                 && MonthKey(t.date) == month && t.category == r[i].category
  {
    var es := MonthExpenses(ts, userId, month);
    var table := CategoryTable(es);
    var r := TopCategories(ts, userId, month);
    forall i | 0 <= i < |r|
      ensures exists t :: t in ts && t.userId == userId && t.kind == Expense
                       && MonthKey(t.date) == month && t.category == r[i].category
    {
      assert r[i] == table[i];
      CategoryTableRow(es, table[i]);
      var t :| t in es && t.category == r[i].category;
      MonthExpensesMember(ts, userId, month, t);
    }
  }

  /** A row of a largest-first list is either among its first n rows, or
      those are n rows each at least as large as it. */
  lemma LimitLargestFirst(sorted: seq<CategoryRow>, n: nat, x: CategoryRow)
    requires LargestFirst(sorted) && x in sorted
    ensures var r := Limit(sorted, n);
      || x in r
      || (|r| == n && forall i :: 0 <= i < |r| ==> x.totalSpent <= r[i].totalSpent)
  {
    var r := Limit(sorted, n);
    var j :| 0 <= j < |sorted| && sorted[j] == x;
    if j < |r| {
      assert r[j] == x;
    }
  }

  /** A category the user spent on in that month is either shown, or five
      rows are shown, each at least as large as it. */
  lemma TopCategoriesComplete(ts: seq<Txn>, userId: nat, month: string, t: Txn)
    requires t in ts && t.userId == userId && t.kind == Expense && MonthKey(t.date) == month
    ensures var r := TopCategories(ts, userId, month);
      || (exists i :: 0 <= i < |r| && r[i].category == t.category)
      || (&& |r| == TopCategoryLimit
          && forall i :: 0 <= i < |r| ==> CategorySpend(ts, userId, month, t.category) <= r[i].totalSpent)
  {
    var es := MonthExpenses(ts, userId, month);
    var table := CategoryTable(es);
    MonthExpensesMember(ts, userId, month, t);
    CategoryTableCovers(es, t);
    var x :| x in table && x.category == t.category;
    CategoryTableRow(es, x);
    CategoryTableOrdered(es);
    LimitLargestFirst(table, TopCategoryLimit, x);
    var r := TopCategories(ts, userId, month);
    if x in r {
      var i :| 0 <= i < |r| && r[i] == x;
    }
  }
}
