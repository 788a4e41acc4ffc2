/** The dashboard: the ten most recent transactions of the user and the
    income, expense and balance totals. */
module Dashboard {
  import opened Text
  import opened Ledger

  /** How many rows the dashboard lists. */
  const RecentLimit := 10

  datatype Totals = Totals(income: real, expense: real, balance: real)

  /** The two SUM queries of the dashboard and the balance computed from
      them. */
  function TotalsOf(ts: seq<Txn>, userId: nat): (r: Totals)
    ensures r.balance == r.income - r.expense
  {
    var own := Select(ts, OwnedBy(userId));
    var income := Sum(Select(own, OfKind(Income)));
    var expense := Sum(Select(own, OfKind(Expense)));
    Totals(income, expense, income - expense)
  }

  /** A user with no rows sees (0, 0, 0), and the balance is always income
      minus expense. */
  lemma TotalsOfEmpty(ts: seq<Txn>, userId: nat)
    requires forall t :: t in ts ==> t.userId != userId
    ensures TotalsOf(ts, userId) == Totals(0.0, 0.0, 0.0)
  {
    SelectNone(ts, OwnedBy(userId));
  }

  /** Totals over positive amounts: income and expense are non-negative. */
  lemma TotalsNonNegative(ts: seq<Txn>, userId: nat)
    requires forall t :: t in ts ==> t.amount > 0.0
    ensures TotalsOf(ts, userId).income >= 0.0
    ensures TotalsOf(ts, userId).expense >= 0.0
  {
    var own := Select(ts, OwnedBy(userId));
    SumNonNegative(Select(own, OfKind(Income)));
    SumNonNegative(Select(own, OfKind(Expense)));
  }

  /** Appending a row changes its owner's totals by exactly its amount, on
      the side its type names, and changes no other user's totals. */
  lemma TotalsAfterAppend(ts: seq<Txn>, t: Txn, userId: nat)
    ensures var before, after := TotalsOf(ts, userId), TotalsOf(ts + [t], userId);
      && (t.userId != userId ==> after == before)
      && (t.userId == userId ==>
            && after.income == before.income + (if t.kind == Income then t.amount else 0.0)
            && after.expense == before.expense + (if t.kind == Expense then t.amount else 0.0)
            && after.balance == before.balance
                 + (if t.kind == Income then t.amount else 0.0)
                 - (if t.kind == Expense then t.amount else 0.0))
  {
    var own := Select(ts, OwnedBy(userId));
    SelectAppend(ts, [t], OwnedBy(userId));
    var added := Select([t], OwnedBy(userId));
    SelectAppend(own, added, OfKind(Income));
    SelectAppend(own, added, OfKind(Expense));
    SumAppend(Select(own, OfKind(Income)), Select(added, OfKind(Income)));
    SumAppend(Select(own, OfKind(Expense)), Select(added, OfKind(Expense)));
  }

  /** Rows ordered by date, latest first (equal dates in any order). */
  predicate NewestFirst(s: seq<Txn>)
  {
    forall i, j :: 0 <= i < j < |s| ==> Le(s[j].date, s[i].date)
  }

  function InsertByDate(t: Txn, s: seq<Txn>): (r: seq<Txn>)
    ensures multiset(r) == multiset(s) + multiset{t}
  {
    if s == [] || Le(s[0].date, t.date) then [t] + s
    else
      assert s == [s[0]] + s[1..];
      [s[0]] + InsertByDate(t, s[1..])
  }

  /** The rows of s, newest date first. */
  function SortByDate(s: seq<Txn>): (r: seq<Txn>)
    ensures multiset(r) == multiset(s)
  {
    if s == [] then []
    else
      assert s == [s[0]] + s[1..];
      InsertByDate(s[0], SortByDate(s[1..]))
  }

  lemma {:induction false} InsertByDateNewestFirst(t: Txn, s: seq<Txn>)
    requires NewestFirst(s)
    ensures NewestFirst(InsertByDate(t, s))
  {
    var r := InsertByDate(t, s);
    if s == [] || Le(s[0].date, t.date) {
      forall i, j | 0 <= i < j < |r| ensures Le(r[j].date, r[i].date) {
        if i == 0 && j > 1 {
          LeTransitive(s[j - 1].date, s[0].date, t.date);
        }
      }
    } else {
      var rest := InsertByDate(t, s[1..]);
      InsertByDateNewestFirst(t, s[1..]);
      LeTotal(s[0].date, t.date);
      forall i, j | 0 <= i < j < |r| ensures Le(r[j].date, r[i].date) {
        if i == 0 {
          var x := rest[j - 1];
          assert x in multiset(rest);
          if x != t {
            assert x in multiset(s[1..]);
            var k :| 0 <= k < |s[1..]| && s[1..][k] == x;
            assert s[k + 1] == x;
          }
        }
      }
    }
  }

  lemma {:induction false} SortByDateNewestFirst(s: seq<Txn>)
    ensures NewestFirst(SortByDate(s))
  {
    if s != [] {
      SortByDateNewestFirst(s[1..]);
      InsertByDateNewestFirst(s[0], SortByDate(s[1..]));
    }
  }

  /** The dashboard's list: the user's rows, latest date first, at most ten
      of them (rows of equal date come in the order the sort leaves them). */
  function RecentTransactions(ts: seq<Txn>, userId: nat): (r: seq<Txn>)
    ensures |r| <= RecentLimit
  {
    Limit(SortByDate(Select(ts, OwnedBy(userId))), RecentLimit)
  }

  /** The first n rows of the sorted s are rows of s, none repeated more
      often than s holds it. */
  lemma NewestRowsFromInput(s: seq<Txn>, n: nat)
    ensures multiset(Limit(SortByDate(s), n)) <= multiset(s)
    ensures forall t :: t in Limit(SortByDate(s), n) ==> t in s
  {
    var sorted := SortByDate(s);
    var r := Limit(sorted, n);
    assert sorted == r + sorted[|r|..];
    forall t | t in r ensures t in s {
      assert t in multiset(sorted);
    }
  }

  /** A row of s left out of the first n sorted rows is no later than any
      of them. */
  lemma LeftOutRowIsOlder(s: seq<Txn>, n: nat, t: Txn)
    requires t in s && t !in Limit(SortByDate(s), n)
    ensures var r := Limit(SortByDate(s), n);
      forall i :: 0 <= i < |r| ==> Le(t.date, r[i].date)
  {
    var sorted := SortByDate(s);
    var r := Limit(sorted, n);
    SortByDateNewestFirst(s);
    assert t in multiset(sorted);
    var j :| 0 <= j < |sorted| && sorted[j] == t;
    forall i | 0 <= i < |r| ensures Le(t.date, r[i].date) {
      assert r[i] == sorted[i];
    }
  }

  /** The recent list holds min(10, n) of the user's n rows, only theirs,
      newest first, each at most as often as stored; every row of theirs
      that is left out is no newer than any row shown. */
  lemma RecentTransactionsSpec(ts: seq<Txn>, userId: nat)
    ensures var r, own := RecentTransactions(ts, userId), Select(ts, OwnedBy(userId));
      && |r| == (if |own| <= RecentLimit then |own| else RecentLimit)
      && (forall t :: t in r ==> t in ts && t.userId == userId)
      && NewestFirst(r)
      && multiset(r) <= multiset(own)
      && (forall t :: t in ts && t.userId == userId && t !in r ==>
            forall i :: 0 <= i < |r| ==> Le(t.date, r[i].date))
  {
    var own := Select(ts, OwnedBy(userId));
    var sorted := SortByDate(own);
    var r := RecentTransactions(ts, userId);
    SortByDateNewestFirst(own);
    NewestRowsFromInput(own, RecentLimit);
    assert NewestFirst(r) by {
      forall i, j | 0 <= i < j < |r| ensures Le(r[j].date, r[i].date) {
        assert r[i] == sorted[i] && r[j] == sorted[j];
      }
    }
    forall t | t in ts && t.userId == userId && t !in r
      ensures forall i :: 0 <= i < |r| ==> Le(t.date, r[i].date)
    {
      LeftOutRowIsOlder(own, RecentLimit, t);
    }
  }
}
