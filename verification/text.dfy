/** Text values as SQLite compares them, and the month key of a date. */
module Text {

  /** SQLite's default BINARY collation: compare code points from the left;
      a proper prefix sorts before the longer string. */
  predicate Le(a: string, b: string)
  {
    a == [] || (b != [] && (a[0] < b[0] || (a[0] == b[0] && Le(a[1..], b[1..]))))
  }

  predicate Lt(a: string, b: string)
  {
    Le(a, b) && a != b
  }

  lemma {:induction false} LeTotal(a: string, b: string)
    ensures Le(a, b) || Le(b, a)
  {
    if a != [] && b != [] && a[0] == b[0] {
      LeTotal(a[1..], b[1..]);
    }
  }

  lemma {:induction false} LeTransitive(a: string, b: string, c: string)
    requires Le(a, b) && Le(b, c)
    ensures Le(a, c)
  {
    if a != [] && b != [] && c != [] && a[0] == b[0] == c[0] {
      LeTransitive(a[1..], b[1..], c[1..]);
    }
  }

  lemma {:induction false} LeAntisymmetric(a: string, b: string)
    requires Le(a, b) && Le(b, a)
    ensures a == b
  {
    if a != [] && b != [] {
      LeAntisymmetric(a[1..], b[1..]);
      assert a == [a[0]] + a[1..] && b == [b[0]] + b[1..];
    }
  }

  lemma LtTransitive(a: string, b: string, c: string)
    requires Lt(a, b) && Lt(b, c)
    ensures Lt(a, c)
  {
    LeTransitive(a, b, c);
    if a == c {
      LeAntisymmetric(a, b);
    }
  }

  /** Not Le is strictly greater. */
  lemma NotLeIsGreater(a: string, b: string)
    requires !Le(a, b)
    ensures Lt(b, a)
  {
    LeTotal(a, b);
  }

  /** Characters in a month key `YYYY-MM`. */
  const MonthKeyLength := 7

  /** The `YYYY-MM` month of an ISO `YYYY-MM-DD` date: its first seven
      characters. */
  function MonthKey(date: string): (key: string)
    ensures |key| == if |date| < MonthKeyLength then |date| else MonthKeyLength
    ensures key == date[..|key|]
  {
    Prefix(date, MonthKeyLength)
  }

  /** The first n characters of s, or all of s when it is shorter. */
  function Prefix(s: string, n: nat): string
  {
    if |s| < n then s else s[..n]
  }

  lemma {:induction false} PrefixMonotone(a: string, b: string, n: nat)
    requires Le(a, b)
    ensures Le(Prefix(a, n), Prefix(b, n))
  {
    if a == [] || n == 0 {
    } else {
      assert b != [];
      var a', b' := Prefix(a, n), Prefix(b, n);
      assert a'[0] == a[0] && b'[0] == b[0];
      if a[0] == b[0] {
        PrefixMonotone(a[1..], b[1..], n - 1);
        assert a'[1..] == Prefix(a[1..], n - 1);
        assert b'[1..] == Prefix(b[1..], n - 1);
      }
    }
  }

  /** A date that sorts later never has an earlier month: ordering rows by
      date and ordering them by month key agree. */
  lemma MonthKeyMonotone(d1: string, d2: string)
    requires Le(d1, d2)
    ensures Le(MonthKey(d1), MonthKey(d2))
  {
    PrefixMonotone(d1, d2, MonthKeyLength);
  }
}
