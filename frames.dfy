/** The table operations the dashboard applies to its data frames, on
    sequences of rows: boolean row selection (`df[mask]`), `head(n)` and the
    distinct values of a column in order of first appearance. */
module Frames {

  /** `df[mask]`: the rows that satisfy `keep`, in their original order. */
  function Filter<T>(s: seq<T>, keep: T -> bool): (r: seq<T>)
    ensures forall x :: x in r ==> keep(x) && x in s
    ensures |r| <= |s|
  {
    if s == [] then []
    else
      var n := |s| - 1;
      assert s == s[..n] + [s[n]];
      Filter(s[..n], keep) + (if keep(s[n]) then [s[n]] else [])
  }

  /** A selection keeps every copy of a kept row and no copy of any other. */
  lemma {:induction false} FilterCount<T>(s: seq<T>, keep: T -> bool, x: T)
    ensures multiset(Filter(s, keep))[x] == if keep(x) then multiset(s)[x] else 0
  {
    if s != [] {
      var n := |s| - 1;
      FilterCount(s[..n], keep, x);
      assert s == s[..n] + [s[n]];
    }
  }

  /** Selection works row by row, so the kept rows keep their order. */
  lemma {:induction false} FilterAppend<T>(a: seq<T>, b: seq<T>, keep: T -> bool)
    ensures Filter(a + b, keep) == Filter(a, keep) + Filter(b, keep)
  {
    if b == [] {
      assert a + b == a;
    } else {
      var n := |b| - 1;
      var last := if keep(b[n]) then [b[n]] else [];
      assert (a + b)[..|a + b| - 1] == a + b[..n];
      assert (a + b)[|a + b| - 1] == b[n];
      assert Filter(a + b, keep) == Filter(a + b[..n], keep) + last;
      assert Filter(b, keep) == Filter(b[..n], keep) + last;
      FilterAppend(a, b[..n], keep);
    }
  }

  /** Every row of a selection sits, in the same relative order, in the
      original: a relation that holds between any earlier and any later row
      of `s` holds within the selection. */
  lemma {:induction false} FilterKeepsOrder<T>(s: seq<T>, keep: T -> bool, before: (T, T) -> bool)
    requires forall i, j :: 0 <= i < j < |s| ==> before(s[i], s[j])
    ensures forall i, j :: 0 <= i < j < |Filter(s, keep)| ==> before(Filter(s, keep)[i], Filter(s, keep)[j])
  {
    if s != [] {
      var n := |s| - 1;
      var init := Filter(s[..n], keep);
      FilterKeepsOrder(s[..n], keep, before);
      if keep(s[n]) {
        var r := Filter(s, keep);
        assert r == init + [s[n]];
        forall i, j | 0 <= i < j < |r| ensures before(r[i], r[j]) {
          if j == |r| - 1 {
            assert r[i] in init;
            assert r[i] in s[..n];
            var k :| 0 <= k < n && s[..n][k] == r[i];
            assert s[k] == r[i];
          }
        }
      }
    }
  }

  /** `head(n)`: the first `n` rows, or all of them when there are fewer. */
  function Take<T>(s: seq<T>, n: nat): (r: seq<T>)
    ensures |r| == if |s| <= n then |s| else n
    ensures r == s[..|r|]
  {
    if |s| <= n then s else s[..n]
  }

  /** `head(n)` of an ordered table is ordered and shows only its rows. */
  lemma TakeOrdered<T>(s: seq<T>, n: nat, before: (T, T) -> bool)
    requires forall i, j :: 0 <= i < j < |s| ==> before(s[i], s[j])
    ensures forall i, j :: 0 <= i < j < |Take(s, n)| ==> before(Take(s, n)[i], Take(s, n)[j])
    ensures forall x :: x in Take(s, n) ==> x in s
  {
    var v := Take(s, n);
    assert forall i :: 0 <= i < |v| ==> v[i] == s[i];
  }

  /** In a table ordered by `before`, a row that `head(n)` leaves out comes
      after all `n` rows it shows. */
  lemma TakeLeavesLater<T>(s: seq<T>, n: nat, before: (T, T) -> bool, x: T)
    requires forall i, j :: 0 <= i < j < |s| ==> before(s[i], s[j])
    requires x in s && x !in Take(s, n)
    ensures |Take(s, n)| == n
    ensures forall y :: y in Take(s, n) ==> before(y, x)
  {
    var v := Take(s, n);
    var k :| 0 <= k < |s| && s[k] == x;
    assert forall i :: 0 <= i < |v| ==> v[i] == s[i];
    assert k >= |v|;
    forall y | y in v ensures before(y, x) {
      var j :| 0 <= j < |v| && v[j] == y;
    }
  }

  /** The distinct values of `s` in order of first appearance (`unique()`). */
  function Unique<T(==)>(s: seq<T>): (r: seq<T>)
    ensures forall i, j :: 0 <= i < j < |r| ==> r[i] != r[j]
    ensures forall x :: x in r ==> x in s
    ensures forall x :: x in s ==> x in r
  {
    if s == [] then []
    else
      var n := |s| - 1;
      var init := Unique(s[..n]);
      assert s == s[..n] + [s[n]];
      if s[n] in init then init else init + [s[n]]
  }

  /** One column of a table: `f` applied to every row, in row order. */
  function Column<T, U>(s: seq<T>, f: T -> U): (r: seq<U>)
    ensures |r| == |s|
    ensures forall i :: 0 <= i < |s| ==> r[i] == f(s[i])
  {
    seq(|s|, i requires 0 <= i < |s| => f(s[i]))
  }

  lemma ColumnAppend<T, U>(a: seq<T>, b: seq<T>, f: T -> U)
    ensures Column(a + b, f) == Column(a, f) + Column(b, f)
  {
  }

  /** Reordering the rows reorders the column the same way. */
  lemma {:induction false} ColumnPermutation<T, U>(a: seq<T>, b: seq<T>, f: T -> U)
    requires multiset(a) == multiset(b)
    ensures multiset(Column(a, f)) == multiset(Column(b, f))
    decreases |a|
  {
    if a == [] {
      assert |b| == |multiset(b)| == 0;
    } else {
      var n := |a| - 1;
      var x := a[n];
      assert a == a[..n] + [x];
      assert x in multiset(b);
      var k :| 0 <= k < |b| && b[k] == x;
      var b' := b[..k] + b[k + 1..];
      assert b == b[..k] + [x] + b[k + 1..];
      assert multiset(a[..n]) == multiset(a) - multiset{x};
      assert multiset(b') == multiset(b) - multiset{x};
      ColumnPermutation(a[..n], b', f);
      ColumnAppend(a[..n], [x], f);
      ColumnAppend(b[..k] + [x], b[k + 1..], f);
      ColumnAppend(b[..k], [x], f);
      ColumnAppend(b[..k], b[k + 1..], f);
    }
  }

  /** A sequence without repeats holds each value at most once. */
  lemma {:induction false} DistinctCount<T>(s: seq<T>, x: T)
    requires forall i, j :: 0 <= i < j < |s| ==> s[i] != s[j]
    ensures multiset(s)[x] <= 1
  {
    if s != [] {
      var n := |s| - 1;
      assert s == s[..n] + [s[n]];
      DistinctCount(s[..n], x);
      if s[n] == x {
        assert x !in s[..n];
      }
    }
  }

  /** Reordering a sequence without repeats leaves it without repeats. */
  lemma DistinctPermutation<T>(a: seq<T>, b: seq<T>)
    requires multiset(a) == multiset(b)
    requires forall i, j :: 0 <= i < j < |a| ==> a[i] != a[j]
    ensures forall i, j :: 0 <= i < j < |b| ==> b[i] != b[j]
  {
    forall i, j | 0 <= i < j < |b|
      ensures b[i] != b[j]
    {
      DistinctCount(a, b[j]);
      RepeatCount(b, i, j);
    }
  }

  /** A value at two positions is counted at least twice. */
  lemma RepeatCount<T>(s: seq<T>, i: nat, j: nat)
    requires i < j < |s|
    ensures s[i] == s[j] ==> multiset(s)[s[j]] >= 2
  {
    assert s == s[..j] + s[j..];
    assert s[j..][0] == s[j];
    assert s[..j][i] == s[i];
  }
}
