/** The multi-column sorts of the dashboard (`sort_values`), as one insertion
    sort over a two-part integer key compared lexicographically. A column
    sorted descending enters the key negated. Only sortedness and
    permutation are promised: the library sort used by the dashboard is not
    guaranteed stable, so nothing is claimed about the order of rows with
    equal keys. */
module Sorting {

  /** `a` sorts no later than `b`: first parts ascending, then second parts ascending. */
  predicate KeyLe(a: (int, int), b: (int, int)) {
    a.0 < b.0 || (a.0 == b.0 && a.1 <= b.1)
  }

  predicate SortedBy<T>(s: seq<T>, key: T -> (int, int)) {
    forall i, j :: 0 <= i < j < |s| ==> KeyLe(key(s[i]), key(s[j]))
  }

  /** Inserts `x` into the sorted `s`, keeping it sorted. */
  function Insert<T>(x: T, s: seq<T>, key: T -> (int, int)): (r: seq<T>)
    requires SortedBy(s, key)
    ensures SortedBy(r, key)
    ensures multiset(r) == multiset(s) + multiset{x}
    ensures |r| == |s| + 1
  {
    if s == [] then [x]
    else if KeyLe(key(x), key(s[0])) then [x] + s
    else
      var rest := Insert(x, s[1..], key);
      assert s == [s[0]] + s[1..];
      assert forall j :: 0 <= j < |rest| ==> KeyLe(key(s[0]), key(rest[j])) by {
        forall j | 0 <= j < |rest|
          ensures KeyLe(key(s[0]), key(rest[j]))
        {
          assert rest[j] in multiset(rest);
          if rest[j] != x {
            assert rest[j] in multiset(s[1..]);
            var k :| 0 <= k < |s[1..]| && s[1..][k] == rest[j];
            assert s[k + 1] == rest[j];
          }
        }
      }
      [s[0]] + rest
  }

  /** A sorted permutation of `s`. */
  function SortBy<T>(s: seq<T>, key: T -> (int, int)): (r: seq<T>)
    ensures SortedBy(r, key)
    ensures multiset(r) == multiset(s)
    ensures |r| == |s|
  {
    if s == [] then []
    else
      assert s == [s[0]] + s[1..];
      Insert(s[0], SortBy(s[1..], key), key)
  }

  /** Sorting neither adds nor drops a row. */
  lemma SortByMembers<T>(s: seq<T>, key: T -> (int, int))
    ensures forall x :: x in SortBy(s, key) <==> x in s
  {
    var r := SortBy(s, key);
    forall x ensures x in r <==> x in s {
      assert x in r <==> x in multiset(r);
      assert x in s <==> x in multiset(s);
    }
  }
}
