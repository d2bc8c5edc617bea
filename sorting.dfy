/** Ordering rows the way an SQL `ORDER BY` clause does, for an order in which
    any two distinct rows of the input compare one way or the other. */
module Sorting {

  ghost predicate Irreflexive<T(!new)>(lt: (T, T) -> bool) {
    forall a :: !lt(a, a)
  }

  ghost predicate Transitive<T(!new)>(lt: (T, T) -> bool) {
    forall a, b, c :: lt(a, b) && lt(b, c) ==> lt(a, c)
  }

  /** Every two positions of `s` hold rows that `lt` tells apart. */
  ghost predicate Comparable<T(!new)>(s: seq<T>, lt: (T, T) -> bool) {
    forall i, j :: 0 <= i < |s| && 0 <= j < |s| && i != j ==> lt(s[i], s[j]) || lt(s[j], s[i])
  }

  /** Each row comes strictly before every later row. */
  ghost predicate Sorted<T(!new)>(s: seq<T>, lt: (T, T) -> bool) {
    forall i, j :: 0 <= i < j < |s| ==> lt(s[i], s[j])
  }

  /** Puts `x` in front of the first row it comes before. */
  function Insert<T(!new)>(x: T, s: seq<T>, lt: (T, T) -> bool): (r: seq<T>)
    ensures multiset(r) == multiset(s) + multiset{x}
    decreases |s|
  {
    if s == [] then [x]
    else if lt(x, s[0]) then [x] + s
    else
      assert s == [s[0]] + s[1..];
      [s[0]] + Insert(x, s[1..], lt)
  }

  /** Insertion sort. */
  function Sort<T(!new)>(s: seq<T>, lt: (T, T) -> bool): (r: seq<T>)
    ensures multiset(r) == multiset(s)
    decreases |s|
  {
    if s == [] then []
    else
      assert s == [s[0]] + s[1..];
      Insert(s[0], Sort(s[1..], lt), lt)
  }

  lemma {:induction false} InsertSorted<T(!new)>(x: T, s: seq<T>, lt: (T, T) -> bool)
    requires Transitive(lt)
    requires Sorted(s, lt)
    requires forall y :: y in s ==> lt(x, y) || lt(y, x)
    ensures Sorted(Insert(x, s, lt), lt)
    decreases |s|
  {
    if s != [] && !lt(x, s[0]) {
      InsertSorted(x, s[1..], lt);
      var r := Insert(x, s[1..], lt);
      forall y | y in r
        ensures lt(s[0], y)
      {
        assert y in multiset(r);
        assert y == x || y in multiset(s[1..]);
      }
      assert Insert(x, s, lt) == [s[0]] + r;
    }
  }

  /** The result of `Sort` is ordered and holds the same rows as its input. */
  lemma {:induction false} SortSorted<T(!new)>(s: seq<T>, lt: (T, T) -> bool)
    requires Transitive(lt)
    requires Comparable(s, lt)
    ensures Sorted(Sort(s, lt), lt)
    ensures multiset(Sort(s, lt)) == multiset(s)
    decreases |s|
  {
    if s != [] {
      var tail := s[1..];
      assert Comparable(tail, lt) by {
        forall i, j | 0 <= i < |tail| && 0 <= j < |tail| && i != j
          ensures lt(tail[i], tail[j]) || lt(tail[j], tail[i])
        {
          assert tail[i] == s[i + 1] && tail[j] == s[j + 1];
        }
      }
      SortSorted(tail, lt);
      var t := Sort(tail, lt);
      forall y | y in t
        ensures lt(s[0], y) || lt(y, s[0])
      {
        assert y in multiset(tail);
        var k :| 0 <= k < |tail| && tail[k] == y;
        assert s[k + 1] == y;
      }
      InsertSorted(s[0], t, lt);
    }
  }
}
