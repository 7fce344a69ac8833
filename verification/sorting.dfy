/** Ordering of query results (`OrderBy`, `OrderByDescending`, `ThenBy`):
    insertion sort under a caller-supplied total preorder. The database gives
    no order among ties, so nothing is promised about them. */
module Sorting {

  /** `le` is total and transitive: a key comparison such as `a.Amount >= b.Amount`. */
  ghost predicate TotalPreorder<T(!new)>(le: (T, T) -> bool) {
    && (forall a, b :: le(a, b) || le(b, a))
    && (forall a, b, c :: le(a, b) && le(b, c) ==> le(a, c))
  }

  predicate SortedBy<T>(s: seq<T>, le: (T, T) -> bool) {
    forall i, j :: 0 <= i < j < |s| ==> le(s[i], s[j])
  }

  /** Places `x` in the sorted sequence `s`. */
  function Insert<T(!new)>(x: T, s: seq<T>, le: (T, T) -> bool): (r: seq<T>)
    requires TotalPreorder(le)
    requires SortedBy(s, le)
    ensures SortedBy(r, le)
    ensures multiset(r) == multiset(s) + multiset{x}
    ensures |r| == |s| + 1
  {
    if |s| == 0 then [x]
    else if le(x, s[0]) then
      assert forall j :: 0 <= j < |s| ==> le(x, s[j]);
      [x] + s
    else
      var rest := Insert(x, s[1..], le);
      assert s == [s[0]] + s[1..];
      LowerBoundCarries(s[0], x, s[1..], rest, le);
      ConsSorted(s[0], rest, le);
      [s[0]] + rest
  }

  /** A value below `x` and below every element of `tail` is below every
      element of a permutation of `tail` plus `x`. */
  lemma LowerBoundCarries<T(!new)>(h: T, x: T, tail: seq<T>, rest: seq<T>, le: (T, T) -> bool)
    requires le(h, x)
    requires forall j :: 0 <= j < |tail| ==> le(h, tail[j])
    requires multiset(rest) == multiset(tail) + multiset{x}
    ensures forall j :: 0 <= j < |rest| ==> le(h, rest[j])
  {
    forall j | 0 <= j < |rest|
      ensures le(h, rest[j])
    {
      assert rest[j] in multiset(rest);
      if rest[j] != x {
        assert rest[j] in multiset(tail);
        var k :| 0 <= k < |tail| && tail[k] == rest[j];
      }
    }
  }

  /** A sorted sequence stays sorted under a new head below all its elements. */
  lemma ConsSorted<T>(h: T, rest: seq<T>, le: (T, T) -> bool)
    requires SortedBy(rest, le)
    requires forall j :: 0 <= j < |rest| ==> le(h, rest[j])
    ensures SortedBy([h] + rest, le)
  {
    forall i, j | 0 <= i < j < |[h] + rest|
      ensures le(([h] + rest)[i], ([h] + rest)[j])
    {
      if i > 0 {
        assert ([h] + rest)[i] == rest[i - 1];
      }
      assert ([h] + rest)[j] == rest[j - 1];
    }
  }

  /** `s` ordered by `le`: a permutation of `s` that is sorted. */
  function SortBy<T(!new)>(s: seq<T>, le: (T, T) -> bool): (r: seq<T>)
    requires TotalPreorder(le)
    ensures SortedBy(r, le)
    ensures multiset(r) == multiset(s)
    ensures |r| == |s|
  {
    if |s| == 0 then []
    else
      assert s == [s[0]] + s[1..];
      Insert(s[0], SortBy(s[1..], le), le)
  }
}
