/** Revenue reporting over the government-revenue ledger
    (Controllers/TaxationController.cs): the dashboard's period sums, the
    per-category and per-month groupings, the date-range report and the
    receipt download. Database queries become filters, groupings and sorts
    over the ledger as a sequence of entries. */
module Revenue {

  import opened Common
  import opened Clock
  import opened Sorting
  import opened Profiles
  import opened Tax

  // ---------------------------------------------------------------- filters

  /** `Where(p)`: the entries satisfying `p`, in ledger order. */
  function Where(s: seq<GovernmentRevenue>, p: GovernmentRevenue -> bool): (r: seq<GovernmentRevenue>)
    ensures |r| <= |s|
    ensures forall e :: e in r <==> e in s && p(e)
    ensures forall e :: multiset(r)[e] == if p(e) then multiset(s)[e] else 0
  {
    if |s| == 0 then []
    else
      assert s == [s[0]] + s[1..];
      if p(s[0]) then [s[0]] + Where(s[1..], p) else Where(s[1..], p)
  }

  /** With no negative amounts, a filter that admits more entries sums to more. */
  lemma {:induction false} WhereSumMonotone(s: seq<GovernmentRevenue>, p: GovernmentRevenue -> bool, q: GovernmentRevenue -> bool)
    requires forall i :: 0 <= i < |s| ==> s[i].amount >= 0.0
    requires forall i :: 0 <= i < |s| && p(s[i]) ==> q(s[i])
    ensures SumRevenue(Where(s, p)) <= SumRevenue(Where(s, q))
  {
    if |s| > 0 {
      WhereSumMonotone(s[1..], p, q);
    }
  }

  /** With no negative amounts, a filtered sum never exceeds the whole. */
  lemma {:induction false} WhereSumBelowTotal(s: seq<GovernmentRevenue>, p: GovernmentRevenue -> bool)
    requires forall i :: 0 <= i < |s| ==> s[i].amount >= 0.0
    ensures SumRevenue(Where(s, p)) <= SumRevenue(s)
  {
    if |s| > 0 {
      WhereSumBelowTotal(s[1..], p);
    }
  }

  /** Entries booked on the calendar day `day` (`RevenueDate.Date == day`). */
  function OnDay(day: DateTime): GovernmentRevenue -> bool {
    (e: GovernmentRevenue) => Date(e.revenueDate) == day
  }

  /** Entries booked at or after `from` (`RevenueDate >= from`). */
  function Since(from: DateTime): GovernmentRevenue -> bool {
    (e: GovernmentRevenue) => AtOrBefore(from, e.revenueDate)
  }

  // --------------------------------------------------------------- grouping

  /** One row of a `GroupBy(...).Select(...)`: the key, the group's amount and size. */
  datatype Group<K> = Group(key: K, amount: real, count: nat)

  /** The entries whose key is `k`. */
  function WithKey<K(==)>(s: seq<GovernmentRevenue>, key: GovernmentRevenue -> K, k: K): (r: seq<GovernmentRevenue>)
    ensures |r| <= |s|
    ensures forall e :: e in r <==> e in s && key(e) == k
  {
    if |s| == 0 then []
    else if key(s[0]) == k then [s[0]] + WithKey(s[1..], key, k)
    else WithKey(s[1..], key, k)
  }

  /** The entries whose key is not `k`. */
  function WithoutKey<K(==)>(s: seq<GovernmentRevenue>, key: GovernmentRevenue -> K, k: K): (r: seq<GovernmentRevenue>)
    ensures |r| <= |s|
    ensures |s| > 0 && key(s[0]) == k ==> |r| < |s|
    ensures forall e :: e in r <==> e in s && key(e) != k
  {
    if |s| == 0 then []
    else if key(s[0]) == k then WithoutKey(s[1..], key, k)
    else [s[0]] + WithoutKey(s[1..], key, k)
  }

  /** Splitting on a key loses and duplicates nothing. */
  lemma {:induction false} KeyPartition<K>(s: seq<GovernmentRevenue>, key: GovernmentRevenue -> K, k: K)
    ensures SumRevenue(s) == SumRevenue(WithKey(s, key, k)) + SumRevenue(WithoutKey(s, key, k))
    ensures |s| == |WithKey(s, key, k)| + |WithoutKey(s, key, k)|
  {
    if |s| > 0 {
      KeyPartition(s[1..], key, k);
    }
  }

  /** Removing the entries of one key leaves every other key's group intact. */
  lemma {:induction false} WithKeyAfterRemoval<K>(s: seq<GovernmentRevenue>, key: GovernmentRevenue -> K, k: K, other: K)
    requires other != k
    ensures WithKey(WithoutKey(s, key, k), key, other) == WithKey(s, key, other)
  {
    if |s| > 0 {
      WithKeyAfterRemoval(s[1..], key, k, other);
    }
  }

  ghost predicate KeyOccurs<K>(s: seq<GovernmentRevenue>, key: GovernmentRevenue -> K, k: K) {
    exists i :: 0 <= i < |s| && key(s[i]) == k
  }

  ghost predicate HasGroup<K>(groups: seq<Group<K>>, k: K) {
    exists i :: 0 <= i < |groups| && groups[i].key == k
  }

  ghost predicate DistinctKeys<K>(groups: seq<Group<K>>) {
    forall i, j :: 0 <= i < j < |groups| ==> groups[i].key != groups[j].key
  }

  /** A row that is exactly the group of its key in `s`. */
  ghost predicate IsGroupOf<K>(g: Group<K>, s: seq<GovernmentRevenue>, key: GovernmentRevenue -> K) {
    && g.amount == SumRevenue(WithKey(s, key, g.key))
    && g.count == |WithKey(s, key, g.key)|
    && KeyOccurs(s, key, g.key)
  }

  /** `GroupBy(key)` with the group's sum and count, one row per distinct key,
      in order of first appearance. */
  function GroupBy<K(==)>(s: seq<GovernmentRevenue>, key: GovernmentRevenue -> K): (r: seq<Group<K>>)
    ensures forall i :: 0 <= i < |r| ==> IsGroupOf(r[i], s, key)
    ensures forall i :: 0 <= i < |s| ==> HasGroup(r, key(s[i]))
    ensures DistinctKeys(r)
    decreases |s|
  {
    if |s| == 0 then []
    else
      var k := key(s[0]);
      var rest := WithoutKey(s, key, k);
      var tail := GroupBy(rest, key);
      var head := Group(k, SumRevenue(WithKey(s, key, k)), |WithKey(s, key, k)|);
      assert IsGroupOf(head, s, key) by {
        assert key(s[0]) == k;
      }
      assert forall i :: 0 <= i < |tail| ==> tail[i].key != k && IsGroupOf(tail[i], s, key) by {
        forall i | 0 <= i < |tail|
          ensures tail[i].key != k && IsGroupOf(tail[i], s, key)
        {
          RestGroupOfWhole(s, key, k, tail[i]);
        }
      }
      assert forall i :: 0 <= i < |s| ==> HasGroup([head] + tail, key(s[i])) by {
        forall i | 0 <= i < |s|
          ensures HasGroup([head] + tail, key(s[i]))
        {
          if key(s[i]) == k {
            assert ([head] + tail)[0].key == k;
          } else {
            RestKeyCovered(s, key, k, head, tail, s[i]);
          }
        }
      }
      ConsGroups(s, key, head, tail);
      [head] + tail
  }

  /** A group in front of groups with other keys keeps the rows distinct. */
  lemma ConsGroups<K>(s: seq<GovernmentRevenue>, key: GovernmentRevenue -> K, head: Group<K>, tail: seq<Group<K>>)
    requires IsGroupOf(head, s, key)
    requires DistinctKeys(tail)
    requires forall i :: 0 <= i < |tail| ==> tail[i].key != head.key && IsGroupOf(tail[i], s, key)
    ensures forall i :: 0 <= i < |[head] + tail| ==> IsGroupOf(([head] + tail)[i], s, key)
    ensures DistinctKeys([head] + tail)
  {
    var r := [head] + tail;
    forall i | 0 <= i < |r|
      ensures IsGroupOf(r[i], s, key)
    {
      if i > 0 {
        assert r[i] == tail[i - 1];
      }
    }
    forall i, j | 0 <= i < j < |r|
      ensures r[i].key != r[j].key
    {
      assert r[j] == tail[j - 1];
      if i > 0 {
        assert r[i] == tail[i - 1];
      }
    }
  }

  /** A group of the entries left after removing key `k` has another key and
      is also the group of that key in the whole ledger. */
  lemma RestGroupOfWhole<K>(s: seq<GovernmentRevenue>, key: GovernmentRevenue -> K, k: K, g: Group<K>)
    requires IsGroupOf(g, WithoutKey(s, key, k), key)
    ensures g.key != k && IsGroupOf(g, s, key)
  {
    var rest := WithoutKey(s, key, k);
    var j :| 0 <= j < |rest| && key(rest[j]) == g.key;
    assert rest[j] in rest;
    WithKeyAfterRemoval(s, key, k, g.key);
    var m :| 0 <= m < |s| && s[m] == rest[j];
  }

  /** An entry without key `k` finds its row among the groups of the rest. */
  lemma RestKeyCovered<K>(s: seq<GovernmentRevenue>, key: GovernmentRevenue -> K, k: K, head: Group<K>, tail: seq<Group<K>>, e: GovernmentRevenue)
    requires e in s && key(e) != k
    requires forall i :: 0 <= i < |WithoutKey(s, key, k)| ==> HasGroup(tail, key(WithoutKey(s, key, k)[i]))
    ensures HasGroup([head] + tail, key(e))
  {
    var rest := WithoutKey(s, key, k);
    assert e in rest;
    var j :| 0 <= j < |rest| && rest[j] == e;
    assert HasGroup(tail, key(rest[j]));
    var t :| 0 <= t < |tail| && tail[t].key == key(rest[j]);
    assert ([head] + tail)[t + 1] == tail[t];
  }

  function SumGroups<K>(groups: seq<Group<K>>): real {
    if |groups| == 0 then 0.0 else groups[0].amount + SumGroups(groups[1..])
  }

  function SumCounts<K>(groups: seq<Group<K>>): nat {
    if |groups| == 0 then 0 else groups[0].count + SumCounts(groups[1..])
  }

  /** The rows of a grouping add up to the whole: their amounts to the total
      of the entries and their counts to the number of entries. */
  lemma {:induction false} GroupsReconcile<K>(s: seq<GovernmentRevenue>, key: GovernmentRevenue -> K)
    ensures SumGroups(GroupBy(s, key)) == SumRevenue(s)
    ensures SumCounts(GroupBy(s, key)) == |s|
    decreases |s|
  {
    if |s| > 0 {
      var k := key(s[0]);
      KeyPartition(s, key, k);
      GroupsReconcile(WithoutKey(s, key, k), key);
    }
  }

  // ------------------------------------------------ reordering the group rows

  /** How many rows carry key `k`. */
  ghost function KeyCount<K>(groups: seq<Group<K>>, k: K): (n: nat)
    ensures n == 0 <==> forall i :: 0 <= i < |groups| ==> groups[i].key != k
  {
    if |groups| == 0 then 0
    else
      var rest := KeyCount(groups[1..], k);
      assert rest == 0 <==> forall i :: 1 <= i < |groups| ==> groups[i].key != k by {
        assert forall i :: 1 <= i < |groups| ==> groups[i] == groups[1..][i - 1];
      }
      (if groups[0].key == k then 1 else 0) + rest
  }

  lemma {:induction false} SumGroupsOfConcat<K>(a: seq<Group<K>>, b: seq<Group<K>>)
    ensures SumGroups(a + b) == SumGroups(a) + SumGroups(b)
  {
    if |a| > 0 {
      assert (a + b)[1..] == a[1..] + b;
      SumGroupsOfConcat(a[1..], b);
    } else {
      assert a + b == b;
    }
  }

  lemma {:induction false} SumCountsOfConcat<K>(a: seq<Group<K>>, b: seq<Group<K>>)
    ensures SumCounts(a + b) == SumCounts(a) + SumCounts(b)
  {
    if |a| > 0 {
      assert (a + b)[1..] == a[1..] + b;
      SumCountsOfConcat(a[1..], b);
    } else {
      assert a + b == b;
    }
  }

  lemma {:induction false} KeyCountOfConcat<K>(a: seq<Group<K>>, b: seq<Group<K>>, k: K)
    ensures KeyCount(a + b, k) == KeyCount(a, k) + KeyCount(b, k)
  {
    if |a| > 0 {
      assert (a + b)[1..] == a[1..] + b;
      KeyCountOfConcat(a[1..], b, k);
    } else {
      assert a + b == b;
    }
  }

  /** Reordering rows changes neither their total nor how often a key appears. */
  lemma {:induction false} PermutationKeepsSums<K>(a: seq<Group<K>>, b: seq<Group<K>>, k: K)
    requires multiset(a) == multiset(b)
    ensures SumGroups(a) == SumGroups(b)
    ensures SumCounts(a) == SumCounts(b)
    ensures KeyCount(a, k) == KeyCount(b, k)
    decreases |a|
  {
    if |a| == 0 {
      assert |b| == |multiset(b)| == 0;
    } else {
      var x := a[0];
      assert x in multiset(b);
      var j :| 0 <= j < |b| && b[j] == x;
      var rest := b[..j] + b[j + 1..];
      DropMatchingElement(a, b, j);
      SplitAt(b, j, k);
      assert a == [x] + a[1..];
      SumGroupsOfConcat([x], a[1..]);
      SumCountsOfConcat([x], a[1..]);
      KeyCountOfConcat([x], a[1..], k);
      PermutationKeepsSums(a[1..], rest, k);
    }
  }

  /** Removing the same element from two permutations of each other leaves
      permutations of each other. */
  lemma DropMatchingElement<T>(a: seq<T>, b: seq<T>, j: int)
    requires multiset(a) == multiset(b)
    requires 0 < |a| && 0 <= j < |b| && b[j] == a[0]
    ensures multiset(a[1..]) == multiset(b[..j] + b[j + 1..])
  {
    var x := a[0];
    assert b == b[..j] + ([x] + b[j + 1..]);
    assert a == [x] + a[1..];
    assert multiset(b) == multiset(b[..j]) + multiset{x} + multiset(b[j + 1..]);
    assert multiset(a[1..]) == multiset(a) - multiset{x};
  }

  /** The sums over `b` are row `j`'s part plus the sums over the other rows. */
  lemma SplitAt<K>(b: seq<Group<K>>, j: int, k: K)
    requires 0 <= j < |b|
    ensures SumGroups(b) == SumGroups([b[j]]) + SumGroups(b[..j] + b[j + 1..])
    ensures SumCounts(b) == SumCounts([b[j]]) + SumCounts(b[..j] + b[j + 1..])
    ensures KeyCount(b, k) == KeyCount([b[j]], k) + KeyCount(b[..j] + b[j + 1..], k)
  {
    Decompose(b, j);
    SplitSums(b[..j], [b[j]], b[j + 1..]);
    SplitKeyCount(b[..j], [b[j]], b[j + 1..], k);
  }

  lemma Decompose<T>(b: seq<T>, j: int)
    requires 0 <= j < |b|
    ensures b == b[..j] + ([b[j]] + b[j + 1..])
  {
    assert [b[j]] + b[j + 1..] == b[j..];
  }

  /** The sums over `p + (m + q)` are those over `m` plus those over `p + q`. */
  lemma SplitSums<K>(p: seq<Group<K>>, m: seq<Group<K>>, q: seq<Group<K>>)
    ensures SumGroups(p + (m + q)) == SumGroups(m) + SumGroups(p + q)
    ensures SumCounts(p + (m + q)) == SumCounts(m) + SumCounts(p + q)
  {
    SumGroupsOfConcat(p, m + q);
    SumGroupsOfConcat(m, q);
    SumGroupsOfConcat(p, q);
    SumCountsOfConcat(p, m + q);
    SumCountsOfConcat(m, q);
    SumCountsOfConcat(p, q);
  }

  lemma SplitKeyCount<K>(p: seq<Group<K>>, m: seq<Group<K>>, q: seq<Group<K>>, k: K)
    ensures KeyCount(p + (m + q), k) == KeyCount(m, k) + KeyCount(p + q, k)
  {
    KeyCountOfConcat(p, m + q, k);
    KeyCountOfConcat(m, q, k);
    KeyCountOfConcat(p, q, k);
  }

  lemma {:induction false} DistinctKeysCountOnce<K>(groups: seq<Group<K>>, k: K)
    requires DistinctKeys(groups)
    ensures KeyCount(groups, k) <= 1
  {
    if |groups| > 0 {
      assert DistinctKeys(groups[1..]) by {
        assert forall i :: 1 <= i < |groups| ==> groups[i] == groups[1..][i - 1];
      }
      DistinctKeysCountOnce(groups[1..], k);
      assert groups[0].key == k ==> forall i :: 0 <= i < |groups[1..]| ==> groups[1..][i].key != k by {
        assert forall i :: 0 <= i < |groups[1..]| ==> groups[1..][i] == groups[i + 1];
      }
    }
  }

  lemma {:induction false} RepeatedKeyCountsTwice<K>(groups: seq<Group<K>>, i: nat, j: nat)
    requires i < j < |groups|
    ensures groups[i].key == groups[j].key ==> KeyCount(groups, groups[i].key) >= 2
  {
    if i == 0 {
      assert groups[1..][j - 1] == groups[j];
    } else {
      assert groups[1..][i - 1] == groups[i] && groups[1..][j - 1] == groups[j];
      RepeatedKeyCountsTwice(groups[1..], i - 1, j - 1);
    }
  }

  /** Reordering rows with distinct keys keeps the keys distinct. */
  lemma PermutationKeepsDistinctKeys<K>(a: seq<Group<K>>, b: seq<Group<K>>)
    requires multiset(a) == multiset(b)
    requires DistinctKeys(a)
    ensures DistinctKeys(b)
  {
    forall i, j | 0 <= i < j < |b|
      ensures b[i].key != b[j].key
    {
      PermutationKeepsSums(a, b, b[i].key);
      DistinctKeysCountOnce(a, b[i].key);
      RepeatedKeyCountsTwice(b, i, j);
    }
  }

  /** Everything the grouping promises survives a reordering of its rows. */
  lemma SortedGroupsKeepMeaning<K>(s: seq<GovernmentRevenue>, key: GovernmentRevenue -> K, r: seq<Group<K>>)
    requires multiset(r) == multiset(GroupBy(s, key))
    ensures DistinctKeys(r)
    ensures forall i :: 0 <= i < |r| ==> IsGroupOf(r[i], s, key)
    ensures forall i :: 0 <= i < |s| ==> HasGroup(r, key(s[i]))
    ensures SumGroups(r) == SumRevenue(s)
    ensures SumCounts(r) == |s|
  {
    var g := GroupBy(s, key);
    PermutationKeepsDistinctKeys(g, r);
    if |r| > 0 {
      PermutationKeepsSums(g, r, r[0].key);
    } else {
      assert |g| == |multiset(g)| == 0;
    }
    GroupsReconcile(s, key);
    PermutedRowsAreGroups(s, key, r);
    PermutedRowsCover(s, key, r);
  }

  lemma PermutedRowsAreGroups<K>(s: seq<GovernmentRevenue>, key: GovernmentRevenue -> K, r: seq<Group<K>>)
    requires multiset(r) == multiset(GroupBy(s, key))
    ensures forall i :: 0 <= i < |r| ==> IsGroupOf(r[i], s, key)
  {
    var g := GroupBy(s, key);
    forall i | 0 <= i < |r|
      ensures IsGroupOf(r[i], s, key)
    {
      assert r[i] in multiset(g);
      var m :| 0 <= m < |g| && g[m] == r[i];
    }
  }

  lemma PermutedRowsCover<K>(s: seq<GovernmentRevenue>, key: GovernmentRevenue -> K, r: seq<Group<K>>)
    requires multiset(r) == multiset(GroupBy(s, key))
    ensures forall i :: 0 <= i < |s| ==> HasGroup(r, key(s[i]))
  {
    var g := GroupBy(s, key);
    forall i | 0 <= i < |s|
      ensures HasGroup(r, key(s[i]))
    {
      assert HasGroup(g, key(s[i]));
      var j :| 0 <= j < |g| && g[j].key == key(s[i]);
      assert g[j] in multiset(r);
      var t :| 0 <= t < |r| && r[t] == g[j];
    }
  }

  // ----------------------------------------------------------------- orders

  /** `OrderByDescending(rc => rc.Amount)`. */
  function LargestFirst<K>(): (Group<K>, Group<K>) -> bool {
    (a: Group<K>, b: Group<K>) => a.amount >= b.amount
  }

  /** `OrderBy(mr => mr.Year).ThenBy(mr => mr.Month)`. */
  function EarliestMonthFirst(): (Group<(int, int)>, Group<(int, int)>) -> bool {
    (a: Group<(int, int)>, b: Group<(int, int)>) => a.key.0 < b.key.0 || (a.key.0 == b.key.0 && a.key.1 <= b.key.1)
  }

  /** `OrderByDescending(gr => gr.RevenueDate)`. */
  function LatestBookedFirst(): (GovernmentRevenue, GovernmentRevenue) -> bool {
    (a: GovernmentRevenue, b: GovernmentRevenue) => AtOrBefore(b.revenueDate, a.revenueDate)
  }

  /** `OrderByDescending(gr => gr.CreatedAt)`. */
  function LatestCreatedFirst(): (GovernmentRevenue, GovernmentRevenue) -> bool {
    (a: GovernmentRevenue, b: GovernmentRevenue) => AtOrBefore(b.createdAt, a.createdAt)
  }

  lemma OrdersArePreorders()
    ensures TotalPreorder(LargestFirst<string>())
    ensures TotalPreorder(EarliestMonthFirst())
    ensures TotalPreorder(LatestBookedFirst())
    ensures TotalPreorder(LatestCreatedFirst())
  {
    forall a: DateTime, b: DateTime ensures AtOrBefore(a, b) || AtOrBefore(b, a) {
      AtOrBeforeTotal(a, b);
    }
    forall a: DateTime, b: DateTime, c: DateTime | AtOrBefore(a, b) && AtOrBefore(b, c)
      ensures AtOrBefore(a, c)
    {
      AtOrBeforeTransitive(a, b, c);
    }
  }

  /** The grouping key `gr.Category`. */
  function CategoryOf(): GovernmentRevenue -> string {
    (e: GovernmentRevenue) => e.category
  }

  /** The grouping key `new { gr.RevenueDate.Year, gr.RevenueDate.Month }`. */
  function MonthOf(): GovernmentRevenue -> (int, int) {
    (e: GovernmentRevenue) => (e.revenueDate.year, e.revenueDate.month)
  }

  // -------------------------------------------------------------- dashboard

  /** The dashboard's revenue by category: one row per category carrying that
      category's total and number of entries, largest amount first. */
  function RevenueByCategory(s: seq<GovernmentRevenue>): (r: seq<Group<string>>)
    ensures DistinctKeys(r)
    ensures forall i :: 0 <= i < |r| ==> IsGroupOf(r[i], s, CategoryOf())
    ensures forall i :: 0 <= i < |s| ==> HasGroup(r, s[i].category)
    ensures forall i, j :: 0 <= i < j < |r| ==> r[i].amount >= r[j].amount
    ensures SumGroups(r) == SumRevenue(s)
    ensures SumCounts(r) == |s|
  {
    OrdersArePreorders();
    var r := SortBy(GroupBy(s, CategoryOf()), LargestFirst());
    SortedGroupsKeepMeaning(s, CategoryOf(), r);
    r
  }

  /** The ten most recently created entries, newest first. */
  function RecentRevenues(s: seq<GovernmentRevenue>): (r: seq<GovernmentRevenue>)
    ensures |r| == if |s| < 10 then |s| else 10
    ensures forall i, j :: 0 <= i < j < |r| ==> AtOrBefore(r[j].createdAt, r[i].createdAt)
    ensures multiset(r) <= multiset(s)
    ensures forall e, i :: 0 <= i < |r| && multiset(r)[e] < multiset(s)[e] ==> AtOrBefore(e.createdAt, r[i].createdAt)
  {
    OrdersArePreorders();
    var sorted := SortBy(s, LatestCreatedFirst());
    var k := if |s| < 10 then |s| else 10;
    TakeLeavesOlder(sorted, k);
    sorted[..k]
  }

  /** Cutting a newest-first sequence after `k` leaves out nothing newer than what is kept. */
  lemma TakeLeavesOlder(sorted: seq<GovernmentRevenue>, k: nat)
    requires k <= |sorted|
    requires SortedBy(sorted, LatestCreatedFirst())
    ensures multiset(sorted[..k]) <= multiset(sorted)
    ensures forall e, i :: 0 <= i < k && multiset(sorted[..k])[e] < multiset(sorted)[e] ==>
      AtOrBefore(e.createdAt, sorted[i].createdAt)
  {
    assert sorted == sorted[..k] + sorted[k..];
    assert multiset(sorted) == multiset(sorted[..k]) + multiset(sorted[k..]);
    forall e, i | 0 <= i < k && multiset(sorted[..k])[e] < multiset(sorted)[e]
      ensures AtOrBefore(e.createdAt, sorted[i].createdAt)
    {
      assert e in multiset(sorted[k..]);
      var m :| 0 <= m < |sorted[k..]| && sorted[k..][m] == e;
      assert sorted[k + m] == e;
    }
  }

  /** Going back `k` months from today fails only early in year 1. */
  lemma MonthsBack(now: DateTime, k: int)
    requires Valid(now) && 0 <= k <= 12
    ensures AddMonths(Date(now), -k).Some? <==> !(now.year == 1 && now.month <= k)
  {
    var total := MonthIndex(Date(now)) - k;
    if now.year == 1 {
      assert 0 <= total < 24;
    } else {
      assert total >= 12;
    }
  }

  /** Every month row of a grouping of entries since `from` is at or after `from`'s month. */
  lemma MonthRowsNotBefore(window: seq<GovernmentRevenue>, from: DateTime, r: seq<Group<(int, int)>>)
    requires forall e :: e in window ==> AtOrBefore(from, e.revenueDate)
    requires forall i :: 0 <= i < |r| ==> IsGroupOf(r[i], window, MonthOf())
    ensures forall i :: 0 <= i < |r| ==> r[i].key.0 > from.year || (r[i].key.0 == from.year && r[i].key.1 >= from.month)
  {
    forall i | 0 <= i < |r|
      ensures r[i].key.0 > from.year || (r[i].key.0 == from.year && r[i].key.1 >= from.month)
    {
      assert IsGroupOf(r[i], window, MonthOf());
      assert KeyOccurs(window, MonthOf(), r[i].key);
      var j :| 0 <= j < |window| && MonthOf()(window[j]) == r[i].key;
      assert window[j] in window;
    }
  }

  /** Every entry booked since `from` has its month among the rows. */
  lemma MonthRowsCover(s: seq<GovernmentRevenue>, from: DateTime, r: seq<Group<(int, int)>>)
    requires forall i :: 0 <= i < |Where(s, Since(from))| ==> HasGroup(r, MonthOf()(Where(s, Since(from))[i]))
    ensures forall i :: 0 <= i < |s| && AtOrBefore(from, s[i].revenueDate) ==>
      HasGroup(r, (s[i].revenueDate.year, s[i].revenueDate.month))
  {
    var window := Where(s, Since(from));
    forall i | 0 <= i < |s| && AtOrBefore(from, s[i].revenueDate)
      ensures HasGroup(r, (s[i].revenueDate.year, s[i].revenueDate.month))
    {
      assert Since(from)(s[i]);
      assert s[i] in window;
      var j :| 0 <= j < |window| && window[j] == s[i];
      assert HasGroup(r, MonthOf()(window[j]));
    }
  }

  /** The monthly trend: per calendar month, the total booked since six months
      before today, oldest month first. .NET throws when six months back
      leaves year 1. */
  function MonthlyTrend(s: seq<GovernmentRevenue>, now: DateTime): (r: Reply<seq<Group<(int, int)>>>)
    requires Valid(now)
    ensures r.Done? || r.Crashed?
    ensures r.Crashed? <==> now.year == 1 && now.month <= 6
    ensures r.Done? ==>
      var from := AddMonths(Date(now), -6).value;
      var window := Where(s, Since(from));
      && MonthIndex(from) == MonthIndex(now) - 6 && from.day <= now.day && from.ticks == 0
      && (forall i :: 0 <= i < |r.state| ==> IsGroupOf(r.state[i], window, MonthOf()))
      && (forall i :: 0 <= i < |s| && AtOrBefore(from, s[i].revenueDate) ==>
            HasGroup(r.state, (s[i].revenueDate.year, s[i].revenueDate.month)))
      && (forall i, j :: 0 <= i < j < |r.state| ==>
            r.state[i].key.0 < r.state[j].key.0 || (r.state[i].key.0 == r.state[j].key.0 && r.state[i].key.1 < r.state[j].key.1))
      && (forall i :: 0 <= i < |r.state| ==>
            r.state[i].key.0 > from.year || (r.state[i].key.0 == from.year && r.state[i].key.1 >= from.month))
      && SumGroups(r.state) == SumRevenue(window)
  {
    MonthsBack(now, 6);
    var start := AddMonths(Date(now), -6);
    if start.None? then Crashed
    else
      var from := start.value;
      var window := Where(s, Since(from));
      OrdersArePreorders();
      var r := SortBy(GroupBy(window, MonthOf()), EarliestMonthFirst());
      SortedGroupsKeepMeaning(window, MonthOf(), r);
      MonthRowsNotBefore(window, from, r);
      MonthRowsCover(s, from, r);
      Done(r)
  }

  /** The dashboard's figures. */
  datatype DashboardView = DashboardView(
    todayRevenue: real,
    monthlyRevenue: real,
    yearlyRevenue: real,
    totalRevenue: real,
    revenueByCategory: seq<Group<string>>,
    recentRevenues: seq<GovernmentRevenue>,
    monthlyTrend: seq<Group<(int, int)>>)

  /** `Dashboard`: today's, this month's, this year's and all-time totals,
      the category breakdown, the latest entries and the monthly trend. */
  function Dashboard(s: seq<GovernmentRevenue>, now: DateTime): (r: Reply<DashboardView>)
    requires Valid(now)
    ensures r.Done? || r.Crashed?
    ensures r.Crashed? <==> now.year == 1 && now.month <= 6
    ensures r.Done? ==>
      && r.state.totalRevenue == SumRevenue(s)
      && r.state.totalRevenue == SumGroups(r.state.revenueByCategory)
      && SumCounts(r.state.revenueByCategory) == |s|
      && |r.state.recentRevenues| == (if |s| < 10 then |s| else 10)
      && multiset(r.state.recentRevenues) <= multiset(s)
    // the three period figures: booked today, since the first of the month, since 1 January
    ensures r.Done? ==> r.state.todayRevenue == SumRevenue(Where(s, OnDay(Date(now))))
    ensures r.Done? ==> r.state.monthlyRevenue == SumRevenue(Where(s, Since(FirstOfMonth(Date(now)))))
    ensures r.Done? ==> r.state.yearlyRevenue == SumRevenue(Where(s, Since(FirstOfYear(Date(now)))))
    // the three panels are the queries modelled above
    ensures r.Done? ==> r.state.revenueByCategory == RevenueByCategory(s)
    ensures r.Done? ==> r.state.recentRevenues == RecentRevenues(s)
    ensures r.Done? ==> r.state.monthlyTrend == MonthlyTrend(s, now).state
  {
    var today := Date(now);
    var trend := MonthlyTrend(s, now);
    if trend.Crashed? then Crashed
    else
      Done(DashboardView(
        todayRevenue := SumRevenue(Where(s, OnDay(today))),
        monthlyRevenue := SumRevenue(Where(s, Since(FirstOfMonth(today)))),
        yearlyRevenue := SumRevenue(Where(s, Since(FirstOfYear(today)))),
        totalRevenue := SumRevenue(s),
        revenueByCategory := RevenueByCategory(s),
        recentRevenues := RecentRevenues(s),
        monthlyTrend := trend.state))
  }

  /** With no negative amounts, no filtered sum is negative. */
  lemma {:induction false} WhereSumNonNegative(s: seq<GovernmentRevenue>, p: GovernmentRevenue -> bool)
    requires forall i :: 0 <= i < |s| ==> s[i].amount >= 0.0
    ensures SumRevenue(Where(s, p)) >= 0.0
  {
    if |s| > 0 {
      WhereSumNonNegative(s[1..], p);
    }
  }

  /** With no negative amounts the period sums nest: a day's revenue is part
      of its month's, the month's of its year's, and the year's of the total. */
  lemma PeriodSumsNest(s: seq<GovernmentRevenue>, today: DateTime)
    requires Valid(today)
    requires forall i :: 0 <= i < |s| ==> s[i].amount >= 0.0
    ensures 0.0 <= SumRevenue(Where(s, OnDay(today)))
    ensures SumRevenue(Where(s, OnDay(today))) <= SumRevenue(Where(s, Since(FirstOfMonth(today))))
    ensures SumRevenue(Where(s, Since(FirstOfMonth(today)))) <= SumRevenue(Where(s, Since(FirstOfYear(today))))
    ensures SumRevenue(Where(s, Since(FirstOfYear(today)))) <= SumRevenue(s)
  {
    var month := FirstOfMonth(today);
    var year := FirstOfYear(today);
    PeriodsNest(s, today);
    WhereSumNonNegative(s, OnDay(today));
    WhereSumMonotone(s, OnDay(today), Since(month));
    WhereSumMonotone(s, Since(month), Since(year));
    WhereSumBelowTotal(s, Since(year));
  }

  /** A day lies in its month and a month in its year. */
  lemma PeriodsNest(s: seq<GovernmentRevenue>, today: DateTime)
    requires Valid(today)
    ensures forall i :: 0 <= i < |s| && OnDay(today)(s[i]) ==> Since(FirstOfMonth(today))(s[i])
    ensures forall i :: 0 <= i < |s| && Since(FirstOfMonth(today))(s[i]) ==> Since(FirstOfYear(today))(s[i])
  {
    var month := FirstOfMonth(today);
    var year := FirstOfYear(today);
    assert 1 <= today.day;
    assert AtOrBefore(year, month);
    forall i | 0 <= i < |s| && Since(month)(s[i])
      ensures Since(year)(s[i])
    {
      AtOrBeforeTransitive(year, month, s[i].revenueDate);
    }
  }

  /** The dashboard's period figures nest when no amount is negative. */
  lemma DashboardFiguresNest(s: seq<GovernmentRevenue>, now: DateTime)
    requires Valid(now)
    requires forall i :: 0 <= i < |s| ==> s[i].amount >= 0.0
    requires Dashboard(s, now).Done?
    ensures var d := Dashboard(s, now).state;
      0.0 <= d.todayRevenue <= d.monthlyRevenue <= d.yearlyRevenue <= d.totalRevenue
  {
    PeriodSumsNest(s, Date(now));
  }

  // ---------------------------------------------------------------- reports

  /** Is `e` booked on a day from `start`'s through `end`'s and, when a
      category is chosen, in that category? */
  predicate Reported(e: GovernmentRevenue, start: DateTime, end: DateTime, category: NullableString) {
    && AtOrBefore(Date(start), Date(e.revenueDate))
    && AtOrBefore(Date(e.revenueDate), Date(end))
    && (IsNullOrEmpty(category) || e.category == category.value)
  }

  function InReport(start: DateTime, end: DateTime, category: NullableString): GovernmentRevenue -> bool {
    (e: GovernmentRevenue) => Reported(e, start, end, category)
  }

  /** `RevenueReports`: the entries in a day range, optionally of one category,
      latest first. The range defaults to a month ago through today; .NET
      throws when a month back leaves year 1. */
  function RevenueReports(s: seq<GovernmentRevenue>, startDate: Option<DateTime>, endDate: Option<DateTime>,
                          category: NullableString, now: DateTime): (r: Reply<seq<GovernmentRevenue>>)
    requires Valid(now)
    ensures r.Done? || r.Crashed?
    ensures r.Crashed? <==> startDate.None? && now.year == 1 && now.month == 1
    ensures r.Done? ==>
      var start := if startDate.Some? then startDate.value else AddMonths(Date(now), -1).value;
      var end := endDate.GetOr(Date(now));
      && (forall e :: multiset(r.state)[e] == if Reported(e, start, end, category) then multiset(s)[e] else 0)
      && (forall i, j :: 0 <= i < j < |r.state| ==> AtOrBefore(r.state[j].revenueDate, r.state[i].revenueDate))
    ensures r.Done? && startDate.None? ==>
      MonthIndex(AddMonths(Date(now), -1).value) == MonthIndex(now) - 1
  {
    MonthsBack(now, 1);
    var defaultStart := AddMonths(Date(now), -1);
    if startDate.None? && defaultStart.None? then Crashed
    else
      var start := if startDate.Some? then startDate.value else defaultStart.value;
      var end := endDate.GetOr(Date(now));
      OrdersArePreorders();
      Done(SortBy(Where(s, InReport(start, end, category)), LatestBookedFirst()))
  }

  /** Choosing a category keeps exactly that category's entries of the
      unfiltered report, and an empty category filters nothing. */
  lemma CategoryNarrowsReport(s: seq<GovernmentRevenue>, startDate: Option<DateTime>, endDate: Option<DateTime>,
                              c: string, now: DateTime)
    requires Valid(now)
    requires RevenueReports(s, startDate, endDate, None, now).Done?
    ensures var all := RevenueReports(s, startDate, endDate, None, now).state;
      && RevenueReports(s, startDate, endDate, Some(c), now).Done?
      && (c != "" ==> forall e :: multiset(RevenueReports(s, startDate, endDate, Some(c), now).state)[e]
                                  == if e.category == c then multiset(all)[e] else 0)
      && (c == "" ==> multiset(RevenueReports(s, startDate, endDate, Some(c), now).state) == multiset(all))
  {
    var all := RevenueReports(s, startDate, endDate, None, now).state;
    var one := RevenueReports(s, startDate, endDate, Some(c), now).state;
    if c == "" {
      assert forall e :: multiset(one)[e] == multiset(all)[e];
    }
  }

  // --------------------------------------------------------------- receipts

  /** The file `DownloadTaxReceipt` sends back (its HTML body is not modelled). */
  datatype ReceiptFile = ReceiptFile(receipt: TaxReceipt, contentType: string, fileName: string)

  /** The position of the first receipt of a transaction, if any. */
  function FirstFor(receipts: seq<TaxReceipt>, transactionId: int): (r: Option<nat>)
    ensures r.None? <==> forall i :: 0 <= i < |receipts| ==> receipts[i].transactionId != transactionId
    ensures r.Some? ==> r.value < |receipts| && receipts[r.value].transactionId == transactionId
    ensures r.Some? ==> forall j :: 0 <= j < r.value ==> receipts[j].transactionId != transactionId
  {
    if |receipts| == 0 then None
    else if receipts[0].transactionId == transactionId then Some(0)
    else
      match FirstFor(receipts[1..], transactionId)
      case None => None
      case Some(k) => Some(k + 1)
  }

  /** The first match is the head of all the transaction's receipts in order. */
  lemma {:induction false} FirstForIsHead(receipts: seq<TaxReceipt>, transactionId: int)
    ensures FirstFor(receipts, transactionId).None? ==> ReceiptsFor(receipts, transactionId) == []
    ensures FirstFor(receipts, transactionId).Some? ==>
      ReceiptsFor(receipts, transactionId) != [] &&
      ReceiptsFor(receipts, transactionId)[0] == receipts[FirstFor(receipts, transactionId).value]
  {
    if |receipts| > 0 && receipts[0].transactionId != transactionId {
      FirstForIsHead(receipts[1..], transactionId);
    }
  }

  /** `DownloadTaxReceipt`: the first receipt of the transaction as an HTML
      file named after its receipt number. */
  function DownloadTaxReceipt(receipts: seq<TaxReceipt>, transactionId: int): (r: Reply<ReceiptFile>)
    ensures r.Done? || r.NotFound?
    ensures r.NotFound? <==> ReceiptsFor(receipts, transactionId) == []
    ensures r.Done? ==> r.state.receipt == ReceiptsFor(receipts, transactionId)[0]
    ensures r.Done? ==> r.state.receipt.transactionId == transactionId
    ensures r.Done? ==>
      exists i :: 0 <= i < |receipts| && receipts[i] == r.state.receipt &&
        forall j :: 0 <= j < i ==> receipts[j].transactionId != transactionId
    ensures r.Done? ==> r.state.contentType == "text/html"
    ensures r.Done? ==> r.state.fileName == "TaxReceipt_" + r.state.receipt.receiptNumber + ".html"
  {
    FirstForIsHead(receipts, transactionId);
    match FirstFor(receipts, transactionId)
    case None => NotFound
    case Some(i) =>
      assert receipts[i] in ReceiptsFor(receipts, transactionId);
      Done(ReceiptFile(receipts[i], "text/html", "TaxReceipt_" + receipts[i].receiptNumber + ".html"))
  }

  /** After a transaction's taxes are processed its receipt can be downloaded:
      the new one, named after today's receipt number, when it is the first for
      the transaction, and otherwise the earlier receipt, as before. */
  lemma DownloadAfterProcessing(store: TaxStore, rules: seq<TaxRule>, txn: Transaction, catalog: seq<Product>,
                                profiles: seq<UserProfile>, now: DateTime)
    requires ProcessTaxes(store, rules, txn, catalog, profiles, now).Ok?
    requires |CalculateTaxes(rules, txn, catalog, now).value| > 0
    ensures var s := ProcessTaxes(store, rules, txn, catalog, profiles, now).value;
      var d := DownloadTaxReceipt(s.receipts, txn.id);
      && d.Done?
      && (ReceiptsFor(store.receipts, txn.id) == [] ==>
            d.state.receipt == s.receipts[|store.receipts|]
            && d.state.fileName == "TaxReceipt_" + ReceiptNumber(now, txn.id) + ".html")
      && (ReceiptsFor(store.receipts, txn.id) != [] ==> d == DownloadTaxReceipt(store.receipts, txn.id))
  {
    var s := ProcessTaxes(store, rules, txn, catalog, profiles, now).value;
    var k := |store.receipts|;
    assert s.receipts == store.receipts + [s.receipts[k]];
    ReceiptsForAppend(store.receipts, [s.receipts[k]], txn.id);
    assert ReceiptsFor([s.receipts[k]], txn.id) == [s.receipts[k]];
  }
}
