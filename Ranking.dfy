/** Ranking scored regions by distance with a stable sort.

    The classifier sorts its list of (region, distance) pairs by distance alone,
    with a sort that keeps equal-distance entries in the order they were listed.
    Each `Score` here also carries the position of its region in the table, so that
    stability can be stated: sorting a list that is in table order stably by
    distance is the same as ordering it strictly by (distance, table position).
 */
module Ranking {

  datatype Score = Score(index: nat, region: string, distance: real)

  /** `a` is ranked ahead of `b`: it is nearer, or as near and listed earlier. */
  predicate Before(a: Score, b: Score) {
    a.distance < b.distance || (a.distance == b.distance && a.index < b.index)
  }

  /** Distances never decrease along `r`. */
  predicate SortedByDistance(r: seq<Score>) {
    forall i, j | 0 <= i < j < |r| :: r[i].distance <= r[j].distance
  }

  /** Every entry of `r` is ranked ahead of every later one. */
  predicate StrictlyRanked(r: seq<Score>) {
    forall i, j | 0 <= i < j < |r| :: Before(r[i], r[j])
  }

  /** Table positions increase along `s`, as they do in the list of scores. */
  predicate InTableOrder(s: seq<Score>) {
    forall i, j | 0 <= i < j < |s| :: s[i].index < s[j].index
  }

  /** One step of a stable insertion sort: `x` goes in front of the first entry
      that is strictly farther, and so behind every entry at most as far. */
  function Insert(r: seq<Score>, x: Score): (t: seq<Score>)
    ensures |t| == |r| + 1
    ensures multiset(t) == multiset(r) + multiset{x}
    decreases |r|
  {
    if r == [] then [x]
    else if x.distance < r[0].distance then [x] + r
    else
      assert r == [r[0]] + r[1..];
      [r[0]] + Insert(r[1..], x)
  }

  /** Inserting keeps a list sorted by distance. */
  lemma {:induction false} InsertSorted(r: seq<Score>, x: Score)
    requires SortedByDistance(r)
    ensures SortedByDistance(Insert(r, x))
    decreases |r|
  {
    if r != [] && x.distance >= r[0].distance {
      InsertSorted(r[1..], x);
      var rest := Insert(r[1..], x);
      var t := Insert(r, x);
      assert t == [r[0]] + rest;
      forall i, j | 0 <= i < j < |t| ensures t[i].distance <= t[j].distance {
        if i == 0 {
          assert t[j] in multiset(rest);
        }
      }
    }
  }

  /** Inserting an entry listed after every entry of a strict ranking keeps it strict:
      `x` lands behind the entries at most as far, all of which were listed earlier. */
  lemma {:induction false} InsertRanked(r: seq<Score>, x: Score)
    requires StrictlyRanked(r)
    requires forall y | y in r :: y.index < x.index
    ensures StrictlyRanked(Insert(r, x))
    decreases |r|
  {
    if r != [] && x.distance >= r[0].distance {
      InsertRanked(r[1..], x);
      var rest := Insert(r[1..], x);
      var t := Insert(r, x);
      assert t == [r[0]] + rest;
      forall i, j | 0 <= i < j < |t| ensures Before(t[i], t[j]) {
        if i == 0 {
          assert t[j] in multiset(rest);
        }
      }
    }
  }

  /** The stable sort by distance (Python's `list.sort` with a key), as an
      insertion sort over the list from front to back. */
  function StableSort(s: seq<Score>): (r: seq<Score>)
    ensures |r| == |s|
    ensures multiset(r) == multiset(s)
    ensures SortedByDistance(r)
    ensures InTableOrder(s) ==> StrictlyRanked(r)
    decreases |s|
  {
    if s == [] then []
    else
      var init := s[..|s| - 1];
      var last := s[|s| - 1];
      assert s == init + [last];
      var sortedInit := StableSort(init);
      InsertSorted(sortedInit, last);
      if InTableOrder(s) then
        ListedBeforeLast(s, sortedInit);
        InsertRanked(sortedInit, last);
        Insert(sortedInit, last)
      else
        Insert(sortedInit, last)
  }

  /** When `s` is in table order, a rearrangement of all of `s` but its last
      entry holds only entries listed before that last entry. */
  lemma ListedBeforeLast(s: seq<Score>, sortedInit: seq<Score>)
    requires s != [] && InTableOrder(s)
    requires multiset(sortedInit) == multiset(s[..|s| - 1])
    ensures forall y | y in sortedInit :: y.index < s[|s| - 1].index
  {
    forall y | y in sortedInit ensures y.index < s[|s| - 1].index {
      assert y in multiset(s[..|s| - 1]);
      var k :| 0 <= k < |s| - 1 && s[k] == y;
    }
  }

  /** In a strict ranking that is a permutation of `s`, the entry at position `k`
      is ranked ahead of every entry of `s` that does not appear at or before
      position `k`: it is the best of what the first `k` positions left over. */
  lemma RankedAheadOfRest(s: seq<Score>, r: seq<Score>, k: nat, y: Score)
    requires StrictlyRanked(r) && multiset(r) == multiset(s)
    requires k < |r| && y in s && y !in r[..k + 1]
    ensures Before(r[k], y)
  {
    assert y in multiset(r);
    var p :| 0 <= p < |r| && r[p] == y;
    assert p > k;
  }

  /** Conversely, an entry that is ranked ahead of everything else the first `k`
      positions left over is the one at position `k`. */
  lemma BestOfRestIsAt(s: seq<Score>, r: seq<Score>, k: nat, e: Score)
    requires StrictlyRanked(r) && multiset(r) == multiset(s)
    requires k < |r| && e in s && e !in r[..k]
    requires forall y | y in s && y !in r[..k] && y != e :: Before(e, y)
    ensures r[k] == e
  {
    assert r[k] in multiset(s);
    assert r[k] !in r[..k];
    if r[k] != e {
      assert Before(e, r[k]);
      assert e !in r[..k + 1];
      RankedAheadOfRest(s, r, k, e);
    }
  }

  /** Each entry of `s` carries its own position in `s`: the list of scores as
      built, one per table entry in table order. */
  predicate Indexed(s: seq<Score>) {
    forall i | 0 <= i < |s| :: s[i].index == i
  }

  /** Reference definition by selection: scanning the first `n` entries of `s`
      and skipping the positions in `excluded`, the first entry that is strictly
      nearer than every candidate before it; -1 if every position is excluded. */
  function NearestAmong(s: seq<Score>, excluded: set<int>, n: nat): (k: int)
    requires n <= |s| && Indexed(s)
    ensures -1 <= k < n
    ensures k == -1 ==> forall j | 0 <= j < n :: j in excluded
    ensures k != -1 ==> k !in excluded
    ensures k != -1 ==> forall j | 0 <= j < n && j !in excluded && j != k :: Before(s[k], s[j])
    decreases n
  {
    if n == 0 then -1
    else
      var best := NearestAmong(s, excluded, n - 1);
      if n - 1 in excluded then best
      else if best == -1 || s[n - 1].distance < s[best].distance then n - 1
      else best
  }

  /** The selection reference is pinned down by its contract: a candidate ranked
      ahead of every other candidate is the one it picks. */
  lemma NearestAmongIs(s: seq<Score>, excluded: set<int>, n: nat, k: int)
    requires n <= |s| && Indexed(s) && 0 <= k < n && k !in excluded
    requires forall j | 0 <= j < n && j !in excluded && j != k :: Before(s[k], s[j])
    ensures NearestAmong(s, excluded, n) == k
  {
  }

  /** The positions of the first `k` entries of `r`. */
  function TakenBy(r: seq<Score>, k: nat): (taken: set<int>)
    requires k <= |r|
    ensures forall j | j in taken :: exists i | 0 <= i < k :: r[i].index == j
    ensures forall i | 0 <= i < k :: r[i].index in taken
  {
    if k == 0 then {} else TakenBy(r, k - 1) + {r[k - 1].index}
  }

  /** Every entry of the sorted list is the entry of `s` at the position it carries. */
  lemma SortedEntry(s: seq<Score>, k: nat)
    requires Indexed(s) && k < |s|
    ensures StableSort(s)[k].index < |s|
    ensures StableSort(s)[k] == s[StableSort(s)[k].index]
  {
    var r := StableSort(s);
    assert r[k] in multiset(s);
    var j :| 0 <= j < |s| && s[j] == r[k];
  }

  /** The stable sort is selection sort: the entry at each position is the
      nearest entry, earliest among equals, that no earlier position took. */
  lemma {:induction false} SortIsSelection(s: seq<Score>, k: nat)
    requires Indexed(s) && k < |s|
    ensures var n := NearestAmong(s, TakenBy(StableSort(s), k), |s|);
            0 <= n && StableSort(s)[k] == s[n]
  {
    var r := StableSort(s);
    assert InTableOrder(s);
    var taken := TakenBy(r, k);
    var n := NearestAmong(s, taken, |s|);
    SortedEntry(s, k);
    if r[k].index in taken {
      var i :| 0 <= i < k && r[i].index == r[k].index;
      SortedEntry(s, i);
      assert false;
    }
    assert n != -1;
    var e := s[n];
    forall y | y in s && y !in r[..k] && y != e
      ensures Before(e, y)
    {
      var j :| 0 <= j < |s| && s[j] == y;
      if j in taken {
        var i :| 0 <= i < k && r[i].index == j;
        SortedEntry(s, i);
        assert false;
      }
    }
    BestOfRestIsAt(s, r, k, e);
  }

  /** The first entry of the stable sort is the first pick. */
  lemma FirstPick(s: seq<Score>)
    requires Indexed(s) && 1 <= |s|
    ensures var k0 := NearestAmong(s, {}, |s|);
            0 <= k0 && StableSort(s)[0] == s[k0]
  {
    SortIsSelection(s, 0);
  }

  /** The second entry of the stable sort is the pick after the first. */
  lemma SecondPick(s: seq<Score>, k0: int)
    requires Indexed(s) && 2 <= |s| && 0 <= k0 < |s| && StableSort(s)[0] == s[k0]
    ensures var k1 := NearestAmong(s, {k0}, |s|);
            0 <= k1 && StableSort(s)[1] == s[k1]
  {
    SortIsSelection(s, 1);
    assert TakenBy(StableSort(s), 1) == {k0};
  }

  /** The third entry of the stable sort is the pick after the first two. */
  lemma ThirdPick(s: seq<Score>, k0: int, k1: int)
    requires Indexed(s) && 3 <= |s| && 0 <= k0 < |s| && 0 <= k1 < |s|
    requires StableSort(s)[0] == s[k0] && StableSort(s)[1] == s[k1]
    ensures var k2 := NearestAmong(s, {k0, k1}, |s|);
            0 <= k2 && StableSort(s)[2] == s[k2]
  {
    SortIsSelection(s, 2);
    assert TakenBy(StableSort(s), 2) == {k0, k1};
  }

  /** The first three entries of the stable sort, picked one after the other. */
  lemma FirstThree(s: seq<Score>)
    requires Indexed(s) && 3 <= |s|
    ensures var k0 := NearestAmong(s, {}, |s|);
            var k1 := NearestAmong(s, {k0}, |s|);
            var k2 := NearestAmong(s, {k0, k1}, |s|);
            && 0 <= k0 && 0 <= k1 && 0 <= k2
            && StableSort(s)[0] == s[k0]
            && StableSort(s)[1] == s[k1]
            && StableSort(s)[2] == s[k2]
  {
    FirstPick(s);
    var k0 := NearestAmong(s, {}, |s|);
    SecondPick(s, k0);
    var k1 := NearestAmong(s, {k0}, |s|);
    ThirdPick(s, k0, k1);
  }

  /** With at least three entries, each of the first three picks finds a
      position, and each pick is ranked ahead of the next. */
  lemma {:induction false} PicksDefined(s: seq<Score>)
    requires Indexed(s) && 3 <= |s|
    ensures var k0 := NearestAmong(s, {}, |s|);
            var k1 := NearestAmong(s, {k0}, |s|);
            var k2 := NearestAmong(s, {k0, k1}, |s|);
            && 0 <= k0 && 0 <= k1 && 0 <= k2
            && k0 != k1 && k1 != k2 && k0 != k2
            && Before(s[k0], s[k1]) && Before(s[k1], s[k2])
  {
    var k0 := NearestAmong(s, {}, |s|);
    var taken1 := {k0};
    var k1 := NearestAmong(s, taken1, |s|);
    assert k1 != -1 by {
      var j := if k0 == 0 then 1 else 0;
      assert j !in taken1;
    }
    var taken2 := {k0, k1};
    var k2 := NearestAmong(s, taken2, |s|);
    assert k2 != -1 by {
      var j := if 0 !in taken2 then 0 else if 1 !in taken2 then 1 else 2;
      assert j !in taken2;
    }
  }

  /** What the first three picks are: the first is a nearest entry and the
      earliest of the nearest; the three are different positions whose distances
      never decrease; every other entry comes after the third in the ranking. */
  lemma {:induction false} FirstThreePicks(s: seq<Score>)
    requires Indexed(s) && 3 <= |s|
    ensures var k0 := NearestAmong(s, {}, |s|);
            var k1 := NearestAmong(s, {k0}, |s|);
            var k2 := NearestAmong(s, {k0, k1}, |s|);
            && 0 <= k0 && 0 <= k1 && 0 <= k2
            && k0 != k1 && k1 != k2 && k0 != k2
            && (forall j | 0 <= j < |s| :: s[k0].distance <= s[j].distance)
            && (forall j | 0 <= j < k0 :: s[k0].distance < s[j].distance)
            && s[k0].distance <= s[k1].distance <= s[k2].distance
            && (forall j | 0 <= j < |s| && j != k0 && j != k1 && j != k2 :: Before(s[k2], s[j]))
  {
    PicksDefined(s);
    var k0 := NearestAmong(s, {}, |s|);
    var k1 := NearestAmong(s, {k0}, |s|);
    var taken2 := {k0, k1};
    var k2 := NearestAmong(s, taken2, |s|);
    forall j | 0 <= j < |s| && j != k0 && j != k1 && j != k2
      ensures Before(s[k2], s[j])
    {
      assert j !in taken2;
    }
  }

  /** Conversely, three different positions ranked one ahead of the next and
      ahead of every other entry are the first three picks. */
  lemma ThreePicksAre(s: seq<Score>, a: int, b: int, c: int)
    requires Indexed(s) && 0 <= a < |s| && 0 <= b < |s| && 0 <= c < |s|
    requires a != b && b != c && a != c
    requires Before(s[a], s[b]) && Before(s[b], s[c])
    requires forall j | 0 <= j < |s| && j != a && j != b && j != c :: Before(s[c], s[j])
    ensures NearestAmong(s, {}, |s|) == a
    ensures NearestAmong(s, {a}, |s|) == b
    ensures NearestAmong(s, {a, b}, |s|) == c
  {
    var none: set<int> := {};
    NearestAmongIs(s, none, |s|, a);
    var first: set<int> := {a};
    NearestAmongIs(s, first, |s|, b);
    var firstTwo: set<int> := {a, b};
    NearestAmongIs(s, firstTwo, |s|, c);
  }
}
