/**
 * The report of printStats: the count table turned into (artist, count) pairs,
 * sorted by descending count, and cut at the first count below the threshold.
 */
module Ranking {
  /** An artist name and its count (`pair` in the analyzer). */
  datatype Pair = Pair(key: string, val: int)

  /** Artists credited fewer times than this are not reported. */
  const Threshold: int := 5

  /** `pairList.Less`: i goes before j when its count is larger. */
  predicate Less(p: seq<Pair>, i: int, j: int)
    requires 0 <= i < |p| && 0 <= j < |p|
  {
    p[i].val > p[j].val
  }

  /** What sort.Sort establishes with Less: counts do not increase along the list. */
  predicate SortedDesc(p: seq<Pair>) {
    forall i, j :: 0 <= i < j < |p| ==> p[i].val >= p[j].val
  }

  /** Sorted by descending count means that no later pair is Less than an earlier one. */
  lemma SortedIsNotLess(p: seq<Pair>)
    ensures SortedDesc(p) <==> forall i, j :: 0 <= i < j < |p| ==> !Less(p, j, i)
  {
    if !SortedDesc(p) {
      var i, j :| 0 <= i < j < |p| && p[i].val < p[j].val;
      assert Less(p, j, i);
    }
  }

  /** The artist names of a list of pairs. */
  function KeysOf(p: seq<Pair>): set<string> {
    set i | 0 <= i < |p| :: p[i].key
  }

  /** p lists the entries of m: one pair per key, each with that key's count. */
  predicate Lists(p: seq<Pair>, m: map<string, int>) {
    && (forall i :: 0 <= i < |p| ==> p[i].key in m && m[p[i].key] == p[i].val)
    && KeysOf(p) == m.Keys
    && |p| == |m|
  }

  /** There are never more names than pairs. */
  lemma {:induction false} KeysOfSize(p: seq<Pair>)
    ensures |KeysOf(p)| <= |p|
  {
    if p != [] {
      KeysOfSize(p[1..]);
      assert KeysOf(p) == {p[0].key} + KeysOf(p[1..]);
    }
  }

  /** As many names as pairs: no name occurs twice. */
  lemma {:induction false} DistinctKeys(p: seq<Pair>)
    requires |KeysOf(p)| == |p|
    ensures forall i, j :: 0 <= i < j < |p| ==> p[i].key != p[j].key
  {
    if p != [] {
      var rest := p[1..];
      assert KeysOf(p) == {p[0].key} + KeysOf(rest);
      KeysOfSize(rest);
      assert p[0].key !in KeysOf(rest) && |KeysOf(rest)| == |rest|;
      DistinctKeys(rest);
      forall i, j | 0 <= i < j < |p| ensures p[i].key != p[j].key {
        if i == 0 {
          assert p[j].key == rest[j - 1].key;
        } else {
          assert p[i].key == rest[i - 1].key && p[j].key == rest[j - 1].key;
        }
      }
    }
  }

  /** Any reordering of a listing of m is again a listing of m. */
  lemma ListsPermutation(p: seq<Pair>, q: seq<Pair>, m: map<string, int>)
    requires Lists(p, m) && multiset(q) == multiset(p)
    ensures Lists(q, m)
  {
    assert |q| == |multiset(q)| == |multiset(p)| == |p|;
    forall i | 0 <= i < |q| ensures q[i].key in m && m[q[i].key] == q[i].val {
      assert q[i] in multiset(p);
    }
    forall k | k in KeysOf(p) ensures k in KeysOf(q) {
      var i :| 0 <= i < |p| && p[i].key == k;
      assert p[i] in multiset(q);
      var j :| 0 <= j < |q| && q[j] == p[i];
    }
    forall k | k in KeysOf(q) ensures k in KeysOf(p) {
      var i :| 0 <= i < |q| && q[i].key == k;
      assert q[i] in multiset(p);
      var j :| 0 <= j < |p| && p[j] == q[i];
    }
  }

  lemma KeysOfAppend(p: seq<Pair>, x: Pair)
    ensures KeysOf(p + [x]) == KeysOf(p) + {x.key}
  {
    var q := p + [x];
    assert q[|p|] == x;
    forall k | k in KeysOf(p) ensures k in KeysOf(q) {
      var i :| 0 <= i < |p| && p[i].key == k;
      assert q[i] == p[i];
    }
  }

  /**
   * The loop of printStats that collects the map's entries. Go visits a map in an
   * unspecified order; here each step picks any key not yet visited.
   */
  method Entries(m: map<string, int>) returns (p: seq<Pair>)
    ensures Lists(p, m)
  {
    p := [];
    var unvisited := m.Keys;
    assert |m.Keys| == |m|;
    while unvisited != {}
      invariant unvisited <= m.Keys
      invariant KeysOf(p) == m.Keys - unvisited
      invariant |p| + |unvisited| == |m|
      invariant forall i :: 0 <= i < |p| ==> p[i].key in m && m[p[i].key] == p[i].val
      decreases unvisited
    {
      var k :| k in unvisited;
      KeysOfAppend(p, Pair(k, m[k]));
      p := p + [Pair(k, m[k])];
      unvisited := unvisited - {k};
    }
  }

  /** `pairList.Swap`. */
  method Swap(a: array<Pair>, i: int, j: int)
    requires 0 <= i < a.Length && 0 <= j < a.Length
    modifies a
    ensures a[..] == old(a[..])[i := old(a[j])][j := old(a[i])]
    ensures multiset(a[..]) == old(multiset(a[..]))
  {
    a[i], a[j] := a[j], a[i];
  }

  /**
   * sort.Sort over pairList, by insertion: the array ends up ordered by Less (counts
   * non-increasing) and holds the same pairs. Ties stay in an unspecified order.
   */
  method SortPairs(a: array<Pair>)
    modifies a
    ensures SortedDesc(a[..])
    ensures multiset(a[..]) == old(multiset(a[..]))
  {
    var i := 0;
    while i < a.Length
      invariant 0 <= i <= a.Length
      invariant SortedDesc(a[..i])
      invariant multiset(a[..]) == old(multiset(a[..]))
    {
      Sink(a, i);
      i := i + 1;
    }
  }

  /**
   * One insertion step: move a[i] down past every pair of a smaller count before it.
   * Only the first i + 1 slots move, and they keep the same pairs.
   */
  method Sink(a: array<Pair>, i: int)
    requires 0 <= i < a.Length
    requires SortedDesc(a[..i])
    modifies a
    ensures SortedDesc(a[..i + 1])
    ensures multiset(a[..i + 1]) == old(multiset(a[..i + 1]))
    ensures a[i + 1..] == old(a[i + 1..])
    ensures multiset(a[..]) == old(multiset(a[..]))
  {
    ghost var start := a[..];
    SwapDown(a, i);
    PrefixMultiset(start, a[..], i + 1);
  }

  /** The loop of an insertion step: swap a[i] with its left neighbour while it is Less. */
  method SwapDown(a: array<Pair>, i: int)
    requires 0 <= i < a.Length
    requires SortedDesc(a[..i])
    modifies a
    ensures SortedDesc(a[..i + 1])
    ensures forall k :: i < k < a.Length ==> a[k] == old(a[k])
    ensures multiset(a[..]) == old(multiset(a[..]))
  {
    var j := i;
    while 0 < j && Less(a[..], j, j - 1)
      invariant 0 <= j <= i
      invariant forall k, l :: 0 <= k < l <= i && k != j && l != j ==> a[k].val >= a[l].val
      invariant forall l :: j < l <= i ==> a[j].val >= a[l].val
      invariant forall k :: i < k < a.Length ==> a[k] == old(a[k])
      invariant multiset(a[..]) == old(multiset(a[..]))
    {
      Swap(a, j, j - 1);
      j := j - 1;
    }
  }

  /** Two arrangements of the same pairs that agree from slot n on hold the same pairs before it. */
  lemma PrefixMultiset(s: seq<Pair>, t: seq<Pair>, n: int)
    requires 0 <= n <= |s| == |t|
    requires multiset(s) == multiset(t)
    requires forall k :: n <= k < |s| ==> s[k] == t[k]
    ensures s[n..] == t[n..]
    ensures multiset(s[..n]) == multiset(t[..n])
  {
    assert s[n..] == t[n..];
    assert s == s[..n] + s[n..] && t == t[..n] + t[n..];
    assert multiset(s) == multiset(s[..n]) + multiset(s[n..]);
    assert multiset(t) == multiset(t[..n]) + multiset(t[n..]);
    forall x ensures multiset(s[..n])[x] == multiset(t[..n])[x] {
      assert multiset(s)[x] == multiset(s[..n])[x] + multiset(s[n..])[x];
      assert multiset(t)[x] == multiset(t[..n])[x] + multiset(t[n..])[x];
    }
  }

  /**
   * The printing loop of printStats: walk the sorted pairs and stop at the first
   * count below the threshold. The result is the longest prefix whose counts all
   * reach the threshold.
   */
  method AboveThreshold(sorted: seq<Pair>) returns (shown: seq<Pair>)
    ensures shown <= sorted
    ensures forall i :: 0 <= i < |shown| ==> shown[i].val >= Threshold
    ensures |shown| < |sorted| ==> sorted[|shown|].val < Threshold
  {
    shown := [];
    for i := 0 to |sorted|
      invariant shown == sorted[..i]
      invariant forall k :: 0 <= k < i ==> sorted[k].val >= Threshold
    {
      if sorted[i].val < Threshold {
        break;
      }
      shown := shown + [sorted[i]];
    }
  }

  /** On a sorted list, the threshold prefix holds exactly the pairs whose count reaches the threshold. */
  lemma ThresholdPrefixExact(sorted: seq<Pair>, shown: seq<Pair>)
    requires SortedDesc(sorted)
    requires shown <= sorted
    requires forall i :: 0 <= i < |shown| ==> shown[i].val >= Threshold
    requires |shown| < |sorted| ==> sorted[|shown|].val < Threshold
    ensures forall i :: 0 <= i < |sorted| ==> (i < |shown| <==> sorted[i].val >= Threshold)
  {
    forall i | 0 <= i < |sorted| ensures i < |shown| <==> sorted[i].val >= Threshold {
      if i < |shown| {
        assert sorted[i] == shown[i];
      } else if i > |shown| {
        assert sorted[i].val <= sorted[|shown|].val;
      }
    }
  }
}
