/**
 * The artist count table: a Go `map[string]int` that the analyzer only ever
 * increments, one artist credit at a time.
 */
module Tally {
  /** What the Go map yields for a key: its count, or the zero value when it is absent. */
  function Get(m: map<string, int>, k: string): int {
    if k in m then m[k] else 0
  }

  /** `m[k]++` on a Go map: an absent key starts from zero. */
  function Increment(m: map<string, int>, k: string): (r: map<string, int>)
    ensures r.Keys == m.Keys + {k}
    ensures Get(r, k) == Get(m, k) + 1
    ensures forall j :: j != k ==> Get(r, j) == Get(m, j)
  {
    m[k := Get(m, k) + 1]
  }

  /** The table after incrementing once for each name, in order. */
  function AddAll(m: map<string, int>, names: seq<string>): map<string, int>
  {
    if names == [] then m else Increment(AddAll(m, names[..|names| - 1]), names[|names| - 1])
  }

  /** One more name is one more increment. */
  lemma AddAllSnoc(m: map<string, int>, names: seq<string>, k: string)
    ensures AddAll(m, names + [k]) == Increment(AddAll(m, names), k)
  {
    assert (names + [k])[..|names|] == names;
  }

  /** The distinct names of a list. */
  function Names(names: seq<string>): set<string> {
    set k | k in names
  }

  /** Each key's count grows by the number of times the name occurs in the list; new keys are exactly the listed names. */
  lemma {:induction false} AddAllCounts(m: map<string, int>, names: seq<string>)
    ensures AddAll(m, names).Keys == m.Keys + Names(names)
    ensures forall k :: Get(AddAll(m, names), k) == Get(m, k) + multiset(names)[k]
  {
    if names != [] {
      var front, last := names[..|names| - 1], names[|names| - 1];
      assert names == front + [last];
      AddAllCounts(m, front);
      assert Names(names) == Names(front) + {last};
    }
  }

  /** Incrementing for a + b is incrementing for a, then for b. */
  lemma {:induction false} AddAllAppend(m: map<string, int>, a: seq<string>, b: seq<string>)
    ensures AddAll(m, a + b) == AddAll(AddAll(m, a), b)
  {
    if b != [] {
      assert (a + b)[..|a + b| - 1] == a + b[..|b| - 1];
      AddAllAppend(m, a, b[..|b| - 1]);
    } else {
      assert a + b == a;
    }
  }

  /** Counts never decrease, and names that are not listed keep their count. */
  lemma AddAllMonotone(m: map<string, int>, names: seq<string>)
    ensures forall k :: k in m ==> k in AddAll(m, names) && m[k] <= AddAll(m, names)[k]
    ensures forall k :: k !in names ==> Get(AddAll(m, names), k) == Get(m, k)
  {
    AddAllCounts(m, names);
    forall k | k in m ensures k in AddAll(m, names) && m[k] <= AddAll(m, names)[k] {
      assert Get(AddAll(m, names), k) >= Get(m, k);
    }
  }

  /** A table whose counts are all positive keeps them positive. */
  lemma AddAllPositive(m: map<string, int>, names: seq<string>)
    requires forall k :: k in m ==> m[k] > 0
    ensures forall k :: k in AddAll(m, names) ==> AddAll(m, names)[k] > 0
  {
    AddAllCounts(m, names);
    forall k | k in AddAll(m, names) ensures AddAll(m, names)[k] > 0 {
      assert Get(AddAll(m, names), k) == Get(m, k) + multiset(names)[k];
      if k !in m {
        assert k in names;
      }
    }
  }

  /** Starting from an empty table, the keys are exactly the listed names and each count is the number of occurrences. */
  lemma FreshTable(names: seq<string>)
    ensures AddAll(map[], names).Keys == Names(names)
    ensures forall k :: k in AddAll(map[], names) ==> AddAll(map[], names)[k] == multiset(names)[k]
  {
    AddAllCounts(map[], names);
    forall k | k in AddAll(map[], names) ensures AddAll(map[], names)[k] == multiset(names)[k] {
      assert Get(AddAll(map[], names), k) == Get(map[], k) + multiset(names)[k];
    }
  }
}
