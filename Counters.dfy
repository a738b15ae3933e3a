/**
 * The per-level counters of the parser: a `defaultdict(int)` that parse_line
 * only ever increments, modelled as a map where an absent key reads as 0.
 */
module Counters {

  /** The catch-all counter for levels outside the recognised set. */
  const Other: string := "other"

  type Counts = map<string, nat>

  /** `counters[k]` on the defaultdict: 0 for a key that was never incremented. */
  function Count(m: Counts, k: string): nat {
    if k in m then m[k] else 0
  }

  /** `counters[k] += 1`: k gains one, every other counter reads the same, k becomes a key. */
  function Increment(m: Counts, k: string): (r: Counts)
    ensures r.Keys == m.Keys + {k}
    ensures Count(r, k) == Count(m, k) + 1
    ensures forall j :: j != k ==> Count(r, j) == Count(m, j)
  {
    m[k := Count(m, k) + 1]
  }

  /** The sum of all counters. */
  ghost function Total(m: Counts): nat
    decreases |m|
  {
    if m == map[] then 0
    else
      var k :| k in m;
      m[k] + Total(m - {k})
  }

  /** The sum does not depend on which key is taken out first. */
  lemma {:induction false} TotalRemove(m: Counts, k: string)
    requires k in m
    ensures Total(m) == m[k] + Total(m - {k})
    decreases |m|
  {
    var j :| j in m && Total(m) == m[j] + Total(m - {j});
    if j != k {
      TotalRemove(m - {j}, k);
      TotalRemove(m - {k}, j);
      assert m - {j} - {k} == m - {k} - {j};
    }
  }

  /** One increment adds exactly one to the sum. */
  lemma TotalIncrement(m: Counts, k: string)
    ensures Total(Increment(m, k)) == Total(m) + 1
  {
    var r := Increment(m, k);
    TotalRemove(r, k);
    assert r - {k} == m - {k};
    if k in m {
      TotalRemove(m, k);
    } else {
      assert m - {k} == m;
    }
  }

  /**
   * The counters parse_line can build: each key is a recognised level or the
   * catch-all, and a key exists only once it has been incremented.
   */
  ghost predicate WellFormed(m: Counts, levels: set<string>) {
    forall k :: k in m ==> (k in levels || k == Other) && m[k] >= 1
  }

  /** Incrementing a recognised level or the catch-all keeps the counters well formed. */
  lemma IncrementKeepsWellFormed(m: Counts, levels: set<string>, k: string)
    requires WellFormed(m, levels)
    requires k in levels || k == Other
    ensures WellFormed(Increment(m, k), levels)
  {
  }
}
