/** Shared vocabulary: optional values and sums over finite maps. */
module Common {

  datatype Option<+T> = None | Some(value: T)

  /** `order` lists the members of `ids`, each once. */
  ghost predicate Lists<T(!new)>(order: seq<T>, ids: set<T>) {
    && (forall id :: id in ids <==> id in order)
    && (forall i, j :: 0 <= i < j < |order| ==> order[i] != order[j])
  }

  // ----- sums over finite maps

  /** The sum of all values of `m`; the order in which keys are picked does not matter (SumRemove). */
  ghost function Sum<K(!new)>(m: map<K, nat>): (total: nat)
  {
    if m == map[] then 0
    else
      assert m.Keys != {};
      var k :| k in m;
      m[k] + Sum(m - {k})
  }

  lemma SumRemove<K(!new)>(m: map<K, nat>, k: K)
    requires k in m
    ensures Sum(m) == m[k] + Sum(m - {k})
    decreases |m|
  {
    assert m.Keys != {};
    var pick :| pick in m && Sum(m) == m[pick] + Sum(m - {pick});
    if pick != k {
      SumRemove(m - {pick}, k);
      SumRemove(m - {k}, pick);
      assert m - {pick} - {k} == m - {k} - {pick};
    }
  }

  /** Raising some values, and adding keys, never lowers the sum. */
  lemma SumMonotone<K(!new)>(m: map<K, nat>, m': map<K, nat>)
    requires forall k :: k in m ==> k in m' && m[k] <= m'[k]
    ensures Sum(m) <= Sum(m')
    decreases |m|
  {
    if m != map[] {
      assert m.Keys != {};
      var k :| k in m;
      SumRemove(m, k);
      SumRemove(m', k);
      SumMonotone(m - {k}, m' - {k});
    }
  }

  lemma SumStrict<K(!new)>(m: map<K, nat>, m': map<K, nat>, k: K)
    requires forall j :: j in m ==> j in m' && m[j] <= m'[j]
    requires k in m && m[k] < m'[k]
    ensures Sum(m) < Sum(m')
  {
    SumRemove(m, k);
    SumRemove(m', k);
    SumMonotone(m - {k}, m' - {k});
  }

  lemma OneMore(n: nat, bound: nat)
    ensures n * bound + bound == (n + 1) * bound
  {
  }

  lemma {:induction false} SumBounded<K(!new)>(m: map<K, nat>, bound: nat)
    requires forall k :: k in m ==> m[k] <= bound
    ensures Sum(m) <= |m| * bound
    decreases |m|
  {
    if m != map[] {
      assert m.Keys != {};
      var k :| k in m;
      SumRemove(m, k);
      var rest := m - {k};
      assert |rest| == |m| - 1 by { assert rest.Keys == m.Keys - {k}; }
      SumBounded(rest, bound);
      OneMore(|rest|, bound);
    }
  }

  lemma SubsetSize<T>(a: set<T>, b: set<T>)
    requires a <= b
    ensures |a| <= |b|
  {
    assert b == a + (b - a);
  }
}
