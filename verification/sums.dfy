/** Sums over sequences and over the values of a map. */
module Sums {

  /** The value stored at `k`, or 0 when there is none. */
  function Lookup<K>(m: map<K, nat>, k: K): nat {
    if k in m then m[k] else 0
  }

  /** The sum of all the values of `m`. */
  ghost function MapSum<K>(m: map<K, nat>): nat
    decreases |m|
  {
    if |m| == 0 then 0
    else
      var k :| k in m;
      assert (m - {k}).Keys == m.Keys - {k};
      m[k] + MapSum(m - {k})
  }

  /** The sum can be taken by removing any key first, not only the one chosen. */
  lemma {:induction false} MapSumRemove<K>(m: map<K, nat>, k: K)
    requires k in m
    ensures MapSum(m) == m[k] + MapSum(m - {k})
    decreases |m|
  {
    var j := MapSumChoice(m);
    if j != k {
      var mj, mk := m - {j}, m - {k};
      assert mj.Keys == m.Keys - {j} && mk.Keys == m.Keys - {k};
      MapSumRemove(mj, k);
      MapSumRemove(mk, j);
      assert mj - {k} == mk - {j};
      assert MapSum(mj) == m[k] + MapSum(mj - {k});
      assert MapSum(mk) == m[j] + MapSum(mk - {j});
    }
  }

  /** The key that `MapSum` takes first. */
  lemma {:induction false} MapSumChoice<K>(m: map<K, nat>) returns (j: K)
    requires |m| > 0
    ensures j in m && MapSum(m) == m[j] + MapSum(m - {j})
  {
    j :| j in m && MapSum(m) == m[j] + MapSum(m - {j});
  }

  /** Adding `v` to the value at `k` (creating it if absent) adds `v` to the sum. */
  lemma {:induction false} MapSumAdd<K>(m: map<K, nat>, k: K, v: nat)
    ensures MapSum(m[k := Lookup(m, k) + v]) == MapSum(m) + v
  {
    var m' := m[k := Lookup(m, k) + v];
    MapSumRemove(m', k);
    assert m' - {k} == m - {k};
    if k in m {
      MapSumRemove(m, k);
    } else {
      assert m - {k} == m;
    }
  }
}
