/** Sums over finite maps. */
module Sums {

  ghost function Sum<K>(m: map<K, nat>): nat
    decreases m.Keys
  {
    if m == map[] then 0
    else
      var k :| k in m;
      m[k] + Sum(m - {k})
  }

  /** Any key can be taken out first. */
  lemma {:induction false} SumSplit<K>(m: map<K, nat>, k: K)
    requires k in m
    ensures Sum(m) == m[k] + Sum(m - {k})
    decreases m.Keys
  {
    var first :| first in m && Sum(m) == m[first] + Sum(m - {first});
    if first != k {
      SumSplit(m - {first}, k);
      SumSplit(m - {k}, first);
      assert m - {first} - {k} == m - {k} - {first};
    }
  }

  function At<K>(m: map<K, nat>, k: K): nat {
    if k in m then m[k] else 0
  }

  lemma SumUpdate<K>(m: map<K, nat>, k: K, v: nat)
    ensures Sum(m[k := v]) == Sum(m) - At(m, k) + v
  {
    SumSplit(m[k := v], k);
    if k in m {
      SumSplit(m, k);
      assert m[k := v] - {k} == m - {k};
    } else {
      assert m[k := v] - {k} == m;
    }
  }

  lemma SumRemove<K>(m: map<K, nat>, k: K)
    ensures Sum(m - {k}) == Sum(m) - At(m, k)
  {
    if k in m {
      SumSplit(m, k);
    } else {
      assert m - {k} == m;
    }
  }

  /** Two maps that agree everywhere, a missing key counting as zero, have the same sum. */
  lemma {:induction false} SumAgrees<K>(m: map<K, nat>, n: map<K, nat>)
    requires forall k :: k in m || k in n ==> At(m, k) == At(n, k)
    ensures Sum(m) == Sum(n)
    decreases m.Keys
  {
    if m == map[] {
      AllZero(n);
    } else {
      var k :| k in m;
      SumRemove(m, k);
      SumRemove(n, k);
      SumAgrees(m - {k}, n - {k});
    }
  }

  lemma {:induction false} AllZero<K>(m: map<K, nat>)
    requires forall k :: k in m ==> m[k] == 0
    ensures Sum(m) == 0
    decreases m.Keys
  {
    if m != map[] {
      var k :| k in m;
      SumSplit(m, k);
      AllZero(m - {k});
    }
  }

  /** A map with at most one positive entry sums to that entry. */
  lemma SumSingle<K>(m: map<K, nat>, k: K)
    requires forall j :: j in m && j != k ==> m[j] == 0
    ensures Sum(m) == At(m, k)
  {
    SumRemove(m, k);
    AllZero(m - {k});
  }
}
