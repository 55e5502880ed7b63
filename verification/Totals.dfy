/** Sums over the values of finite maps, used for every "sum of sizes" in the model. */
module Totals {

  ghost function Pick<K(!new)>(m: map<K, nat>): (k: K)
    requires |m| != 0
    ensures k in m
  {
    assert |m| != 0;
    var k :| k in m;
    k
  }

  /** The sum of all values of `m`. */
  ghost function Total<K(!new)>(m: map<K, nat>): nat
    decreases |m|
  {
    if |m| == 0 then 0
    else
      var k := Pick(m);
      m[k] + Total(m - {k})
  }

  /** Any key can be split off; the choice made inside `Total` does not matter. */
  lemma {:induction false} TotalSplit<K(!new)>(m: map<K, nat>, k: K)
    requires k in m
    ensures Total(m) == m[k] + Total(m - {k})
    decreases |m|
  {
    var c := Pick(m);
    if c != k {
      TotalSplit(m - {c}, k);
      TotalSplit(m - {k}, c);
      assert m - {c} - {k} == m - {k} - {c};
    }
  }

  lemma {:induction false} TotalAdd<K(!new)>(m: map<K, nat>, k: K, v: nat)
    requires k !in m
    ensures Total(m[k := v]) == Total(m) + v
  {
    TotalSplit(m[k := v], k);
    assert m[k := v] - {k} == m;
  }

  lemma TotalReplace<K(!new)>(m: map<K, nat>, k: K, v: nat)
    requires k in m
    ensures Total(m[k := v]) == Total(m) - m[k] + v
  {
    TotalSplit(m, k);
    TotalAdd(m - {k}, k, v);
    assert (m - {k})[k := v] == m[k := v];
  }

  lemma TotalMember<K(!new)>(m: map<K, nat>, k: K)
    requires k in m
    ensures m[k] <= Total(m)
  {
    TotalSplit(m, k);
  }
}
