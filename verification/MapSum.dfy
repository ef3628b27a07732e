/** Sums over the values of finite maps. */
module MapSum {

  ghost function Sum<K, V>(m: map<K, V>, f: V -> nat): (n: nat) {
    if m == map[] then 0
    else
      var k :| k in m;
      f(m[k]) + Sum(m - {k}, f)
  }

  lemma {:induction false} SumEmpty<K, V>(m: map<K, V>, f: V -> nat)
    requires m.Keys == {}
    ensures Sum(m, f) == 0
  {
    assert m == map[];
  }

  /** Any key may be taken out first. */
  lemma {:induction false} SumRemove<K, V>(m: map<K, V>, f: V -> nat, k: K)
    requires k in m
    ensures Sum(m, f) == f(m[k]) + Sum(m - {k}, f)
    decreases |m|
  {
    var first :| first in m && Sum(m, f) == f(m[first]) + Sum(m - {first}, f);
    if first != k {
      SumRemove(m - {first}, f, k);
      SumRemove(m - {k}, f, first);
      assert (m - {first}) - {k} == (m - {k}) - {first};
    }
  }

  lemma {:induction false} SumInsert<K, V>(m: map<K, V>, f: V -> nat, k: K, v: V)
    requires k !in m
    ensures Sum(m[k := v], f) == Sum(m, f) + f(v)
  {
    SumRemove(m[k := v], f, k);
    assert m[k := v] - {k} == m;
  }

  lemma {:induction false} SumReplace<K, V>(m: map<K, V>, f: V -> nat, k: K, v: V)
    requires k in m
    ensures Sum(m[k := v], f) + f(m[k]) == Sum(m, f) + f(v)
  {
    SumRemove(m, f, k);
    SumInsert(m - {k}, f, k, v);
    assert (m - {k})[k := v] == m[k := v];
  }
}
