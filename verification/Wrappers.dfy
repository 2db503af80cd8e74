/** Values that may be absent, and the sizes of maps after one update. */
module Wrappers {
  datatype Option<+T> = None | Some(value: T)

  lemma MapWith<K, V>(m: map<K, V>, k: K, v: V)
    ensures |m[k := v]| == |m| + if k in m then 0 else 1
  {
    assert m[k := v].Keys == m.Keys + {k};
    assert |m.Keys + {k}| == |m.Keys| + if k in m.Keys then 0 else 1;
  }

  lemma MapWithout<K, V>(m: map<K, V>, k: K)
    ensures |m - {k}| == |m| - if k in m then 1 else 0
  {
    assert (m - {k}).Keys == m.Keys - {k};
    assert |m.Keys - {k}| == |m.Keys| - if k in m.Keys then 1 else 0;
  }

  lemma MapMoved<K, V>(m: map<K, V>, from: K, to: K)
    requires from in m && to !in m
    ensures |(m - {from})[to := m[from]]| == |m|
  {
    MapWithout(m, from);
    MapWith(m - {from}, to, m[from]);
  }
}
