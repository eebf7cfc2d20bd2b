/** Sums over the values of a map, for counting what the parties of a protocol still have to do. */
module Sums {

  ghost function Total<K>(m: map<K, nat>): nat
  {
    if m == map[] then 0
    else
      var k :| k in m;
      m[k] + Total(m - {k})
  }

  /** One party more or less. */
  lemma {:induction false} TotalWithout<K>(m: map<K, nat>, k: K)
    requires k in m
    ensures Total(m) == m[k] + Total(m - {k})
    decreases m
  {
    var j :| j in m && Total(m) == m[j] + Total(m - {j});
    if j != k {
      TotalWithout(m - {j}, k);
      TotalWithout(m - {k}, j);
      assert m - {j} - {k} == m - {k} - {j};
    }
  }

  /** The parties are the same, and only the shares of `ks` may differ. */
  predicate SameBut<K(==)>(m: map<K, nat>, w: map<K, nat>, ks: set<K>) {
    m.Keys == w.Keys && forall k :: k in m && k !in ks ==> w[k] == m[k]
  }

  /** When one party's share changes, the sum changes by as much. */
  lemma TotalOne<K>(m: map<K, nat>, w: map<K, nat>, k: K)
    requires k in m && SameBut(m, w, {k})
    ensures Total(w) == Total(m) - m[k] + w[k]
  {
    TotalWithout(m, k);
    TotalWithout(w, k);
    assert m - {k} == w - {k};
  }

  lemma TotalTwo<K>(m: map<K, nat>, w: map<K, nat>, j: K, k: K)
    requires j in m && k in m && j != k && SameBut(m, w, {j, k})
    ensures Total(w) == Total(m) - m[j] + w[j] - m[k] + w[k]
  {
    var v := m[j := w[j]];
    TotalOne(m, v, j);
    TotalOne(v, w, k);
  }
}
