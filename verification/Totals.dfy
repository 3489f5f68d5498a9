/** Sums over finite maps, used for profit and valuation. */
module Totals {

  /** Any element of a non-empty set. */
  method Pick<T(==)>(s: set<T>) returns (x: T)
    requires s != {}
    ensures x in s
  {
    x :| x in s;
  }

  /** The same inside proofs. */
  lemma Member<T>(s: set<T>) returns (x: T)
    requires s != {}
    ensures x in s
  {
    x :| x in s;
  }

  ghost function Total<K(!new)>(m: map<K, real>): real
    decreases |m|
  {
    if m == map[] then 0.0
    else
      var k :| k in m;
      m[k] + Total(m - {k})
  }

  /** The sum does not depend on the order in which keys are taken. */
  lemma {:induction false} TotalRemove<K(!new)>(m: map<K, real>, k: K)
    requires k in m
    ensures Total(m) == m[k] + Total(m - {k})
    decreases |m|
  {
    var first :| first in m && Total(m) == m[first] + Total(m - {first});
    if first != k {
      TotalRemove(m - {first}, k);
      TotalRemove(m - {k}, first);
      assert m - {first} - {k} == m - {k} - {first};
    }
  }

  lemma TotalSet<K(!new)>(m: map<K, real>, k: K, v: real)
    ensures Total(m[k := v]) == Total(m) + v - if k in m then m[k] else 0.0
  {
    var after := m[k := v];
    TotalRemove(after, k);
    if k in m {
      TotalRemove(m, k);
      assert after - {k} == m - {k};
    } else {
      assert after - {k} == m;
    }
  }
}
