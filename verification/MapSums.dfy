/** Sums over the values of a finite map. */
module MapSums {
  ghost function SumOver<V>(m: map<nat, V>, f: V -> int): int
    decreases |m|
  {
    if m == map[] then 0
    else
      var k :| k in m;
      f(m[k]) + SumOver(m - {k}, f)
  }

  lemma {:induction false} SumWithout<V>(m: map<nat, V>, f: V -> int, k: nat)
    requires k in m
    ensures SumOver(m, f) == f(m[k]) + SumOver(m - {k}, f)
    decreases |m|
  {
    var first :| first in m && SumOver(m, f) == f(m[first]) + SumOver(m - {first}, f);
    if first != k {
      SumWithout(m - {first}, f, k);
      SumWithout(m - {k}, f, first);
      assert m - {first} - {k} == m - {k} - {first};
    }
  }

  lemma SumUpdated<V>(m: map<nat, V>, f: V -> int, k: nat, v: V)
    requires k in m
    ensures SumOver(m[k := v], f) == SumOver(m, f) - f(m[k]) + f(v)
  {
    SumWithout(m, f, k);
    SumWithout(m[k := v], f, k);
    assert m[k := v] - {k} == m - {k};
  }
}
