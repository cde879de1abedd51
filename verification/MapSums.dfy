/** Weights of the entries of a map, added up. */
module MapSums {
  ghost function Sum<T>(m: map<nat, T>, w: T -> nat): nat
    decreases |m|
  {
    if m == map[] then 0
    else
      var k :| k in m;
      w(m[k]) + Sum(m - {k}, w)
  }

  lemma {:induction false} SumOut<T>(m: map<nat, T>, k: nat, w: T -> nat)
    requires k in m
    ensures Sum(m, w) == w(m[k]) + Sum(m - {k}, w)
    decreases |m|
  {
    var j :| j in m && Sum(m, w) == w(m[j]) + Sum(m - {j}, w);
    if j != k {
      SumOut(m - {j}, k, w);
      SumOut(m - {k}, j, w);
      assert m - {j} - {k} == m - {k} - {j};
    }
  }

  lemma SumIn<T>(m: map<nat, T>, k: nat, v: T, w: T -> nat)
    ensures Sum(m[k := v], w) == w(v) + Sum(m - {k}, w)
    ensures k !in m ==> m - {k} == m
  {
    SumOut(m[k := v], k, w);
    assert m[k := v] - {k} == m - {k};
  }
}
