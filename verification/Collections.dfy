/** Facts about finite sets and maps. */
module Collections {

  lemma Member<T>(s: set<T>) returns (x: T)
    requires s != {}
    ensures x in s
  {
    x :| x in s;
  }

  lemma NotEmpty(s: set<int>)
    requires s != {}
    ensures exists x :: x in s
  {
    var x := Member(s);
  }

  /** The sum of a measure over the values of a map. */
  ghost function Sum<K, V>(m: map<K, V>, f: V -> nat): nat
    decreases m.Keys
  {
    if m.Keys == {} then 0
    else
      var k :| k in m;
      f(m[k]) + Sum(m - {k}, f)
  }

  lemma {:induction false} SumWithout<K, V>(m: map<K, V>, f: V -> nat, k: K)
    requires k in m
    ensures Sum(m, f) == f(m[k]) + Sum(m - {k}, f)
    decreases m.Keys
  {
    var j :| j in m && Sum(m, f) == f(m[j]) + Sum(m - {j}, f);
    if j != k {
      var both := m - {j} - {k};
      assert m - {k} - {j} == both;
      SumWithout(m - {j}, f, k);
      SumWithout(m - {k}, f, j);
    }
  }

  lemma SumUpdate<K, V>(m: map<K, V>, f: V -> nat, k: K, v: V)
    ensures Sum(m[k := v], f) == Sum(m, f) - (if k in m then f(m[k]) else 0) + f(v)
  {
    var n := m[k := v];
    assert n - {k} == m - {k};
    SumWithout(n, f, k);
    if k in m {
      SumWithout(m, f, k);
    } else {
      assert m - {k} == m;
    }
  }
}
