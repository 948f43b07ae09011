/** Sums over the entries of a map: what a loop over a Go map adds up, in whatever order it runs. */
module Totals {

  ghost function Total<K, V>(m: map<K, V>, weight: (K, V) -> nat): nat
    decreases |m|
  {
    if m == map[] then 0
    else
      var k :| k in m;
      weight(k, m[k]) + Total(m - {k}, weight)
  }

  lemma {:induction false} TotalRemove<K, V>(m: map<K, V>, weight: (K, V) -> nat, k: K)
    requires k in m
    ensures Total(m, weight) == weight(k, m[k]) + Total(m - {k}, weight)
    decreases |m|
  {
    var j :| j in m && Total(m, weight) == weight(j, m[j]) + Total(m - {j}, weight);
    if j != k {
      TotalRemove(m - {j}, weight, k);
      TotalRemove(m - {k}, weight, j);
      assert m - {j} - {k} == m - {k} - {j};
    }
  }

  lemma TotalInsert<K, V>(m: map<K, V>, weight: (K, V) -> nat, k: K, v: V)
    requires k !in m
    ensures Total(m[k := v], weight) == weight(k, v) + Total(m, weight)
  {
    TotalRemove(m[k := v], weight, k);
    assert m[k := v] - {k} == m;
  }

  /** The same for collections: everything the values of a map hold, with multiplicities. */
  ghost function Gathered<K, V, T>(m: map<K, V>, content: (K, V) -> multiset<T>): multiset<T>
    decreases |m|
  {
    if m == map[] then multiset{}
    else
      var k :| k in m;
      content(k, m[k]) + Gathered(m - {k}, content)
  }

  lemma {:induction false} GatheredRemove<K, V, T>(m: map<K, V>, content: (K, V) -> multiset<T>, k: K)
    requires k in m
    ensures Gathered(m, content) == content(k, m[k]) + Gathered(m - {k}, content)
    decreases |m|
  {
    var j :| j in m && Gathered(m, content) == content(j, m[j]) + Gathered(m - {j}, content);
    if j != k {
      GatheredRemove(m - {j}, content, k);
      GatheredRemove(m - {k}, content, j);
      assert m - {j} - {k} == m - {k} - {j};
    }
  }

  lemma GatheredInsert<K, V, T>(m: map<K, V>, content: (K, V) -> multiset<T>, k: K, v: V)
    requires k !in m
    ensures Gathered(m[k := v], content) == content(k, v) + Gathered(m, content)
  {
    GatheredRemove(m[k := v], content, k);
    assert m[k := v] - {k} == m;
  }

  lemma {:induction false} GatheredMember<K, V, T>(m: map<K, V>, content: (K, V) -> multiset<T>, x: T)
    ensures x in Gathered(m, content) <==> exists k :: k in m && x in content(k, m[k])
    decreases |m|
  {
    if m != map[] {
      var k :| k in m && Gathered(m, content) == content(k, m[k]) + Gathered(m - {k}, content);
      GatheredMember(m - {k}, content, x);
      if j: K :| j in m && x in content(j, m[j]) {
        if j != k {
          assert j in m - {k} && (m - {k})[j] == m[j];
        }
      }
    }
  }
}
