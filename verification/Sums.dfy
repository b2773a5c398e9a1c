/** Sums over the values of a finite map. */
module Sums {

  ghost function Sum<K>(m: map<K, int>): int
    decreases |m|
  {
    if m == map[] then 0
    else
      var k :| k in m;
      m[k] + Sum(m - {k})
  }

  /** The sum does not depend on the key taken first. */
  lemma {:induction false} SumTake<K>(m: map<K, int>, k: K)
    requires k in m
    ensures Sum(m) == m[k] + Sum(m - {k})
    decreases |m|
  {
    var first :| first in m && Sum(m) == m[first] + Sum(m - {first});
    if first != k {
      SumTake(m - {first}, k);
      SumTake(m - {k}, first);
      assert m - {first} - {k} == m - {k} - {first};
    }
  }

  lemma SumPut<K>(m: map<K, int>, k: K, v: int)
    requires k !in m
    ensures Sum(m[k := v]) == Sum(m) + v
  {
    SumTake(m[k := v], k);
    assert m[k := v] - {k} == m;
  }

  predicate AllPositive<K>(m: map<K, int>) {
    forall k :: k in m ==> m[k] > 0
  }

  lemma {:induction false} SumPositive<K>(m: map<K, int>)
    requires AllPositive(m)
    ensures Sum(m) >= 0 && (m != map[] ==> Sum(m) > 0)
    decreases |m|
  {
    if m != map[] {
      var k :| k in m;
      SumTake(m, k);
      SumPositive(m - {k});
    }
  }

  /** u is a union of a and b that keeps, for a shared key, one of the two values. */
  predicate IsUnion<K>(u: map<K, int>, a: map<K, int>, b: map<K, int>) {
    && u.Keys == a.Keys + b.Keys
    && forall k :: k in u ==> (k in a && u[k] == a[k]) || (k in b && u[k] == b[k])
  }

  lemma UnionWithout<K>(u: map<K, int>, a: map<K, int>, b: map<K, int>, k: K)
    requires IsUnion(u, a, b)
    ensures IsUnion(u - {k}, a - {k}, b - {k})
  {
    assert (u - {k}).Keys == u.Keys - {k};
    assert (a - {k}).Keys == a.Keys - {k} && (b - {k}).Keys == b.Keys - {k};
  }

  function Share<K>(m: map<K, int>, k: K): int {
    if k in m then m[k] else 0
  }

  lemma SumSplit<K>(m: map<K, int>, k: K)
    ensures Sum(m) == Share(m, k) + Sum(m - {k})
  {
    if k in m {
      SumTake(m, k);
    } else {
      assert m - {k} == m;
    }
  }

  predicate Disjoint<K>(a: map<K, int>, b: map<K, int>) {
    forall k :: k in a ==> k !in b
  }

  lemma DisjointSplit<K>(a: map<K, int>, b: map<K, int>, k: K)
    ensures Disjoint(a, b) <==> (k !in a || k !in b) && Disjoint(a - {k}, b - {k})
  {
    if (k !in a || k !in b) && Disjoint(a - {k}, b - {k}) {
      forall j | j in a ensures j !in b {
        if j != k {
          assert j in a - {k};
        }
      }
    }
  }

  /** Over positive values a union loses something exactly when the two sides share a key. */
  lemma {:induction false} SumUnion<K>(u: map<K, int>, a: map<K, int>, b: map<K, int>)
    requires IsUnion(u, a, b) && AllPositive(a) && AllPositive(b)
    ensures Sum(u) <= Sum(a) + Sum(b)
    ensures Sum(u) == Sum(a) + Sum(b) <==> Disjoint(a, b)
    decreases |u|
  {
    if u.Keys == {} {
      assert u == map[] && a == map[] && b == map[];
    } else {
      var k :| k in u.Keys;
      SumSplit(u, k);
      SumSplit(a, k);
      SumSplit(b, k);
      DisjointSplit(a, b, k);
      UnionWithout(u, a, b, k);
      SumUnion(u - {k}, a - {k}, b - {k});
    }
  }
}
