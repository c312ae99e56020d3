/** Sums over the entries of a map, the form in which every "the total equals the sum of the
    parts" statement of this project is written. */
module Sums {

  ghost function Sum<K, V>(m: map<K, V>, weight: (K, V) -> nat): nat {
    if m == map[] then 0
    else
      var k :| k in m;
      weight(k, m[k]) + Sum(m - {k}, weight)
  }

  /** The weight that makes a sum of the entries themselves. */
  function Amount<K>(): (K, nat) -> nat {
    (k: K, n: nat) => n
  }

  lemma SumEmpty<K, V>(m: map<K, V>, weight: (K, V) -> nat)
    requires m == map[]
    ensures Sum(m, weight) == 0
  {
  }

  /** Any entry may be taken out first: the sum does not depend on the order. */
  lemma {:induction false} SumRemove<K, V>(m: map<K, V>, weight: (K, V) -> nat, k: K)
    requires k in m
    ensures Sum(m, weight) == weight(k, m[k]) + Sum(m - {k}, weight)
    decreases m
  {
    var first :| first in m && Sum(m, weight) == weight(first, m[first]) + Sum(m - {first}, weight);
    if first != k {
      SumRemove(m - {first}, weight, k);
      SumRemove(m - {k}, weight, first);
      assert m - {first} - {k} == m - {k} - {first};
    }
  }

  lemma SumInsert<K, V>(m: map<K, V>, weight: (K, V) -> nat, k: K, v: V)
    ensures Sum(m[k := v], weight) == weight(k, v) + Sum(m - {k}, weight)
  {
    SumRemove(m[k := v], weight, k);
    assert m[k := v] - {k} == m - {k};
  }

  lemma SumAbsent<K, V>(m: map<K, V>, weight: (K, V) -> nat, k: K)
    requires k !in m
    ensures Sum(m - {k}, weight) == Sum(m, weight)
  {
    assert m - {k} == m;
  }

  lemma SumMember<K, V>(m: map<K, V>, weight: (K, V) -> nat, k: K)
    requires k in m
    ensures weight(k, m[k]) <= Sum(m, weight)
  {
    SumRemove(m, weight, k);
  }

  /** Entrywise comparison of two weights, possibly of two maps with the same keys. */
  lemma {:induction false} SumLeq<K, V, W>(m: map<K, V>, f: (K, V) -> nat, n: map<K, W>, g: (K, W) -> nat)
    requires m.Keys == n.Keys
    requires forall k :: k in m ==> f(k, m[k]) <= g(k, n[k])
    ensures Sum(m, f) <= Sum(n, g)
    decreases m
  {
    if m != map[] {
      var k :| k in m;
      SumRemove(m, f, k);
      SumRemove(n, g, k);
      assert (m - {k}).Keys == (n - {k}).Keys;
      SumLeq(m - {k}, f, n - {k}, g);
    } else {
      assert n == map[];
    }
  }

  lemma {:induction false} SumPlus<K, V>(m: map<K, V>, f: (K, V) -> nat, g: (K, V) -> nat, h: (K, V) -> nat)
    requires forall k :: k in m ==> f(k, m[k]) + g(k, m[k]) == h(k, m[k])
    ensures Sum(m, f) + Sum(m, g) == Sum(m, h)
    decreases m
  {
    if m != map[] {
      var k :| k in m;
      SumRemove(m, f, k);
      SumRemove(m, g, k);
      SumRemove(m, h, k);
      SumPlus(m - {k}, f, g, h);
    }
  }

  /** A sum is zero exactly if every entry is. */
  lemma {:induction false} SumZero<K, V>(m: map<K, V>, weight: (K, V) -> nat)
    ensures Sum(m, weight) == 0 <==> forall k :: k in m ==> weight(k, m[k]) == 0
    decreases m
  {
    if m != map[] {
      var k :| k in m;
      SumRemove(m, weight, k);
      SumZero(m - {k}, weight);
      assert forall j :: j in m ==> j == k || (j in m - {k} && m[j] == (m - {k})[j]);
    }
  }

  lemma SumEqual<K, V, W>(m: map<K, V>, f: (K, V) -> nat, n: map<K, W>, g: (K, W) -> nat)
    requires m.Keys == n.Keys
    requires forall k :: k in m ==> f(k, m[k]) == g(k, n[k])
    ensures Sum(m, f) == Sum(n, g)
  {
    SumLeq(m, f, n, g);
    SumLeq(n, g, m, f);
  }

  function Restrict<K, V>(m: map<K, V>, keys: set<K>): map<K, V> {
    map k | k in m && k in keys :: m[k]
  }

  /** The entries under some keys, and the others. */
  lemma {:induction false} SumSplit<K, V>(m: map<K, V>, weight: (K, V) -> nat, keys: set<K>)
    ensures Sum(m, weight) == Sum(Restrict(m, keys), weight) + Sum(m - keys, weight)
    decreases m
  {
    if m == map[] {
      assert Restrict(m, keys) == map[] && m - keys == map[];
    } else {
      var k :| k in m;
      SumRemove(m, weight, k);
      SumSplit(m - {k}, weight, keys);
      if k in keys {
        SumRemove(Restrict(m, keys), weight, k);
        assert Restrict(m - {k}, keys) == Restrict(m, keys) - {k};
        assert m - {k} - keys == m - keys;
      } else {
        SumRemove(m - keys, weight, k);
        assert Restrict(m - {k}, keys) == Restrict(m, keys);
        assert m - {k} - keys == m - keys - {k};
      }
    }
  }

  // ----- multisets -----

  ghost function Weigh<T>(m: multiset<T>, weight: T -> nat): nat {
    if m == multiset{} then 0
    else
      var x :| x in m;
      weight(x) + Weigh(m - multiset{x}, weight)
  }

  lemma RemovalsCommute<T>(m: multiset<T>, x: T, y: T)
    requires x in m && y in m && x != y
    ensures y in m - multiset{x} && x in m - multiset{y}
    ensures m - multiset{x} - multiset{y} == m - multiset{y} - multiset{x}
  {
  }

  lemma {:induction false} WeighRemove<T>(m: multiset<T>, weight: T -> nat, x: T)
    requires x in m
    ensures Weigh(m, weight) == weight(x) + Weigh(m - multiset{x}, weight)
    decreases m
  {
    var first :| first in m && Weigh(m, weight) == weight(first) + Weigh(m - multiset{first}, weight);
    if first != x {
      RemovalsCommute(m, first, x);
      WeighRemove(m - multiset{first}, weight, x);
      WeighRemove(m - multiset{x}, weight, first);
    }
  }

  lemma {:induction false} WeighPlus<T>(a: multiset<T>, b: multiset<T>, weight: T -> nat)
    ensures Weigh(a + b, weight) == Weigh(a, weight) + Weigh(b, weight)
    decreases a
  {
    if a == multiset{} {
      assert a + b == b;
    } else {
      var x :| x in a;
      WeighRemove(a, weight, x);
      WeighRemove(a + b, weight, x);
      assert a + b - multiset{x} == (a - multiset{x}) + b;
      WeighPlus(a - multiset{x}, b, weight);
    }
  }
}
