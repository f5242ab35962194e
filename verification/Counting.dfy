/** Sums over finite maps of counters, and sizes of sets. */
module Counting {

  ghost function AnyKey<K>(m: map<K, nat>): (k: K)
    requires m != map[]
    ensures k in m
  {
    assert m.Keys != {};
    var k :| k in m.Keys;
    k
  }

  ghost function Sum<K>(m: map<K, nat>): nat
  {
    if m == map[] then 0 else m[AnyKey(m)] + Sum(m - {AnyKey(m)})
  }

  /** Any entry can be taken out of a sum. */
  lemma {:induction false} SumRemove<K>(m: map<K, nat>, k: K)
    requires k in m
    ensures Sum(m) == m[k] + Sum(m - {k})
    decreases |m|
  {
    var j := AnyKey(m);
    assert (m - {j}).Keys == m.Keys - {j};
    if j != k {
      SumRemove(m - {j}, k);
      assert (m - {k}).Keys == m.Keys - {k};
      SumRemove(m - {k}, j);
      assert m - {j} - {k} == m - {k} - {j};
    }
  }

  function Count<K(==)>(m: map<K, nat>, key: K): nat
  {
    if key in m then m[key] else 0
  }

  /** Bumping one counter bumps the sum. */
  lemma SumBump<K>(m: map<K, nat>, k: K)
    ensures Sum(m[k := Count(m, k) + 1]) == Sum(m) + 1
  {
    var n := m[k := Count(m, k) + 1];
    SumRemove(n, k);
    if k in m {
      SumRemove(m, k);
      assert n - {k} == m - {k};
    } else {
      assert n - {k} == m;
    }
  }

  lemma TimesNext(a: nat, n: nat)
    ensures a * n + a == a * (n + 1)
  {
  }

  lemma TimesMonotone(a: nat, m: nat, n: nat)
    requires m <= n
    ensures a * m <= a * n
  {
    assert a * n == a * m + a * (n - m);
  }

  lemma {:induction false} SumBound<K>(m: map<K, nat>, cap: nat)
    requires forall k | k in m :: m[k] <= cap
    ensures Sum(m) <= cap * |m|
  {
    if m != map[] {
      var k := AnyKey(m);
      var rest := m - {k};
      assert rest.Keys == m.Keys - {k};
      assert |rest| == |m| - 1;
      SumBound(rest, cap);
      TimesNext(cap, |rest|);
    }
  }

  lemma {:induction false} SubsetSize<T>(a: set<T>, b: set<T>)
    requires a <= b
    ensures |a| <= |b|
  {
    if a != {} {
      var x :| x in a;
      SubsetSize(a - {x}, b - {x});
    }
  }
}
