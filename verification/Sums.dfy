/** Totals over finite maps: the SUM of a query, or the bytes held by a node. */
module Sums {

  ghost function Total<K>(m: map<K, nat>): nat {
    if m == map[] then 0 else
      var k :| k in m;
      m[k] + Total(m - {k})
  }

  /** The pick inside Total does not matter: any entry may be taken out first. */
  lemma {:induction false} TakeOut<K>(m: map<K, nat>, k: K)
    requires k in m
    ensures Total(m) == m[k] + Total(m - {k})
    decreases |m|
  {
    var p :| p in m && Total(m) == m[p] + Total(m - {p});
    if p != k {
      TakeOut(m - {p}, k);
      TakeOut(m - {k}, p);
      assert m - {p} - {k} == m - {k} - {p};
    }
  }

  lemma PutFresh<K>(m: map<K, nat>, k: K, v: nat)
    requires k !in m
    ensures Total(m[k := v]) == Total(m) + v
  {
    TakeOut(m[k := v], k);
    assert m[k := v] - {k} == m;
  }

  lemma PutOver<K>(m: map<K, nat>, k: K, v: nat)
    requires k in m
    ensures Total(m[k := v]) == Total(m) - m[k] + v
    ensures m[k] <= Total(m)
  {
    TakeOut(m, k);
    TakeOut(m[k := v], k);
    assert m[k := v] - {k} == m - {k};
  }

  /** A pointwise larger map on a larger domain has a larger total. */
  lemma {:induction false} Monotone<K>(m: map<K, nat>, n: map<K, nat>)
    requires forall k :: k in m ==> k in n && m[k] <= n[k]
    ensures Total(m) <= Total(n)
    decreases |m|
  {
    if m != map[] {
      var k :| k in m;
      TakeOut(m, k);
      TakeOut(n, k);
      Monotone(m - {k}, n - {k});
    }
  }

  lemma {:induction false} StrictlyMonotone<K>(m: map<K, nat>, n: map<K, nat>, k: K)
    requires forall x :: x in m ==> x in n && m[x] <= n[x]
    requires k in m && m[k] < n[k]
    ensures Total(m) < Total(n)
  {
    TakeOut(m, k);
    TakeOut(n, k);
    Monotone(m - {k}, n - {k});
  }

  lemma {:induction false} ZeroTotal<K>(m: map<K, nat>)
    ensures Total(m) == 0 <==> forall k :: k in m ==> m[k] == 0
    decreases |m|
  {
    if m != map[] {
      var k :| k in m;
      TakeOut(m, k);
      ZeroTotal(m - {k});
      assert forall x :: x in m ==> x == k || x in m - {k};
    }
  }

  lemma {:induction false} TotalAtLeast<K>(m: map<K, nat>, low: nat)
    requires forall x :: x in m ==> m[x] >= low
    ensures Total(m) >= |m| * low
    decreases |m|
  {
    if m != map[] {
      var x :| x in m;
      TakeOut(m, x);
      TotalAtLeast(m - {x}, low);
      SizeWithout(m, x);
      OneMoreTimes(|m - {x}|, low);
    }
  }

  lemma SizeWithout<K>(m: map<K, nat>, x: K)
    requires x in m
    ensures |m| == |m - {x}| + 1
  {
    assert m == (m - {x})[x := m[x]];
  }

  lemma OneMoreTimes(a: nat, b: nat)
    ensures (a + 1) * b == a * b + b
  {
  }

  /** One more for each of the chosen adds as many as were chosen. */
  lemma {:induction false} TotalPlusOnes<K>(m: map<K, nat>, m': map<K, nat>, chosen: set<K>)
    requires m.Keys == m'.Keys && chosen <= m.Keys
    requires forall x :: x in m ==> m'[x] == m[x] + if x in chosen then 1 else 0
    ensures Total(m') == Total(m) + |chosen|
    decreases |m|
  {
    if m != map[] {
      var x :| x in m;
      TakeOut(m, x);
      TakeOut(m', x);
      TotalPlusOnes(m - {x}, m' - {x}, chosen - {x});
      assert x in chosen ==> |chosen| == |chosen - {x}| + 1;
      assert x !in chosen ==> chosen - {x} == chosen;
    } else {
      assert m' == map[] && chosen == {};
    }
  }
}
