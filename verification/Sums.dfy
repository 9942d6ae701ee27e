/** Totals over the columns of a table, a table being a finite map. */
module Sums {

  ghost function Total<K>(m: map<K, int>): int
  {
    if m == map[] then 0 else
      var k :| k in m;
      m[k] + Total(m - {k})
  }

  lemma {:induction false} TotalRemove<K>(m: map<K, int>, k: K)
    requires k in m
    ensures Total(m) == m[k] + Total(m - {k})
    decreases |m|
  {
    var p :| p in m && Total(m) == m[p] + Total(m - {p});
    if p != k {
      TotalRemove(m - {p}, k);
      TotalRemove(m - {k}, p);
      assert m - {p} - {k} == m - {k} - {p};
    }
  }

  /** Writing one row changes the total by the difference on that row. */
  lemma {:induction false} TotalUpdate<K>(m: map<K, int>, k: K, v: int)
    ensures Total(m[k := v]) == Total(m) + v - (if k in m then m[k] else 0)
  {
    var u := m[k := v];
    TotalRemove(u, k);
    if k in m {
      TotalRemove(m, k);
      assert u - {k} == m - {k};
    } else {
      assert u - {k} == m;
    }
  }

  lemma {:induction false} TotalAdd<K>(a: map<K, int>, b: map<K, int>, c: map<K, int>)
    requires a.Keys == b.Keys == c.Keys
    requires forall k :: k in c ==> c[k] == a[k] + b[k]
    ensures Total(c) == Total(a) + Total(b)
    decreases |c|
  {
    if c == map[] {
      assert a == map[] && b == map[];
    } else {
      var k :| k in c;
      TotalRemove(a, k);
      TotalRemove(b, k);
      TotalRemove(c, k);
      TotalAdd(a - {k}, b - {k}, c - {k});
    }
  }

  lemma {:induction false} TotalScale<K>(a: map<K, int>, x: int, c: map<K, int>)
    requires a.Keys == c.Keys
    requires forall k :: k in c ==> c[k] == x * a[k]
    ensures Total(c) == x * Total(a)
    decreases |c|
  {
    if c == map[] {
      assert a == map[];
    } else {
      var k :| k in c;
      TotalRemove(a, k);
      TotalRemove(c, k);
      TotalScale(a - {k}, x, c - {k});
      ScaleStep(x, a[k], Total(a - {k}), c[k], Total(c - {k}));
    }
  }

  lemma ScaleStep(x: int, p: int, q: int, r: int, s: int)
    requires r == x * p && s == x * q
    ensures r + s == x * (p + q)
  {
  }

  /** Totals are linear. */
  lemma TotalCombine<K>(a: map<K, int>, b: map<K, int>, x: int, y: int, c: map<K, int>)
    requires a.Keys == b.Keys == c.Keys
    requires forall k :: k in c ==> c[k] == x * a[k] + y * b[k]
    ensures Total(c) == x * Total(a) + y * Total(b)
  {
    var p, q := map k | k in a :: x * a[k], map k | k in b :: y * b[k];
    TotalScale(a, x, p);
    TotalScale(b, y, q);
    TotalAdd(p, q, c);
  }

  lemma Distribute(x: int, p: int, q: int)
    ensures x * (p + q) == x * p + x * q
  {
  }

  lemma {:induction false} TotalMono<K>(a: map<K, int>, b: map<K, int>)
    requires a.Keys == b.Keys
    requires forall k :: k in a ==> a[k] <= b[k]
    ensures Total(a) <= Total(b)
    decreases |a|
  {
    if a == map[] {
      assert b == map[];
    } else {
      var k :| k in a;
      TotalRemove(a, k);
      TotalRemove(b, k);
      TotalMono(a - {k}, b - {k});
    }
  }

  /** A non-negative column is at least any one of its entries. */
  lemma {:induction false} TotalAtLeast<K>(m: map<K, int>)
    requires forall k :: k in m ==> 0 <= m[k]
    ensures 0 <= Total(m)
    ensures forall k :: k in m ==> m[k] <= Total(m)
    decreases |m|
  {
    forall k | k in m
      ensures m[k] <= Total(m) && 0 <= Total(m)
    {
      TotalRemove(m, k);
      TotalAtLeast(m - {k});
    }
  }

  /** A non-negative column that sums to zero is zero everywhere. */
  lemma TotalOfZeros<K>(m: map<K, int>)
    requires forall k :: k in m ==> m[k] == 0
    ensures Total(m) == 0
  {
    TotalCombine(m, m, 0, 0, m);
  }
}
