/** Sums over finite maps. */
module Sums {

  ghost function Total<K(!new)>(m: map<K, int>): int
    decreases |m|
  {
    if m == map[] then 0 else var k :| k in m; Smaller(m, k); m[k] + Total(m - {k})
  }

  lemma Smaller<K>(m: map<K, int>, k: K)
    requires k in m
    ensures |m - {k}| == |m| - 1
  {
    assert (m - {k}).Keys == m.Keys - {k};
    assert |m.Keys - {k}| == |m.Keys| - 1;
  }

  /** The sum does not depend on the order in which it is taken. */
  lemma {:induction false} TotalRemove<K(!new)>(m: map<K, int>, k: K)
    requires k in m
    ensures Total(m) == m[k] + Total(m - {k})
    decreases |m|
  {
    var z :| z in m && Total(m) == m[z] + Total(m - {z});
    if z == k {
    } else {
      Smaller(m, z);
      Smaller(m, k);
      TotalRemove(m - {z}, k);
      TotalRemove(m - {k}, z);
      assert m - {z} - {k} == m - {k} - {z};
    }
  }

  lemma TotalInsert<K(!new)>(m: map<K, int>, k: K, v: int)
    requires k !in m
    ensures Total(m[k := v]) == Total(m) + v
  {
    TotalRemove(m[k := v], k);
    assert m[k := v] - {k} == m;
  }

  lemma TotalUpdate<K(!new)>(m: map<K, int>, k: K, v: int)
    ensures Total(m[k := v]) == Total(m) + v - if k in m then m[k] else 0
  {
    if k in m {
      TotalRemove(m, k);
      TotalRemove(m[k := v], k);
      assert m[k := v] - {k} == m - {k};
    } else {
      TotalInsert(m, k, v);
    }
  }

  lemma SameMap<K, V>(a: map<K, V>, b: map<K, V>)
    requires forall k :: k in a ==> k in b && b[k] == a[k]
    requires forall k :: k in b ==> k in a
    ensures a == b
  {
  }

  function Where<K>(m: map<K, int>, s: set<K>): map<K, int> { map k | k in m && k in s :: m[k] }

  lemma {:induction false} TotalSplit<K(!new)>(m: map<K, int>, s: set<K>)
    ensures Total(m) == Total(Where(m, s)) + Total(m - s)
    decreases |m|
  {
    if m == map[] {
      assert Where(m, s) == m && m - s == m;
    } else {
      var k :| k in m;
      var rest := m - {k};
      Smaller(m, k);
      TotalRemove(m, k);
      TotalSplit(rest, s);
      if k in s {
        TotalRemove(Where(m, s), k);
        assert Where(m, s) - {k} == Where(rest, s) && m - s == rest - s;
      } else {
        TotalRemove(m - s, k);
        assert Where(m, s) == Where(rest, s) && (m - s) - {k} == rest - s;
      }
    }
  }

  lemma {:induction false} TotalAtMost<K(!new)>(m: map<K, int>, n: map<K, int>)
    requires m.Keys == n.Keys && forall k :: k in m ==> m[k] <= n[k]
    ensures Total(m) <= Total(n)
    decreases |m|
  {
    if m != map[] {
      var k :| k in m;
      Smaller(m, k);
      TotalRemove(m, k);
      TotalRemove(n, k);
      TotalAtMost(m - {k}, n - {k});
    } else {
      assert n == map[];
    }
  }

  lemma {:induction false} TotalPositive<K(!new)>(m: map<K, int>)
    requires forall k :: k in m ==> m[k] >= 0
    ensures Total(m) >= 0
    decreases |m|
  {
    if m == map[] {
    } else {
      var k :| k in m;
      Smaller(m, k);
      TotalRemove(m, k);
      TotalPositive(m - {k});
    }
  }

  /** The part of `m` that belongs to `a`. */
  function Fibre<K(==)>(m: map<K, int>, home: map<K, K>, a: K): map<K, int>
  {
    map k | k in m && k in home && home[k] == a :: m[k]
  }

  function FibreOf<K(==)>(m: map<K, int>, home: map<K, K>, s: set<K>): map<K, int>
  {
    map k | k in m && k in home && home[k] in s :: m[k]
  }

  ghost function FibreTotals<K(!new)>(m: map<K, int>, home: map<K, K>, s: set<K>): map<K, int>
  {
    map a | a in s :: Total(Fibre(m, home, a))
  }

  /** Adding up what belongs to each member of `s` is adding up all that belongs to `s`. */
  lemma {:induction false} TotalFibres<K(!new)>(m: map<K, int>, home: map<K, K>, s: set<K>)
    ensures Total(FibreTotals(m, home, s)) == Total(FibreOf(m, home, s))
    decreases |s|
  {
    if s == {} {
      assert FibreOf(m, home, s) == map[];
    } else {
      var a :| a in s;
      var rest := s - {a};
      TotalFibres(m, home, rest);
      TotalRemove(FibreTotals(m, home, s), a);
      assert FibreTotals(m, home, s) - {a} == FibreTotals(m, home, rest);
      SplitFibre(m, home, s, a);
    }
  }

  lemma SplitFibre<K(!new)>(m: map<K, int>, home: map<K, K>, s: set<K>, a: K)
    requires a in s
    ensures Total(FibreOf(m, home, s)) == Total(Fibre(m, home, a)) + Total(FibreOf(m, home, s - {a}))
  {
    var all, one := FibreOf(m, home, s), Fibre(m, home, a);
    TotalSplit(all, one.Keys);
    assert Where(all, one.Keys) == one;
    assert all - one.Keys == FibreOf(m, home, s - {a});
  }

  /** A fibre after `k` is entered, or entered anew, with home `h`. */
  lemma FibreUpdate<K(!new)>(m: map<K, int>, home: map<K, K>, k: K, v: int, h: K, a: K)
    requires m.Keys == home.Keys && (k in home ==> home[k] == h)
    ensures Total(Fibre(m[k := v], home[k := h], a)) == Total(Fibre(m, home, a)) + if a == h
              then v - (if k in m then m[k] else 0) else 0
  {
    var f := Fibre(m, home, a);
    if a == h {
      assert Fibre(m[k := v], home[k := h], a) == f[k := v];
      TotalUpdate(f, k, v);
    } else {
      assert Fibre(m[k := v], home[k := h], a) == f;
    }
  }

  lemma FibreRemove<K(!new)>(m: map<K, int>, home: map<K, K>, k: K, a: K)
    requires m.Keys == home.Keys && k in m
    ensures Total(Fibre(m - {k}, home - {k}, a)) == Total(Fibre(m, home, a)) - if a == home[k] then m[k] else 0
  {
    var f := Fibre(m, home, a);
    if a == home[k] {
      assert Fibre(m - {k}, home - {k}, a) == f - {k};
      TotalRemove(f, k);
    } else {
      assert Fibre(m - {k}, home - {k}, a) == f;
    }
  }
}
