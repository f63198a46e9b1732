/** Sums of the values of a finite map, and how such sums regroup: the arithmetic behind SQL's
    `SELECT SUM(...) FROM (SELECT ... GROUP BY ...)`. */
module Tally {

  /** The sum of the values of `m`, taken in an arbitrary order. */
  ghost function Sum<K>(m: map<K, nat>): nat
    decreases m.Keys
  {
    if m == map[] then 0 else
      var k :| k in m;
      m[k] + Sum(m - {k})
  }

  /** The entries of `m` whose key falls in group `g`. */
  function Fiber<K, G(==)>(m: map<K, nat>, key: K -> G, g: G): map<K, nat> {
    map k | k in m && key(k) == g :: m[k]
  }

  /** GROUP BY over an already grouped table: one sum per coarse group. */
  ghost function Regroup<K, G>(m: map<K, nat>, key: K -> G): map<G, nat> {
    map g | g in set k | k in m :: key(k) :: Sum(Fiber(m, key, g))
  }

  /** The order in which the entries are added does not matter. */
  lemma {:induction false} SumRemove<K>(m: map<K, nat>, k: K)
    requires k in m
    ensures Sum(m) == m[k] + Sum(m - {k})
    decreases m.Keys
  {
    var x :| x in m && Sum(m) == m[x] + Sum(m - {x});
    if x != k {
      SumRemove(m - {x}, k);
      SumRemove(m - {k}, x);
      assert m - {x} - {k} == m - {k} - {x};
    }
  }

  /** The effect of one more or one changed entry. */
  lemma SumUpdate<K>(m: map<K, nat>, k: K, v: nat)
    ensures Sum(m[k := v]) == v + Sum(m - {k})
    ensures Sum(m) == (if k in m then m[k] else 0) + Sum(m - {k})
  {
    SumRemove(m[k := v], k);
    assert m[k := v] - {k} == m - {k};
    if k in m {
      SumRemove(m, k);
    } else {
      assert m - {k} == m;
    }
  }

  /** Adding up group totals gives the grand total, whatever the grouping. */
  lemma {:induction false} SumRegroup<K, G>(m: map<K, nat>, key: K -> G)
    ensures Sum(Regroup(m, key)) == Sum(m)
    decreases m.Keys
  {
    if m == map[] {
      assert Regroup(m, key) == map[];
    } else {
      var k :| k in m;
      var rest := m - {k};
      SumRegroup(rest, key);
      SumRemove(m, k);
      FiberRemove(m, key, k);
      RegroupRemove(m, key, k);
      SumUpdate(Regroup(rest, key), key(k), Sum(Fiber(m, key, key(k))));
      if key(k) !in Regroup(rest, key) {
        assert Fiber(rest, key, key(k)) == map[];
      }
    }
  }

  lemma FiberRemove<K, G>(m: map<K, nat>, key: K -> G, k: K)
    requires k in m
    ensures Sum(Fiber(m, key, key(k))) == m[k] + Sum(Fiber(m - {k}, key, key(k)))
  {
    SumRemove(Fiber(m, key, key(k)), k);
    assert Fiber(m, key, key(k)) - {k} == Fiber(m - {k}, key, key(k));
  }

  /** One entry more changes one group only. */
  lemma RegroupRemove<K, G>(m: map<K, nat>, key: K -> G, k: K)
    requires k in m
    ensures Regroup(m, key) == Regroup(m - {k}, key)[key(k) := Sum(Fiber(m, key, key(k)))]
  {
    var all, rest := Regroup(m, key), Regroup(m - {k}, key);
    var updated := rest[key(k) := Sum(Fiber(m, key, key(k)))];
    forall h
      ensures h in all <==> h in updated
    {
      if h in all && h != key(k) {
        var x :| x in m && key(x) == h;
        assert x in m - {k};
      }
      if h in rest {
        var x :| x in m - {k} && key(x) == h;
        assert x in m;
      }
    }
    forall h | h in all
      ensures all[h] == updated[h]
    {
      if h != key(k) {
        assert Fiber(m, key, h) == Fiber(m - {k}, key, h);
      }
    }
    assert all == updated;
  }

  /** A table that is below another everywhere has a smaller sum, and an equal sum only if it is the same table. */
  lemma {:induction false} SumMonotone<K>(a: map<K, nat>, b: map<K, nat>)
    requires a.Keys == b.Keys && forall k :: k in a ==> a[k] <= b[k]
    ensures Sum(a) <= Sum(b)
    ensures Sum(a) == Sum(b) <==> a == b
    decreases a.Keys
  {
    if a == map[] {
      assert b == map[];
    } else {
      var k :| k in a;
      SumRemove(a, k);
      SumRemove(b, k);
      SumMonotone(a - {k}, b - {k});
      assert a[k] == b[k] && a - {k} == b - {k} ==> a == b by {
        assert a == (a - {k})[k := a[k]] && b == (b - {k})[k := b[k]];
      }
    }
  }

  /** A common factor can be taken out of a sum. */
  lemma {:induction false} SumScale<K>(a: map<K, nat>, b: map<K, nat>, c: nat)
    requires a.Keys == b.Keys && forall k :: k in a ==> a[k] == c * b[k]
    ensures Sum(a) == c * Sum(b)
    decreases a.Keys
  {
    if a == map[] {
      assert b == map[];
    } else {
      var k :| k in a;
      SumRemove(a, k);
      SumRemove(b, k);
      SumScale(a - {k}, b - {k}, c);
      assert c * (b[k] + Sum(b - {k})) == c * b[k] + c * Sum(b - {k});
    }
  }

  /** `max(0, naive - actual)`. */
  function ClampSaved(naive: nat, actual: nat): (saved: nat)
    ensures naive <= actual + saved
    ensures saved == 0 || naive == actual + saved
  {
    if naive >= actual then naive - actual else 0
  }

  /** Clamping each part separately never shows less saved than clamping the totals. */
  lemma {:induction false} SumClamp<K>(naive: map<K, nat>, actual: map<K, nat>, saved: map<K, nat>)
    requires naive.Keys == actual.Keys == saved.Keys
    requires forall k :: k in saved ==> saved[k] == ClampSaved(naive[k], actual[k])
    ensures Sum(saved) >= ClampSaved(Sum(naive), Sum(actual))
    decreases naive.Keys
  {
    if naive == map[] {
    } else {
      var k :| k in naive;
      SumRemove(naive, k);
      SumRemove(actual, k);
      SumRemove(saved, k);
      SumClamp(naive - {k}, actual - {k}, saved - {k});
    }
  }

  /** Adding up a table entry by entry, as the outer SELECT does. */
  method Total<K>(m: map<K, nat>) returns (total: nat)
    ensures total == Sum(m)
  {
    total := 0;
    var left := m;
    while left != map[]
      invariant total + Sum(left) == Sum(m)
      decreases left.Keys
    {
      var k :| k in left;
      SumRemove(left, k);
      total, left := total + left[k], left - {k};
    }
  }
}
