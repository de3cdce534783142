/** Sums over finite maps, and what one update does to them. */
module Sums {

  ghost function Pick<K>(m: map<K, int>): (k: K)
    requires |m| > 0
    ensures k in m
  {
    assert exists k :: k in m;
    var k :| k in m;
    k
  }

  /** The sum of all values of `m`. */
  ghost function Sum<K>(m: map<K, int>): int
    decreases |m|
  {
    if |m| == 0 then 0 else m[Pick(m)] + Sum(m - {Pick(m)})
  }

  function Get<K>(m: map<K, int>, k: K): int {
    if k in m then m[k] else 0
  }

  lemma {:induction false} SumRemove<K>(m: map<K, int>, k: K)
    requires k in m
    ensures Sum(m) == m[k] + Sum(m - {k})
    decreases |m|
  {
    var x := Pick(m);
    if x != k {
      SumRemove(m - {x}, k);
      SumRemove(m - {k}, x);
      assert m - {x} - {k} == m - {k} - {x};
    }
  }

  lemma {:induction false} SumUpdate<K>(m: map<K, int>, k: K, v: int)
    ensures Sum(m[k := v]) == Sum(m) - Get(m, k) + v
  {
    hide Sum;
    SumRemove(m[k := v], k);
    if k in m {
      SumRemove(m, k);
      assert m[k := v] - {k} == m - {k};
    } else {
      assert m[k := v] - {k} == m;
    }
  }

  lemma {:induction false} SumMonotone<K>(a: map<K, int>, b: map<K, int>)
    requires forall k :: k in a ==> a[k] <= Get(b, k)
    requires forall k :: k in b ==> 0 <= b[k]
    ensures Sum(a) <= Sum(b)
    decreases |a| + |b|
  {
    if |a| == 0 {
      if |b| != 0 {
        var k :| k in b;
        SumRemove(b, k);
        SumMonotone(a, b - {k});
      }
    } else {
      var k :| k in a;
      SumRemove(a, k);
      if k in b {
        SumRemove(b, k);
        SumMonotone(a - {k}, b - {k});
      } else {
        SumMonotone(a - {k}, b);
      }
    }
  }
}
