/**
 * Sums of real-valued maps over a set of their keys. The Java code adds up
 * `HashMap` values in whatever order its key set yields them; `SumOver` picks
 * keys in an unspecified order too, and `SumRemove` shows the result does not
 * depend on that order.
 */
module Sums {

  /** The sum of `m[k]` over every `k` in `keys`. */
  ghost function SumOver<K>(m: map<K, real>, keys: set<K>): real
    requires keys <= m.Keys
    decreases keys
  {
    if keys == {} then 0.0
    else
      var k :| k in keys;
      m[k] + SumOver(m, keys - {k})
  }

  /** Any key may be taken out first: the sum is independent of the order. */
  lemma {:induction false} SumRemove<K>(m: map<K, real>, keys: set<K>, k: K)
    requires keys <= m.Keys && k in keys
    ensures SumOver(m, keys) == m[k] + SumOver(m, keys - {k})
    decreases keys
  {
    var j :| j in keys && SumOver(m, keys) == m[j] + SumOver(m, keys - {j});
    if j != k {
      SumRemove(m, keys - {j}, k);
      SumRemove(m, keys - {k}, j);
      assert keys - {j} - {k} == keys - {k} - {j};
    }
  }

  /** Adding a key that is not yet summed adds its value. */
  lemma {:induction false} SumInsert<K>(m: map<K, real>, keys: set<K>, k: K)
    requires keys <= m.Keys && k in m && k !in keys
    ensures SumOver(m, keys + {k}) == SumOver(m, keys) + m[k]
  {
    SumRemove(m, keys + {k}, k);
    assert keys + {k} - {k} == keys;
  }

  /** Multiplying every summed value by `a` multiplies the sum by `a`. */
  lemma {:induction false} SumScale<K>(m: map<K, real>, m': map<K, real>, keys: set<K>, a: real)
    requires keys <= m.Keys && keys <= m'.Keys
    requires forall k :: k in keys ==> m'[k] == a * m[k]
    ensures SumOver(m', keys) == a * SumOver(m, keys)
    decreases keys
  {
    if keys != {} {
      var k :| k in keys;
      SumScale(m, m', keys - {k}, a);
      ScaleNext(m, m', keys, a, k);
    }
  }

  /** The step of `SumScale`: the scaled sum without `k`, plus `k`'s scaled value. */
  lemma {:induction false} ScaleNext<K>(m: map<K, real>, m': map<K, real>, keys: set<K>, a: real, k: K)
    requires keys <= m.Keys && keys <= m'.Keys && k in keys && m'[k] == a * m[k]
    requires SumOver(m', keys - {k}) == a * SumOver(m, keys - {k})
    ensures SumOver(m', keys) == a * SumOver(m, keys)
  {
    SumRemove(m, keys, k);
    SumRemove(m', keys, k);
    Distribute(a, m[k], SumOver(m, keys - {k}), SumOver(m, keys), m'[k]);
  }

  /** `w = x + r` and `x' = a x` give `x' + a r = a w`. */
  lemma {:induction false} Distribute(a: real, x: real, r: real, w: real, x': real)
    requires w == x + r && x' == a * x
    ensures x' + a * r == a * w
  {
  }

  /** Two maps that agree on `keys` have the same sum there. */
  lemma {:induction false} SumAgree<K>(m: map<K, real>, m': map<K, real>, keys: set<K>)
    requires keys <= m.Keys && keys <= m'.Keys
    requires forall k :: k in keys ==> m'[k] == m[k]
    ensures SumOver(m', keys) == SumOver(m, keys)
    decreases keys
  {
    if keys != {} {
      var k :| k in keys;
      SumAgree(m, m', keys - {k});
      SumRemove(m, keys, k);
      SumRemove(m', keys, k);
    }
  }

  /** A sum of zeros is zero. */
  lemma {:induction false} SumZero<K>(m: map<K, real>, keys: set<K>)
    requires keys <= m.Keys
    requires forall k :: k in keys ==> m[k] == 0.0
    ensures SumOver(m, keys) == 0.0
    decreases keys
  {
    if keys != {} {
      var k :| k in keys;
      SumZero(m, keys - {k});
      SumRemove(m, keys, k);
    }
  }

  /** The sum over a disjoint union is the sum of the sums. */
  lemma {:induction false} SumSplit<K>(m: map<K, real>, keys: set<K>, part: set<K>)
    requires keys <= m.Keys && part <= keys
    ensures SumOver(m, keys) == SumOver(m, part) + SumOver(m, keys - part)
    decreases part
  {
    if part == {} {
      assert keys - part == keys;
    } else {
      var k :| k in part;
      SumRemove(m, keys, k);
      SumRemove(m, part, k);
      SumSplit(m, keys - {k}, part - {k});
      assert keys - {k} - (part - {k}) == keys - part;
    }
  }

  /** A sum of non-negative values is at least each of them. */
  lemma {:induction false} SumBoundsElement<K>(m: map<K, real>, keys: set<K>, k: K)
    requires keys <= m.Keys && k in keys
    requires forall j :: j in keys ==> m[j] >= 0.0
    ensures SumOver(m, keys) >= m[k]
  {
    SumRemove(m, keys, k);
    SumNonNegative(m, keys - {k});
  }

  /** A sum of non-negative values is non-negative. */
  lemma {:induction false} SumNonNegative<K>(m: map<K, real>, keys: set<K>)
    requires keys <= m.Keys
    requires forall j :: j in keys ==> m[j] >= 0.0
    ensures SumOver(m, keys) >= 0.0
    decreases keys
  {
    if keys != {} {
      var k :| k in keys;
      SumRemove(m, keys, k);
      SumNonNegative(m, keys - {k});
    }
  }
}
