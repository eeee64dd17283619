/**
  Finite sums of real-valued maps over a set of their keys.

  Python adds the values of a dictionary in its iteration order; over the
  reals that order does not matter, so the sum here is taken over a set and
  the element it peels off first is an arbitrary one. `SumOverRemove` shows
  that any element may be peeled off instead, which is what every other
  lemma about sums rests on.
 */
module Sums {

  /** Peels an arbitrary element off `s` and adds its value to the sum of the rest. */
  ghost function PeelSum<K>(m: map<K, real>, s: set<K>): real
    requires s <= m.Keys
    decreases s
  {
    if s == {} then 0.0 else var x :| x in s; m[x] + PeelSum(m, s - {x})
  }

  /**
    The sum of `m[x]` for every `x` in `s`. Kept apart from the recursive
    `PeelSum` so that `d * SumOver(m, s)` is one and the same term wherever
    it is written.
   */
  ghost function SumOver<K>(m: map<K, real>, s: set<K>): real
    requires s <= m.Keys
  {
    PeelSum(m, s)
  }

  /** The sum of all values of `m`. */
  ghost function Total<K>(m: map<K, real>): real {
    SumOver(m, m.Keys)
  }

  /** Any element of the set may be taken out of the sum first. */
  lemma {:induction false} SumOverRemove<K>(m: map<K, real>, s: set<K>, y: K)
    requires s <= m.Keys
    requires y in s
    ensures SumOver(m, s) == m[y] + SumOver(m, s - {y})
    decreases s
  {
    var x :| x in s && SumOver(m, s) == m[x] + SumOver(m, s - {x});
    if x != y {
      SumOverRemove(m, s - {x}, y);
      SumOverRemove(m, s - {y}, x);
      assert s - {x} - {y} == s - {y} - {x};
    }
  }

  /** Two maps that agree on `s` have the same sum over `s`. */
  lemma {:induction false} SumOverAgree<K>(m1: map<K, real>, m2: map<K, real>, s: set<K>)
    requires s <= m1.Keys && s <= m2.Keys
    requires forall x | x in s :: m1[x] == m2[x]
    ensures SumOver(m1, s) == SumOver(m2, s)
    decreases s
  {
    if s != {} {
      var x :| x in s;
      SumOverRemove(m1, s, x);
      SumOverRemove(m2, s, x);
      SumOverAgree(m1, m2, s - {x});
    }
  }

  /** `v` added to itself `k` times, starting from zero. */
  function Repeat(k: nat, v: real): real {
    if k == 0 then 0.0 else Repeat(k - 1, v) + v
  }

  /** Adding `v` `k` times gives the product `k * v`. */
  lemma {:induction false} RepeatIsProduct(k: nat, v: real)
    ensures Repeat(k, v) == k as real * v
  {
    if k > 0 {
      RepeatIsProduct(k - 1, v);
      assert (k - 1) as real * v + v == k as real * v;
    }
  }

  /** A subset is no larger than its superset. */
  lemma SubsetSize<K>(a: set<K>, b: set<K>)
    requires a <= b
    ensures |a| <= |b|
  {
    assert b == a + (b - a);
  }

  /** Adding a non-negative term fewer times gives no more. */
  lemma {:induction false} RepeatAtMost(m: nat, n: nat, u: real)
    requires m <= n && 0.0 <= u
    ensures 0.0 <= Repeat(m, u) <= Repeat(n, u)
    decreases n
  {
    if m < n {
      RepeatAtMost(m, n - 1, u);
    } else if n > 0 {
      RepeatAtMost(m - 1, n - 1, u);
    }
  }

  /** Adding the `k`-th part of `x` `k` times gives back `x`. */
  lemma RepeatFraction(k: nat, x: real)
    requires k > 0
    ensures Repeat(k, x / k as real) == x
  {
    RepeatIsProduct(k, x / k as real);
  }

  /**
    A sum whose terms are `b`, plus `e` for the members of `marked`, is
    `b` once for every member of `s` plus `e` once for every marked member.
   */
  lemma {:induction false} SumOverMarked<K>(m: map<K, real>, s: set<K>, marked: set<K>, b: real, e: real)
    requires s <= m.Keys
    requires forall x | x in s :: m[x] == (if x in marked then b + e else b)
    ensures SumOver(m, s) == Repeat(|s|, b) + Repeat(|s * marked|, e)
    decreases s
  {
    if s != {} {
      var x :| x in s;
      var rest := s - {x};
      SumOverRemove(m, s, x);
      SumOverMarked(m, rest, marked, b, e);
      assert |s| == |rest| + 1;
      if x in marked {
        assert s * marked == rest * marked + {x};
        assert |s * marked| == |rest * marked| + 1;
      } else {
        assert s * marked == rest * marked;
      }
    }
  }

  /** A sum of equal terms is the count times the term. */
  lemma SumOverConstant<K>(m: map<K, real>, s: set<K>, v: real)
    requires s <= m.Keys
    requires forall x | x in s :: m[x] == v
    ensures SumOver(m, s) == |s| as real * v
  {
    SumOverMarked(m, s, {}, v, 0.0);
    RepeatIsProduct(|s|, v);
  }

  /** A sum of non-negative terms is non-negative. */
  lemma {:induction false} SumOverNonNegative<K>(m: map<K, real>, s: set<K>)
    requires s <= m.Keys
    requires forall x | x in s :: m[x] >= 0.0
    ensures SumOver(m, s) >= 0.0
    decreases s
  {
    if s != {} {
      var x :| x in s;
      SumOverRemove(m, s, x);
      SumOverNonNegative(m, s - {x});
    }
  }

  /** Raising one entry by `v` raises the sum by `v` exactly when that entry is summed. */
  lemma SumOverBump<K>(m: map<K, real>, s: set<K>, y: K, v: real)
    requires s <= m.Keys
    requires y in m
    ensures SumOver(m[y := m[y] + v], s) == SumOver(m, s) + (if y in s then v else 0.0)
  {
    var m' := m[y := m[y] + v];
    if y in s {
      SumOverRemove(m, s, y);
      SumOverRemove(m', s, y);
      SumOverAgree(m, m', s - {y});
    } else {
      SumOverAgree(m, m', s);
    }
  }

  /** Every value of `m` multiplied by `d`. */
  function Scale<K>(d: real, m: map<K, real>): (scaled: map<K, real>)
    ensures scaled.Keys == m.Keys
  {
    map x | x in m :: d * m[x]
  }

  /** Scaling every term scales the sum. */
  lemma {:induction false} SumOverScale<K>(d: real, m: map<K, real>, s: set<K>)
    requires s <= m.Keys
    ensures SumOver(Scale(d, m), s) == d * SumOver(m, s)
    decreases s
  {
    if s == {} {
      assert SumOver(Scale(d, m), s) == 0.0 == SumOver(m, s);
    } else {
      var x :| x in s;
      var rest := s - {x};
      SumOverRemove(m, s, x);
      SumOverRemove(Scale(d, m), s, x);
      SumOverScale(d, m, rest);
      assert SumOver(Scale(d, m), s) == d * m[x] + d * SumOver(m, rest);
    }
  }

  /** Scaling every value scales the total. */
  lemma TotalScale<K>(d: real, m: map<K, real>)
    ensures Total(Scale(d, m)) == d * Total(m)
  {
    SumOverScale(d, m, m.Keys);
  }

  /** Scaling values that add up to at most one by `0 <= d` gives at most `d`. */
  lemma ScaleTotalAtMost<K>(d: real, m: map<K, real>)
    requires 0.0 <= d && Total(m) <= 1.0
    ensures Total(Scale(d, m)) <= d
  {
    TotalScale(d, m);
    assert d * Total(m) <= d * 1.0;
  }

  /** A non-negative factor times an `n`-th part of a non-negative entry is at most the factor times the entry. */
  lemma PartAtMost<K>(d: real, m: map<K, real>, x: K, n: nat)
    requires x in m
    requires 0.0 <= d && 0.0 <= m[x] && n > 0
    ensures 0.0 <= d * (m[x] / n as real) <= d * m[x]
  {
    assert m[x] / n as real <= m[x];
  }
}
