/** Sums of an integer measure over the values of a map and over a sequence. */
module Sums {

  ghost function SumBy<K, V>(m: map<K, V>, f: V -> int): int {
    if m == map[] then 0
    else
      var k :| k in m;
      f(m[k]) + SumBy(m - {k}, f)
  }

  lemma {:induction false} SumRemove<K, V>(m: map<K, V>, f: V -> int, k: K)
    requires k in m
    ensures SumBy(m, f) == f(m[k]) + SumBy(m - {k}, f)
    decreases |m|
  {
    var j :| j in m && SumBy(m, f) == f(m[j]) + SumBy(m - {j}, f);
    if j != k {
      SumRemove(m - {j}, f, k);
      SumRemove(m - {k}, f, j);
      assert m - {j} - {k} == m - {k} - {j};
    }
  }

  lemma SumUpdate<K, V>(m: map<K, V>, f: V -> int, k: K, v: V)
    ensures SumBy(m[k := v], f) == SumBy(m, f) - (if k in m then f(m[k]) else 0) + f(v)
  {
    SumRemove(m[k := v], f, k);
    assert m[k := v] - {k} == m - {k};
    if k in m {
      SumRemove(m, f, k);
    } else {
      assert m - {k} == m;
    }
  }

  lemma {:induction false} SumBounds<K, V>(m: map<K, V>, f: V -> int, k: K)
    requires k in m
    requires forall j | j in m :: f(m[j]) >= 0
    ensures 0 <= f(m[k]) <= SumBy(m, f)
  {
    SumRemove(m, f, k);
    SumNonNegative(m - {k}, f);
  }

  lemma {:induction false} SumNonNegative<K, V>(m: map<K, V>, f: V -> int)
    requires forall j | j in m :: f(m[j]) >= 0
    ensures SumBy(m, f) >= 0
    decreases |m|
  {
    if m != map[] {
      var k :| k in m && SumBy(m, f) == f(m[k]) + SumBy(m - {k}, f);
      SumNonNegative(m - {k}, f);
    }
  }

  /** Two maps with the same keys whose values measure alike sum alike. */
  lemma {:induction false} SumAlike<K, V, W>(m: map<K, V>, f: V -> int, n: map<K, W>, g: W -> int)
    requires m.Keys == n.Keys
    requires forall k | k in m :: f(m[k]) == g(n[k])
    ensures SumBy(m, f) == SumBy(n, g)
    decreases |m|
  {
    if m == map[] {
      assert n == map[];
    } else {
      var k :| k in m && SumBy(m, f) == f(m[k]) + SumBy(m - {k}, f);
      SumRemove(n, g, k);
      SumAlike(m - {k}, f, n - {k}, g);
    }
  }

  function SumSeq<T>(xs: seq<T>, f: T -> int): int {
    if xs == [] then 0 else f(xs[0]) + SumSeq(xs[1..], f)
  }

  lemma {:induction false} SumSeqConcat<T>(xs: seq<T>, ys: seq<T>, f: T -> int)
    ensures SumSeq(xs + ys, f) == SumSeq(xs, f) + SumSeq(ys, f)
  {
    if xs == [] {
      assert xs + ys == ys;
    } else {
      assert (xs + ys)[1..] == xs[1..] + ys;
      SumSeqConcat(xs[1..], ys, f);
    }
  }

  lemma {:induction false} SumZero<K, V>(m: map<K, V>, f: V -> int)
    requires forall k | k in m :: f(m[k]) == 0
    ensures SumBy(m, f) == 0
    decreases |m|
  {
    if m != map[] {
      var k :| k in m && SumBy(m, f) == f(m[k]) + SumBy(m - {k}, f);
      SumZero(m - {k}, f);
    }
  }

  lemma {:induction false} SumOnes<K, V>(m: map<K, V>, f: V -> int)
    requires forall k | k in m :: f(m[k]) == 1
    ensures SumBy(m, f) == |m|
    decreases |m|
  {
    if m != map[] {
      var k :| k in m && SumBy(m, f) == f(m[k]) + SumBy(m - {k}, f);
      SumOnes(m - {k}, f);
      assert |m| == |m.Keys| && |m - {k}| == |(m - {k}).Keys| && (m - {k}).Keys == m.Keys - {k};
    }
  }

  /** Every entry of `n` has an owner in `m` of its own, of the same measure; what owns nothing measures zero. */
  ghost predicate Owned<K(!new), L(!new), V, W>(m: map<K, V>, f: V -> int, n: map<L, W>, g: W -> int, owner: L -> K) {
    && (forall l | l in n :: owner(l) in m && f(m[owner(l)]) == g(n[l]))
    && (forall l, o | l in n && o in n && owner(l) == owner(o) :: l == o)
    && forall k | k in m :: f(m[k]) == 0 || exists l | l in n :: owner(l) == k
  }

  lemma {:induction false} SumOwned<K(!new), L(!new), V, W>(m: map<K, V>, f: V -> int, n: map<L, W>, g: W -> int,
                                      owner: L -> K)
    requires Owned(m, f, n, g, owner)
    ensures SumBy(m, f) == SumBy(n, g)
    decreases |n|
  {
    if n == map[] {
      SumZero(m, f);
    } else {
      var l :| l in n && SumBy(n, g) == g(n[l]) + SumBy(n - {l}, g);
      var k := owner(l);
      SumRemove(m, f, k);
      forall j | j in m - {k} ensures f(m[j]) == 0 || exists o | o in n - {l} :: owner(o) == j {
        if f(m[j]) != 0 {
          var o :| o in n && owner(o) == j;
          assert o in n - {l};
        }
      }
      SumOwned(m - {k}, f, n - {l}, g, owner);
    }
  }
}
