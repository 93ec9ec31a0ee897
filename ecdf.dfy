/**
 * The empirical cumulative distribution function `ecdf` of
 * linear/scenarios.py and plot_test/scenarios.py (the two files define the
 * same function). ecdf(x) returns the values of x in ascending order, xs,
 * and the levels ys[i] = (i + 1)/n for n = |x|. An empty x gives two empty
 * vectors.
 */
module Ecdf {
  import opened Sorting

  /** (i + 1)/n for i = 0..n − 1. */
  function Levels(n: nat): (ys: seq<real>)
    ensures |ys| == n
  {
    seq(n, i requires 0 <= i < n => (i + 1) as real / n as real)
  }

  /** ecdf(x) = (sort(x), arange(1, n + 1)/n). */
  function Ecdf(x: seq<real>): (r: (seq<real>, seq<real>))
    ensures |r.0| == |x| && |r.1| == |x|
  {
    (Sort(x), Levels(|x|))
  }

  /** The number of entries of s at or below v. */
  function AtMost(s: seq<real>, v: real): (c: nat)
    ensures c <= |s|
  {
    if |s| == 0 then 0
    else (if s[0] <= v then 1 else 0) + AtMost(s[1..], v)
  }

  /* ---------------- Properties ---------------- */

  /** xs is sorted ascending and holds the values of x, each as often as x does. */
  lemma {:induction false} EcdfSortsX(x: seq<real>)
    ensures Sorted(Ecdf(x).0) && multiset(Ecdf(x).0) == multiset(x)
  {
    SortPermutes(x);
  }

  /** (i + 1)/n < (j + 1)/n for i < j. */
  lemma LevelOrder(a: real, b: real, n: real)
    requires 0.0 < a < b && n > 0.0
    ensures 0.0 < a / n < b / n
  {
    assert b / n - a / n == (b - a) / n;
  }

  /** The levels increase strictly. */
  lemma {:induction false} LevelsIncrease(n: nat)
    ensures forall i, j :: 0 <= i < j < n ==> Levels(n)[i] < Levels(n)[j]
  {
    var ys := Levels(n);
    forall i, j | 0 <= i < j < n
      ensures ys[i] < ys[j]
    {
      LevelOrder((i + 1) as real, (j + 1) as real, n as real);
    }
  }

  /** The levels lie in (0, 1], and the last one is 1. */
  lemma {:induction false} LevelsRange(n: nat)
    ensures forall i :: 0 <= i < n ==> 0.0 < Levels(n)[i] <= 1.0
    ensures n > 0 ==> Levels(n)[n - 1] == 1.0
  {
    var ys := Levels(n);
    forall i | 0 <= i < n
      ensures 0.0 < ys[i] <= 1.0
    {
      if i + 1 < n {
        LevelOrder((i + 1) as real, n as real, n as real);
      }
    }
  }

  /** Each level times n is the rank i + 1. */
  lemma LevelIsRank(n: nat, i: nat)
    requires i < n
    ensures Levels(n)[i] * (n as real) == (i + 1) as real
  {
  }

  /** Counting is additive over a concatenation. */
  lemma {:induction false} AtMostAppend(a: seq<real>, b: seq<real>, v: real)
    ensures AtMost(a + b, v) == AtMost(a, v) + AtMost(b, v)
  {
    if |a| == 0 {
      assert a + b == b;
    } else {
      assert (a + b)[1..] == a[1..] + b;
      AtMostAppend(a[1..], b, v);
    }
  }

  /** Inserting x adds one to the count exactly when x ≤ v. */
  lemma {:induction false} AtMostInsert(x: real, s: seq<real>, v: real)
    requires Sorted(s)
    ensures AtMost(Insert(x, s), v) == AtMost(s, v) + (if x <= v then 1 else 0)
  {
    if |s| > 0 && x > s[0] {
      assert Insert(x, s)[1..] == Insert(x, s[1..]);
      AtMostInsert(x, s[1..], v);
    } else if |s| > 0 {
      assert Insert(x, s)[1..] == s;
    }
  }

  /** Sorting does not change how many values lie at or below v. */
  lemma {:induction false} AtMostSort(s: seq<real>, v: real)
    ensures AtMost(Sort(s), v) == AtMost(s, v)
  {
    if |s| > 0 {
      AtMostSort(s[1..], v);
      AtMostInsert(s[0], Sort(s[1..]), v);
    }
  }

  /** Every entry at or below v counts. */
  lemma {:induction false} AtMostAll(s: seq<real>, v: real)
    requires forall k :: 0 <= k < |s| ==> s[k] <= v
    ensures AtMost(s, v) == |s|
  {
    if |s| > 0 {
      AtMostAll(s[1..], v);
    }
  }

  /** No entry above v counts. */
  lemma {:induction false} AtMostNone(s: seq<real>, v: real)
    requires forall k :: 0 <= k < |s| ==> s[k] > v
    ensures AtMost(s, v) == 0
  {
    if |s| > 0 {
      AtMostNone(s[1..], v);
    }
  }

  /**
   * In a sorted s, at least i + 1 entries lie at or below s[i], and
   * exactly i + 1 when s[i] is the last of its ties.
   */
  lemma {:induction false} SortedRank(s: seq<real>, i: nat)
    requires Sorted(s) && i < |s|
    ensures AtMost(s, s[i]) >= i + 1
    ensures (i + 1 == |s| || s[i] < s[i + 1]) ==> AtMost(s, s[i]) == i + 1
  {
    var v, pre, post := s[i], s[..i + 1], s[i + 1..];
    assert s == pre + post;
    AtMostAppend(pre, post, v);
    forall k | 0 <= k < |pre|
      ensures pre[k] <= v
    {
      SortedOrder(s, k, i);
    }
    AtMostAll(pre, v);
    if i + 1 == |s| || s[i] < s[i + 1] {
      forall k | 0 <= k < |post|
        ensures post[k] > v
      {
        SortedOrder(s, i + 1, i + 1 + k);
      }
      AtMostNone(post, v);
    }
  }

  /**
   * ys[i] is the empirical CDF of x at xs[i]: the share of the values of x
   * at or below xs[i] is at least ys[i], and equal to it when xs[i] is the
   * last of its ties.
   */
  lemma {:induction false} EcdfIsEmpiricalCdf(x: seq<real>, i: nat)
    requires i < |x|
    ensures var (xs, ys) := Ecdf(x);
            && ys[i] <= AtMost(x, xs[i]) as real / |x| as real
            && ((i + 1 == |x| || xs[i] < xs[i + 1]) ==> ys[i] == AtMost(x, xs[i]) as real / |x| as real)
  {
    var xs, n := Sort(x), |x| as real;
    AtMostSort(x, xs[i]);
    SortedRank(xs, i);
    Share((i + 1) as real, AtMost(x, xs[i]) as real, n);
  }

  lemma Share(a: real, b: real, n: real)
    requires a <= b && n > 0.0
    ensures a / n <= b / n
  {
    assert b / n - a / n == (b - a) / n;
  }
}
