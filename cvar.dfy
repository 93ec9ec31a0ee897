/**
 * The empirical CVaR estimator of adp/cvar.py. Every row of h is the
 * terminal state of one scenario; the estimator sorts the row totals in
 * ascending order and takes the lower tail of size l = ⌈S(1 − β)⌉,
 * weighting the l − 1 worst totals by 1/(S(1 − β)) and the l-th by the
 * remaining weight.
 */
module Cvar {
  import opened Vectors
  import opened Sorting
  import AdpParameters

  /** h.sum(axis=1): the total of every row. */
  function RowSums(h: seq<seq<real>>): (f: seq<real>)
    ensures |f| == |h| && forall s :: 0 <= s < |h| ==> f[s] == Sum(h[s])
  {
    seq(|h|, s requires 0 <= s < |h| => Sum(h[s]))
  }

  /** The smallest integer at or above x. */
  function Ceil(x: real): (c: int)
    ensures c as real - 1.0 < x <= c as real
  {
    if x.Floor as real == x then x.Floor else x.Floor + 1
  }

  /** The tail depth S(1 − β) for S scenarios. */
  function Depth(count: nat): (d: real)
    ensures count >= 1 ==> 0.0 < d < count as real
  {
    count as real * (1.0 - AdpParameters.Beta)
  }

  /** l = ⌈S(1 − β)⌉: the number of totals the tail touches. */
  function TailSize(count: nat): (l: nat)
    requires count >= 1
    ensures 1 <= l <= count
    ensures l as real - 1.0 < Depth(count) <= l as real
  {
    Ceil(Depth(count))
  }

  /**
   * The closed form: a is the sum of the m = l − 1 smallest totals, v the
   * l-th smallest and d the depth.
   */
  function Formula(a: real, m: nat, v: real, d: real): real
    requires d > 0.0
  {
    (a - m as real * v) / d + v
  }

  /** The closed form applied to the ascending totals f. */
  function TailMean(f: seq<real>): real
    requires |f| >= 1
  {
    var m := TailSize(|f|) - 1;
    Formula(Sum(f[..m]), m, f[m], Depth(|f|))
  }

  /** CVaR(h); the source fails on an empty h (f[l - 1] does not exist). */
  function CVaR(h: seq<seq<real>>): real
    requires |h| >= 1
  {
    TailMean(Sort(RowSums(h)))
  }

  /* ---------------- Arithmetic of the closed form ---------------- */

  lemma {:induction false} SumBetween(s: seq<real>, lo: real, hi: real)
    requires forall k :: 0 <= k < |s| ==> lo <= s[k] <= hi
    ensures |s| as real * lo <= Sum(s) <= |s| as real * hi
  {
    if |s| > 0 {
      SumBetween(s[1..], lo, hi);
    }
  }

  lemma DivMonotone(x: real, y: real, d: real)
    requires d > 0.0 && x <= y
    ensures x / d <= y / d
  {
  }

  lemma DivCancel(x: real, d: real)
    requires d > 0.0
    ensures x * d / d == x
  {
  }

  lemma DivSub(x: real, y: real, d: real)
    requires d > 0.0
    ensures x / d - y / d == (x - y) / d
  {
  }

  lemma ProductMonotone(m: real, d: real, e: real)
    requires m <= d && e >= 0.0
    ensures m * e <= d * e
  {
  }

  lemma FormulaBounds(a: real, m: nat, v: real, least: real, d: real)
    requires 0.0 <= m as real < d && least <= v
    requires m as real * least <= a <= m as real * v
    ensures least <= Formula(a, m, v, d) <= v
  {
    var mr, e := m as real, v - least;
    var p := a - mr * v;
    DivMonotone(p, 0.0, d);
    ProductMonotone(mr, d, e);
    assert p >= -(mr * e);
    assert p >= (-e) * d;
    DivMonotone((-e) * d, p, d);
    DivCancel(-e, d);
  }

  lemma PrefixBounds(p: seq<real>, v: real, least: real, d: real)
    requires |p| as real < d && least <= v
    requires forall k :: 0 <= k < |p| ==> least <= p[k] <= v
    ensures least <= Formula(Sum(p), |p|, v, d) <= v
  {
    var a, m := Sum(p), |p|;
    assert m as real * least <= a <= m as real * v by {
      SumBetween(p, least, v);
    }
    FormulaBounds(a, m, v, least, d);
  }

  /**
   * The result is a convex combination of the l smallest totals: it lies
   * between the smallest total f[0] and the l-th smallest f[l − 1].
   */
  lemma TailMeanBounds(f: seq<real>)
    requires |f| >= 1 && Sorted(f)
    ensures f[0] <= TailMean(f) <= f[TailSize(|f|) - 1]
  {
    var m := TailSize(|f|) - 1;
    var p, v, least, d := f[..m], f[m], f[0], Depth(|f|);
    SortedPrefix(f, m);
    PrefixBounds(p, v, least, d);
  }

  lemma SortedPrefix(f: seq<real>, m: nat)
    requires Sorted(f) && m < |f|
    ensures f[0] <= f[m]
    ensures forall k :: 0 <= k < m ==> f[0] <= f[..m][k] <= f[m]
  {
    SortedOrder(f, 0, m);
    forall k | 0 <= k < m
      ensures f[0] <= f[..m][k] <= f[m]
    {
      SortedOrder(f, 0, k);
      SortedOrder(f, k, m);
    }
  }

  /** f[0] of the sorted totals is the smallest total of all. */
  lemma {:induction false} LeastTotal(h: seq<seq<real>>)
    requires |h| >= 1
    ensures forall s :: 0 <= s < |h| ==> Sort(RowSums(h))[0] <= Sum(h[s])
    ensures Sort(RowSums(h))[0] in RowSums(h)
  {
    var f := Sort(RowSums(h));
    SortPermutes(RowSums(h));
    assert f[0] in multiset(f);
    forall s | 0 <= s < |h|
      ensures f[0] <= Sum(h[s])
    {
      assert RowSums(h)[s] in multiset(RowSums(h));
      HeadIsLeast(f, RowSums(h)[s]);
    }
  }

  /** The smallest total ≤ CVaR(h) ≤ the l-th smallest total. */
  lemma CVaRBounds(h: seq<seq<real>>)
    requires |h| >= 1
    ensures forall s :: 0 <= s < |h| ==> Sort(RowSums(h))[0] <= Sum(h[s])
    ensures Sort(RowSums(h))[0] <= CVaR(h) <= Sort(RowSums(h))[TailSize(|h|) - 1]
  {
    LeastTotal(h);
    TailMeanBounds(Sort(RowSums(h)));
  }

  /* ---------------- Constant totals ---------------- */

  lemma TailMeanOfConstant(f: seq<real>, c: real)
    requires |f| >= 1 && forall k :: 0 <= k < |f| ==> f[k] == c
    ensures TailMean(f) == c
  {
    var m := TailSize(|f|) - 1;
    SumOfConstant(f[..m], c);
  }

  /** If every scenario ends with the same total c, CVaR is c. */
  lemma CVaROfConstant(h: seq<seq<real>>, c: real)
    requires |h| >= 1 && forall s :: 0 <= s < |h| ==> Sum(h[s]) == c
    ensures CVaR(h) == c
  {
    var f := Sort(RowSums(h));
    SortPermutes(RowSums(h));
    forall k | 0 <= k < |f|
      ensures f[k] == c
    {
      assert f[k] in multiset(RowSums(h));
    }
    TailMeanOfConstant(f, c);
  }

  /* ---------------- Translation ---------------- */

  lemma ShiftArithmetic(a: real, a': real, m: nat, v: real, v': real, d: real, c: real)
    requires d > 0.0 && a' == a + m as real * c && v' == v + c
    ensures Formula(a', m, v', d) == Formula(a, m, v, d) + c
  {
    assert a' - m as real * v' == a - m as real * v;
  }

  lemma TailMeanShift(f: seq<real>, c: real)
    requires |f| >= 1
    ensures TailMean(Shift(f, c)) == TailMean(f) + c
  {
    var m := TailSize(|f|) - 1;
    var g := Shift(f, c);
    var p, q, d := f[..m], g[..m], Depth(|f|);
    assert q == Shift(p, c);
    SumOfShift(p, c);
    ShiftArithmetic(Sum(p), Sum(q), m, f[m], g[m], d, c);
  }

  /** Adding c to every scenario's total adds c to CVaR. */
  lemma CVaRTranslation(h: seq<seq<real>>, g: seq<seq<real>>, c: real)
    requires |h| >= 1 && |g| == |h|
    requires forall s :: 0 <= s < |h| ==> Sum(g[s]) == Sum(h[s]) + c
    ensures CVaR(g) == CVaR(h) + c
  {
    assert RowSums(g) == Shift(RowSums(h), c);
    SortShift(RowSums(h), c);
    TailMeanShift(Sort(RowSums(h)), c);
  }

  /* ---------------- Monotonicity ---------------- */

  lemma MonotoneArithmetic(a: real, b: real, m: nat, v: real, w: real, d: real)
    requires 0.0 <= m as real < d && a <= b && v <= w
    ensures Formula(a, m, v, d) <= Formula(b, m, w, d)
  {
    var mr, e := m as real, w - v;
    var p, q := a - mr * v, b - mr * w;
    ProductMonotone(mr, d, e);
    assert q - p == (b - a) - mr * e;
    assert q - p >= (-e) * d;
    DivMonotone((-e) * d, q - p, d);
    DivCancel(-e, d);
    DivSub(q, p, d);
  }

  lemma TailMeanMonotone(f: seq<real>, g: seq<real>)
    requires |f| >= 1 && Below(f, g)
    ensures TailMean(f) <= TailMean(g)
  {
    var m := TailSize(|f|) - 1;
    var p, q, d := f[..m], g[..m], Depth(|f|);
    SumMonotone(p, q);
    MonotoneArithmetic(Sum(p), Sum(q), m, f[m], g[m], d);
  }

  /** If no scenario's total decreases, CVaR does not decrease. */
  lemma CVaRMonotone(h: seq<seq<real>>, g: seq<seq<real>>)
    requires |h| >= 1 && |g| == |h|
    requires forall s :: 0 <= s < |h| ==> Sum(h[s]) <= Sum(g[s])
    ensures CVaR(h) <= CVaR(g)
  {
    SortMonotone(RowSums(h), RowSums(g));
    TailMeanMonotone(Sort(RowSums(h)), Sort(RowSums(g)));
  }

  /** The scenarios of h with one more component worth c: every total grows by c. */
  function Appended(h: seq<seq<real>>, c: real): (g: seq<seq<real>>)
    ensures |g| == |h| && forall s :: 0 <= s < |h| ==> g[s] == h[s] + [c]
  {
    seq(|h|, s requires 0 <= s < |h| => h[s] + [c])
  }

  lemma AppendedTotals(h: seq<seq<real>>, c: real)
    ensures forall s :: 0 <= s < |h| ==> Sum(Appended(h, c)[s]) == Sum(h[s]) + c
  {
    forall s | 0 <= s < |h|
      ensures Sum(Appended(h, c)[s]) == Sum(h[s]) + c
    {
      SumAppend(h[s], [c]);
    }
  }

  /**
   * If every total moves by an amount between lo and hi, CVaR moves by an
   * amount between lo and hi.
   */
  lemma CVaRShiftBounds(h: seq<seq<real>>, g: seq<seq<real>>, lo: real, hi: real)
    requires |h| >= 1 && |g| == |h|
    requires forall s :: 0 <= s < |h| ==> Sum(h[s]) + lo <= Sum(g[s]) <= Sum(h[s]) + hi
    ensures CVaR(h) + lo <= CVaR(g) <= CVaR(h) + hi
  {
    var low, high := Appended(h, lo), Appended(h, hi);
    AppendedTotals(h, lo);
    AppendedTotals(h, hi);
    CVaRTranslation(h, low, lo);
    CVaRTranslation(h, high, hi);
    CVaRMonotone(low, g);
    CVaRMonotone(g, high);
  }

  /* ---------------- Positive homogeneity ---------------- */

  lemma ScaleArithmetic(a: real, a': real, m: nat, v: real, v': real, d: real, c: real)
    requires d > 0.0 && a' == c * a && v' == c * v
    ensures Formula(a', m, v', d) == c * Formula(a, m, v, d)
  {
    var p := a - m as real * v;
    assert a' - m as real * v' == c * p;
    assert c * p / d == c * (p / d);
  }

  /** Multiplying every total by c multiplies the closed form by c. */
  lemma {:induction false} TailMeanScale(f: seq<real>, c: real)
    requires |f| >= 1
    ensures TailMean(Scale(c, f)) == c * TailMean(f)
  {
    var m := TailSize(|f|) - 1;
    var g := Scale(c, f);
    var p, q := f[..m], g[..m];
    ScalePrefix(f, c, m);
    SumOfScale(c, p);
    ScaleArithmetic(Sum(p), Sum(q), m, f[m], g[m], Depth(|f|), c);
  }

  lemma ScalePrefix(f: seq<real>, c: real, m: nat)
    requires m <= |f|
    ensures Scale(c, f)[..m] == Scale(c, f[..m])
  {
    assert forall k :: 0 <= k < m ==> Scale(c, f)[..m][k] == Scale(c, f[..m])[k];
  }

  lemma RowSumsScale(h: seq<seq<real>>, g: seq<seq<real>>, c: real)
    requires |g| == |h| && forall s :: 0 <= s < |h| ==> Sum(g[s]) == c * Sum(h[s])
    ensures RowSums(g) == Scale(c, RowSums(h))
  {
    assert forall s :: 0 <= s < |h| ==> RowSums(g)[s] == Scale(c, RowSums(h))[s];
  }

  /**
   * c * x as a function of its own: two such terms whose x are equal are
   * equal by congruence, which the chain of lemmas below relies on instead
   * of nonlinear arithmetic.
   */
  function Times(c: real, x: real): real
  {
    c * x
  }

  lemma {:induction false} TailMeanOfScaled(f: seq<real>, x: seq<real>, c: real)
    requires |f| >= 1 && x == Scale(c, f)
    ensures TailMean(x) == Times(c, TailMean(f))
  {
    TailMeanScale(f, c);
  }

  lemma {:induction false} CVaROfScaledTotals(h: seq<seq<real>>, g: seq<seq<real>>, c: real)
    requires |h| >= 1 && c >= 0.0 && RowSums(g) == Scale(c, RowSums(h))
    ensures CVaR(g) == Times(c, CVaR(h))
  {
    SortScale(RowSums(h), c);
    TailMeanOfScaled(Sort(RowSums(h)), Sort(RowSums(g)), c);
  }

  /** Scaling every scenario's total by c ≥ 0 scales CVaR by c: CVaR is positively homogeneous. */
  lemma {:induction false} CVaRScaling(h: seq<seq<real>>, g: seq<seq<real>>, c: real)
    requires |h| >= 1 && |g| == |h| && c >= 0.0
    requires forall s :: 0 <= s < |h| ==> Sum(g[s]) == c * Sum(h[s])
    ensures CVaR(g) == c * CVaR(h)
  {
    RowSumsScale(h, g, c);
    CVaROfScaledTotals(h, g, c);
  }

  /* ---------------- Dependence on the totals only ---------------- */

  lemma RowSumsAppend(a: seq<seq<real>>, b: seq<seq<real>>)
    ensures RowSums(a + b) == RowSums(a) + RowSums(b)
  {
  }

  lemma {:induction false} RowSumsPermutation(h: seq<seq<real>>, g: seq<seq<real>>)
    requires multiset(h) == multiset(g)
    ensures multiset(RowSums(h)) == multiset(RowSums(g))
    decreases |h|
  {
    if |h| > 0 {
      assert h[0] in multiset(g);
      var i :| 0 <= i < |g| && g[i] == h[0];
      var rest := g[..i] + g[i + 1..];
      assert g == g[..i] + [g[i]] + g[i + 1..];
      assert h == [h[0]] + h[1..];
      assert multiset(g) == multiset(rest) + multiset{g[i]};
      assert multiset(h) == multiset(h[1..]) + multiset{h[0]};
      assert multiset(rest) == multiset(g) - multiset{g[i]};
      assert multiset(h[1..]) == multiset(h) - multiset{h[0]};
      RowSumsPermutation(h[1..], rest);
      RowSumsAppend(g[..i] + [g[i]], g[i + 1..]);
      RowSumsAppend(g[..i], [g[i]]);
      RowSumsAppend(g[..i], g[i + 1..]);
      RowSumsAppend([h[0]], h[1..]);
    }
  }

  /** CVaR depends on the scenarios only through their totals: reordering rows changes nothing. */
  lemma CVaRPermutation(h: seq<seq<real>>, g: seq<seq<real>>)
    requires |h| >= 1 && multiset(h) == multiset(g)
    ensures |g| == |h| && CVaR(g) == CVaR(h)
  {
    assert |multiset(h)| == |multiset(g)|;
    RowSumsPermutation(h, g);
    SortPermutation(RowSums(h), RowSums(g));
  }
}
