/**
 * The value functions of adp/value_function.py.
 *
 * A linear value function is a vector of slopes, one per component of the
 * state (cash first). A piecewise-linear value function gives every asset a
 * fixed grid of M breakpoints a[0..M-1] and one slope per segment, the last
 * segment being unbounded; the value of a position is the area under that
 * step function, found through the segment the position falls in.
 *
 * Matrices are sequences of rows: slopes[j][i] is segment j of asset i.
 * The source module reads M and init from adp/parameters.py, which defines
 * init but not M; M here is the number of breakpoints of parameters.py.
 */
module ValueFunction {
  import opened Vectors
  import Parameters
  import AdpParameters

  const M: nat := Parameters.M

  /* ---------------- Linear value function ---------------- */

  /** LinearValueFunction.__call__ on one row of slopes: Σ V·h. */
  function LinearValue(V: seq<real>, h: seq<real>): real
    requires |V| == |h|
  {
    Dot(V, h)
  }

  /** The linear value of a sum of states is the sum of their values. */
  lemma LinearAdditive(V: seq<real>, g: seq<real>, h: seq<real>)
    requires |V| == |g| == |h|
    ensures LinearValue(V, Add(g, h)) == LinearValue(V, g) + LinearValue(V, h)
  {
    DotAdd(V, g, h);
  }

  /** Scaling the state scales its linear value. */
  lemma LinearHomogeneous(V: seq<real>, c: real, h: seq<real>)
    requires |V| == |h|
    ensures LinearValue(V, Scale(c, h)) == c * LinearValue(V, h)
  {
    DotScale(V, c, h);
  }

  /* ---------------- Matrices and breakpoints ---------------- */

  predicate IsMatrix<T>(A: seq<seq<T>>, m: nat, n: nat)
  {
    |A| == m && forall j :: 0 <= j < m ==> |A[j]| == n
  }

  /** Column i of a matrix. */
  function Column<T>(A: seq<seq<T>>, i: nat): (c: seq<T>)
    requires forall j :: 0 <= j < |A| ==> i < |A[j]|
    ensures |c| == |A| && forall j :: 0 <= j < |A| ==> c[j] == A[j][i]
  {
    seq(|A|, j requires 0 <= j < |A| => A[j][i])
  }

  predicate Ascending(c: seq<real>)
  {
    forall j, j' :: 0 <= j <= j' < |c| ==> c[j] <= c[j']
  }

  /** Every asset's breakpoints ascend from 0. */
  predicate GridShaped(a: seq<seq<real>>, n: nat)
  {
    IsMatrix(a, M, n) && forall i :: 0 <= i < n ==> Column(a, i)[0] == 0.0 && Ascending(Column(a, i))
  }

  /** The initial grid: for every asset, M equally spaced breakpoints from 0 to init, j * init / (M - 1) = j * 10^6. */
  function GridMatrix(n: nat): (a: seq<seq<real>>)
    ensures IsMatrix(a, M, n)
  {
    seq(M, j => seq(n, i => j as real * 1000000.0))
  }

  lemma GridColumns(n: nat, i: nat)
    requires i < n
    ensures Column(GridMatrix(n), i)[0] == 0.0
    ensures Column(GridMatrix(n), i)[M - 1] == AdpParameters.Init
    ensures AdpParameters.Init / (M - 1) as real == 1000000.0
    ensures forall j :: 0 <= j < M - 1 ==> Column(GridMatrix(n), i)[j + 1] - Column(GridMatrix(n), i)[j] == 1000000.0
    ensures Ascending(Column(GridMatrix(n), i))
  {
    var c := Column(GridMatrix(n), i);
    var g := 1000000.0;
    assert g > 0.0;
    forall j, j' | 0 <= j <= j' < M
      ensures c[j] <= c[j']
    {
      MultipleMonotone(j as real, j' as real, g);
    }
    forall j | 0 <= j < M - 1
      ensures c[j + 1] - c[j] == g
    {
      assert c[j + 1] == (j as real + 1.0) * g;
    }
  }

  lemma MultipleMonotone(u: real, v: real, g: real)
    requires u <= v && g >= 0.0
    ensures u * g <= v * g
  {
    assert v * g - u * g == (v - u) * g;
  }

  lemma GridIsGridShaped(n: nat)
    ensures GridShaped(GridMatrix(n), n)
  {
    forall i | 0 <= i < n
      ensures Column(GridMatrix(n), i)[0] == 0.0 && Ascending(Column(GridMatrix(n), i))
    {
      GridColumns(n, i);
    }
  }

  /** idx(x): which breakpoints lie at or below each asset position. */
  function Idx(a: seq<seq<real>>, x: seq<real>): (b: seq<seq<bool>>)
    requires forall j :: 0 <= j < |a| ==> |a[j]| == |x|
    ensures IsMatrix(b, |a|, |x|)
    ensures forall j, i :: 0 <= j < |a| && 0 <= i < |x| ==> b[j][i] == (a[j][i] <= x[i])
  {
    seq(|a|, j requires 0 <= j < |a| => seq(|x|, i requires 0 <= i < |x| => a[j][i] <= x[i]))
  }

  /** With ascending breakpoints, every column of idx is a run of trues followed by falses. */
  lemma IdxPrefix(a: seq<seq<real>>, x: seq<real>, i: nat, j: nat, j': nat)
    requires IsMatrix(a, |a|, |x|) && i < |x| && j' <= j < |a|
    requires Ascending(Column(a, i))
    requires Idx(a, x)[j][i]
    ensures Idx(a, x)[j'][i]
  {
    assert Column(a, i)[j'] <= Column(a, i)[j];
  }

  /** The first index at or after j where b is false, or |b|. */
  function FalseFrom(b: seq<bool>, j: nat): (r: nat)
    requires j <= |b|
    ensures j <= r <= |b|
    ensures r < |b| ==> !b[r]
    ensures forall t :: j <= t < r ==> b[t]
    decreases |b| - j
  {
    if j == |b| || !b[j] then j else FalseFrom(b, j + 1)
  }

  /** numpy's argmin of a boolean column: the first false, or 0 when there is none. */
  function FirstFalse(b: seq<bool>): nat
  {
    var r := FalseFrom(b, 0);
    if r == |b| then 0 else r
  }

  /** The segment index pi = argmin(idx, axis=0) - 1 of every asset; -1 stands for the last segment. */
  function Pi(a: seq<seq<real>>, x: seq<real>): (p: seq<int>)
    requires IsMatrix(a, M, |x|)
    ensures |p| == |x| && forall i :: 0 <= i < |x| ==> -1 <= p[i] < M
  {
    var b := Idx(a, x);
    seq(|x|, i requires 0 <= i < |x| => FirstFalse(Column(b, i)) - 1)
  }

  /** numpy's reading of an index in -m..m-1 as a row. */
  function Row(p: int, m: nat): nat
    requires -(m as int) <= p < m
  {
    if p < 0 then p + m else p
  }

  /** One column of idx: which of the breakpoints c lie at or below x. */
  function AtOrBelow(c: seq<real>, x: real): (b: seq<bool>)
    ensures |b| == |c| && forall j :: 0 <= j < |c| ==> b[j] == (c[j] <= x)
  {
    seq(|c|, j requires 0 <= j < |c| => c[j] <= x)
  }

  /** The segment a position x falls in, for one asset's breakpoints c. */
  function Segment(c: seq<real>, x: real): (p: nat)
    requires |c| >= 1
    ensures p < |c|
  {
    Row(FirstFalse(AtOrBelow(c, x)) - 1, |c|)
  }

  lemma PiIsSegment(a: seq<seq<real>>, x: seq<real>, i: nat)
    requires IsMatrix(a, M, |x|) && i < |x|
    ensures Row(Pi(a, x)[i], M) == Segment(Column(a, i), x[i])
  {
    var b, b' := Column(Idx(a, x), i), AtOrBelow(Column(a, i), x[i]);
    forall j | 0 <= j < M
      ensures b[j] == b'[j]
    {
    }
    assert b == b';
  }

  /**
   * The segment of a position at or above the first breakpoint starts at or
   * below it and ends above it, unless it is the unbounded last segment.
   */
  lemma SegmentBounds(c: seq<real>, x: real)
    requires |c| >= 1 && c[0] <= x
    ensures c[Segment(c, x)] <= x
    ensures Segment(c, x) + 1 < |c| ==> x < c[Segment(c, x) + 1]
  {
    var b := AtOrBelow(c, x);
    var r := FalseFrom(b, 0);
    if r < |c| {
      assert b[0];
      assert Segment(c, x) == r - 1;
      assert b[r - 1];
    } else {
      assert b[|c| - 1];
    }
  }

  /** A position below the first breakpoint falls, as written, in the last segment. */
  lemma SegmentBelowGrid(c: seq<real>, x: real)
    requires |c| >= 1 && x < c[0]
    ensures Segment(c, x) == |c| - 1
  {
    var b := AtOrBelow(c, x);
    assert !b[0];
  }

  /* ---------------- Piecewise-linear value ---------------- */

  /**
   * The intercept term of one asset over the breakpoints 1..q:
   * the sum of (s[j-1] - s[j]) * c[j] over the breakpoints at or below x.
   */
  function Intercept(s: seq<real>, c: seq<real>, x: real, q: nat): real
    requires q < |s| == |c|
  {
    if q == 0 then 0.0
    else Intercept(s, c, x, q - 1) + if c[q] <= x then (s[q - 1] - s[q]) * c[q] else 0.0
  }

  /** Every asset's intercepts: the intercept term d of __call__, split by asset. */
  function Intercepts(slopes: seq<seq<real>>, a: seq<seq<real>>, x: seq<real>): (d: seq<real>)
    requires M >= 1 && IsMatrix(slopes, M, |x|) && IsMatrix(a, M, |x|)
    ensures |d| == |x|
  {
    seq(|x|, i requires 0 <= i < |x| => Intercept(Column(slopes, i), Column(a, i), x[i], M - 1))
  }

  /** u: the slope of every asset's segment pi_i. */
  function SegmentSlopes(slopes: seq<seq<real>>, a: seq<seq<real>>, x: seq<real>): (u: seq<real>)
    requires M >= 1 && IsMatrix(slopes, M, |x|) && IsMatrix(a, M, |x|)
    ensures |u| == |x|
  {
    var p := Pi(a, x);
    seq(|x|, i requires 0 <= i < |x| => slopes[Row(p[i], M)][i])
  }

  /** __call__: cash times its slope, plus the intercepts, plus every position times its segment's slope. */
  function Eval(slopes: seq<seq<real>>, cash: real, a: seq<seq<real>>, h: seq<real>): real
    requires M >= 1 && |h| >= 1 && IsMatrix(slopes, M, |h| - 1) && IsMatrix(a, M, |h| - 1)
  {
    var x := h[1..];
    h[0] * cash + Sum(Intercepts(slopes, a, x)) + Dot(x, SegmentSlopes(slopes, a, x))
  }

  /** Σ_{j<q} s[j] * (c[j+1] - c[j]): the area under the first q full segments. */
  function FullSegments(s: seq<real>, c: seq<real>, q: nat): real
    requires q < |s| == |c|
  {
    if q == 0 then 0.0 else FullSegments(s, c, q - 1) + s[q - 1] * (c[q] - c[q - 1])
  }

  /** The area under one asset's step function from 0 to x. */
  function Area(s: seq<real>, c: seq<real>, x: real): real
    requires |s| == |c| >= 1
  {
    AreaIn(s, c, x, Segment(c, x))
  }

  /** The area up to x, for x in segment p: the full segments below p and part of segment p. */
  function AreaIn(s: seq<real>, c: seq<real>, x: real, p: nat): real
    requires |s| == |c| && p < |c|
  {
    FullSegments(s, c, p) + s[p] * (x - c[p])
  }

  /** Below the segment of x, the intercepts telescope into full segments. */
  lemma {:induction false} InterceptTelescopes(s: seq<real>, c: seq<real>, x: real, q: nat)
    requires q < |s| == |c| && forall j :: 0 <= j <= q ==> c[j] <= x
    ensures Intercept(s, c, x, q) + s[q] * c[q] == FullSegments(s, c, q) + s[0] * c[0]
  {
    if q > 0 {
      InterceptTelescopes(s, c, x, q - 1);
      TelescopeStep(s, c, x, q);
    }
  }

  lemma TelescopeStep(s: seq<real>, c: seq<real>, x: real, q: nat)
    requires 0 < q < |s| == |c| && c[q] <= x
    requires Intercept(s, c, x, q - 1) + s[q - 1] * c[q - 1] == FullSegments(s, c, q - 1) + s[0] * c[0]
    ensures Intercept(s, c, x, q) + s[q] * c[q] == FullSegments(s, c, q) + s[0] * c[0]
  {
    TelescopeArithmetic(Intercept(s, c, x, q - 1), FullSegments(s, c, q - 1), s[0] * c[0],
      s[q - 1], s[q], c[q - 1], c[q]);
  }

  lemma TelescopeArithmetic(i: real, f: real, k: real, sp: real, sq: real, cp: real, cq: real)
    requires i + sp * cp == f + k
    ensures (i + (sp - sq) * cq) + sq * cq == (f + sp * (cq - cp)) + k
  {
    assert (sp - sq) * cq == sp * cq - sq * cq;
    assert sp * (cq - cp) == sp * cq - sp * cp;
  }

  /** Above the segment of x, no breakpoint contributes. */
  lemma {:induction false} InterceptAbove(s: seq<real>, c: seq<real>, x: real, p: nat, q: nat)
    requires p <= q < |s| == |c| && Ascending(c)
    requires p + 1 < |c| ==> x < c[p + 1]
    ensures Intercept(s, c, x, q) == Intercept(s, c, x, p)
  {
    if q > p {
      assert x < c[p + 1] <= c[q];
      InterceptAbove(s, c, x, p, q - 1);
    }
  }

  /**
   * One asset's term of __call__ is the area under its step function, for x
   * in the segment p given by its bounds.
   */
  lemma ColumnIsArea(s: seq<real>, c: seq<real>, x: real, p: nat)
    requires |s| == |c| && p < |c| && Ascending(c) && c[0] == 0.0
    requires c[p] <= x && (p + 1 < |c| ==> x < c[p + 1])
    ensures Intercept(s, c, x, |c| - 1) + x * s[p] == AreaIn(s, c, x, p)
  {
    var ip, f := Intercept(s, c, x, p), FullSegments(s, c, p);
    assert Intercept(s, c, x, |c| - 1) == ip by {
      InterceptAbove(s, c, x, p, |c| - 1);
    }
    assert ip + s[p] * c[p] == f + s[0] * c[0] by {
      forall j | 0 <= j <= p
        ensures c[j] <= x
      {
        assert c[j] <= c[p];
      }
      InterceptTelescopes(s, c, x, p);
    }
    AreaArithmetic(ip, f, s[p], c[p], s[0], c[0], x);
  }

  lemma AreaArithmetic(ip: real, f: real, sp: real, cp: real, s0: real, c0: real, x: real)
    requires ip + sp * cp == f + s0 * c0 && c0 == 0.0
    ensures ip + x * sp == f + sp * (x - cp)
  {
    assert sp * (x - cp) == x * sp - sp * cp;
  }

  /** One asset's term of __call__: its intercepts plus its position times its segment's slope. */
  function ColumnTerm(s: seq<real>, c: seq<real>, x: real): real
    requires |s| == |c| >= 1
  {
    Intercept(s, c, x, |c| - 1) + x * s[Segment(c, x)]
  }

  /** Every asset's term of __call__. */
  function ColumnTerms(slopes: seq<seq<real>>, a: seq<seq<real>>, x: seq<real>): (t: seq<real>)
    requires M >= 1 && IsMatrix(slopes, M, |x|) && IsMatrix(a, M, |x|)
    ensures |t| == |x|
  {
    seq(|x|, i requires 0 <= i < |x| => ColumnTerm(Column(slopes, i), Column(a, i), x[i]))
  }

  /** The area under every asset's slopes up to its position. */
  function Areas(slopes: seq<seq<real>>, a: seq<seq<real>>, x: seq<real>): (t: seq<real>)
    requires M >= 1 && IsMatrix(slopes, M, |x|) && IsMatrix(a, M, |x|)
    ensures |t| == |x|
  {
    seq(|x|, i requires 0 <= i < |x| => Area(Column(slopes, i), Column(a, i), x[i]))
  }

  lemma EvalByColumns(slopes: seq<seq<real>>, cash: real, a: seq<seq<real>>, h: seq<real>)
    requires M >= 1 && |h| >= 1 && IsMatrix(slopes, M, |h| - 1) && IsMatrix(a, M, |h| - 1)
    ensures Eval(slopes, cash, a, h) == h[0] * cash + Sum(ColumnTerms(slopes, a, h[1..]))
  {
    var x := h[1..];
    ColumnTermsSplit(slopes, a, x);
    SumOfAdd(Intercepts(slopes, a, x), Mul(x, SegmentSlopes(slopes, a, x)));
  }

  lemma ColumnTermsSplit(slopes: seq<seq<real>>, a: seq<seq<real>>, x: seq<real>)
    requires M >= 1 && IsMatrix(slopes, M, |x|) && IsMatrix(a, M, |x|)
    ensures ColumnTerms(slopes, a, x) == Add(Intercepts(slopes, a, x), Mul(x, SegmentSlopes(slopes, a, x)))
  {
    forall i | 0 <= i < |x|
      ensures ColumnTerms(slopes, a, x)[i] == Add(Intercepts(slopes, a, x), Mul(x, SegmentSlopes(slopes, a, x)))[i]
    {
      ColumnTermSplit(slopes, a, x, i);
    }
  }

  lemma ColumnTermSplit(slopes: seq<seq<real>>, a: seq<seq<real>>, x: seq<real>, i: nat)
    requires M >= 1 && IsMatrix(slopes, M, |x|) && IsMatrix(a, M, |x|) && i < |x|
    ensures ColumnTerms(slopes, a, x)[i] == Add(Intercepts(slopes, a, x), Mul(x, SegmentSlopes(slopes, a, x)))[i]
  {
    var s, c := Column(slopes, i), Column(a, i);
    SegmentSlopeOf(slopes, a, x, i);
    assert Intercepts(slopes, a, x)[i] == Intercept(s, c, x[i], |c| - 1);
    AddMulAt(Intercepts(slopes, a, x), x, SegmentSlopes(slopes, a, x), i,
      Intercept(s, c, x[i], |c| - 1), s[Segment(c, x[i])]);
    assert ColumnTerms(slopes, a, x)[i] == ColumnTerm(s, c, x[i]);
  }

  /**
   * For non-negative positions on a grid ascending from 0, the value is the
   * cash times its slope plus, for every asset, the area under its slopes
   * from 0 to its position.
   */
  lemma EvalIsArea(slopes: seq<seq<real>>, cash: real, a: seq<seq<real>>, h: seq<real>)
    requires M >= 1 && |h| >= 1 && IsMatrix(slopes, M, |h| - 1) && GridShaped(a, |h| - 1)
    requires NonNegative(h[1..])
    ensures Eval(slopes, cash, a, h) == h[0] * cash + Sum(Areas(slopes, a, h[1..]))
  {
    EvalByColumns(slopes, cash, a, h);
    var x := h[1..];
    var t, r := ColumnTerms(slopes, a, x), Areas(slopes, a, x);
    forall i | 0 <= i < |x|
      ensures t[i] == r[i]
    {
      ColumnTermIsArea(Column(slopes, i), Column(a, i), x[i]);
    }
    assert t == r;
  }

  /** One asset's term of __call__ is the area under its step function from 0 to x. */
  lemma ColumnTermIsArea(s: seq<real>, c: seq<real>, x: real)
    requires |s| == |c| >= 1 && Ascending(c) && c[0] == 0.0 && x >= 0.0
    ensures ColumnTerm(s, c, x) == Area(s, c, x)
  {
    var p := Segment(c, x);
    SegmentBounds(c, x);
    ColumnIsArea(s, c, x, p);
  }

  lemma SegmentSlopeOf(slopes: seq<seq<real>>, a: seq<seq<real>>, x: seq<real>, i: nat)
    requires M >= 1 && IsMatrix(slopes, M, |x|) && IsMatrix(a, M, |x|) && i < |x|
    ensures SegmentSlopes(slopes, a, x)[i] == Column(slopes, i)[Segment(Column(a, i), x[i])]
  {
    PiIsSegment(a, x, i);
  }

  lemma {:induction false} InterceptOfConstant(s: seq<real>, c: seq<real>, x: real, q: nat)
    requires q < |s| == |c| && forall j :: 0 <= j < |s| ==> s[j] == s[0]
    ensures Intercept(s, c, x, q) == 0.0
  {
    if q > 0 {
      InterceptOfConstant(s, c, x, q - 1);
    }
  }

  /** An asset whose slopes all equal s_i contributes s_i times its position, whatever the grid. */
  lemma EvalOfConstantSlopes(slopes: seq<seq<real>>, cash: real, a: seq<seq<real>>, h: seq<real>, s: seq<real>)
    requires M >= 1 && |h| >= 1 && IsMatrix(slopes, M, |h| - 1) && IsMatrix(a, M, |h| - 1) && |s| == |h| - 1
    requires forall j, i :: 0 <= j < M && 0 <= i < |s| ==> slopes[j][i] == s[i]
    ensures Eval(slopes, cash, a, h) == h[0] * cash + Dot(h[1..], s)
  {
    var x := h[1..];
    InterceptsOfConstant(slopes, a, x, s);
    SumOfZeros(|x|);
    SegmentSlopesOfConstant(slopes, a, x, s);
  }

  lemma InterceptsOfConstant(slopes: seq<seq<real>>, a: seq<seq<real>>, x: seq<real>, s: seq<real>)
    requires M >= 1 && IsMatrix(slopes, M, |x|) && IsMatrix(a, M, |x|) && |s| == |x|
    requires forall j, i :: 0 <= j < M && 0 <= i < |s| ==> slopes[j][i] == s[i]
    ensures Intercepts(slopes, a, x) == Zeros(|x|)
  {
    var d := Intercepts(slopes, a, x);
    forall i | 0 <= i < |x|
      ensures d[i] == 0.0
    {
      var c := Column(slopes, i);
      forall j | 0 <= j < M
        ensures c[j] == c[0]
      {
        assert c[j] == s[i] && c[0] == s[i];
      }
      InterceptOfConstant(c, Column(a, i), x[i], M - 1);
    }
  }

  lemma SegmentSlopesOfConstant(slopes: seq<seq<real>>, a: seq<seq<real>>, x: seq<real>, s: seq<real>)
    requires M >= 1 && IsMatrix(slopes, M, |x|) && IsMatrix(a, M, |x|) && |s| == |x|
    requires forall j, i :: 0 <= j < M && 0 <= i < |s| ==> slopes[j][i] == s[i]
    ensures SegmentSlopes(slopes, a, x) == s
  {
  }

  /** The slopes after update: segment pi_i of asset i moves towards ΔV_{i+1}. */
  function UpdatedSlopes(slopes: seq<seq<real>>, dV: seq<real>, pi: seq<int>, alpha: real): (r: seq<seq<real>>)
    requires IsMatrix(slopes, M, |pi|) && |dV| == |pi| + 1
    requires forall i :: 0 <= i < |pi| ==> -(M as int) <= pi[i] < M
    ensures IsMatrix(r, M, |pi|)
  {
    seq(M, j requires 0 <= j < M => seq(|pi|, i requires 0 <= i < |pi| =>
      if j == Row(pi[i], M) then (1.0 - alpha) * slopes[j][i] + alpha * dV[i + 1] else slopes[j][i]))
  }

  /** Exactly one slope per asset moves: the one of its segment pi_i. */
  lemma UpdateTouchesOneSegment(slopes: seq<seq<real>>, dV: seq<real>, pi: seq<int>, alpha: real, j: nat, i: nat)
    requires IsMatrix(slopes, M, |pi|) && |dV| == |pi| + 1
    requires forall i :: 0 <= i < |pi| ==> -(M as int) <= pi[i] < M
    requires j < M && i < |pi|
    ensures j != Row(pi[i], M) ==> UpdatedSlopes(slopes, dV, pi, alpha)[j][i] == slopes[j][i]
    ensures alpha == 1.0 && j == Row(pi[i], M) ==> UpdatedSlopes(slopes, dV, pi, alpha)[j][i] == dV[i + 1]
    ensures 0.0 <= alpha <= 1.0 && j == Row(pi[i], M) ==>
      Between(UpdatedSlopes(slopes, dV, pi, alpha)[j][i], slopes[j][i], dV[i + 1])
  {
    var v := UpdatedSlopes(slopes, dV, pi, alpha)[j][i];
    if 0.0 <= alpha <= 1.0 && j == Row(pi[i], M) {
      BlendBetween(slopes[j][i], dV[i + 1], alpha);
    }
  }

  predicate Between(v: real, p: real, q: real)
  {
    (p <= v <= q) || (q <= v <= p)
  }

  lemma BlendBetween(p: real, q: real, alpha: real)
    requires 0.0 <= alpha <= 1.0
    ensures Between((1.0 - alpha) * p + alpha * q, p, q)
  {
    var v := (1.0 - alpha) * p + alpha * q;
    assert v - p == alpha * (q - p);
    assert q - v == (1.0 - alpha) * (q - p);
    if p <= q {
      ProductNonNegative(alpha, q - p);
      ProductNonNegative(1.0 - alpha, q - p);
    } else {
      ProductNonNegative(alpha, p - q);
      ProductNonNegative(1.0 - alpha, p - q);
    }
  }

  /** A step size of 0 changes no slope. */
  lemma UpdateWithZeroStep(slopes: seq<seq<real>>, dV: seq<real>, pi: seq<int>)
    requires IsMatrix(slopes, M, |pi|) && |dV| == |pi| + 1
    requires forall i :: 0 <= i < |pi| ==> -(M as int) <= pi[i] < M
    ensures UpdatedSlopes(slopes, dV, pi, 0.0) == slopes
  {
    forall j | 0 <= j < M
      ensures UpdatedSlopes(slopes, dV, pi, 0.0)[j] == slopes[j]
    {
    }
  }

  /**
   * update keeps no order among an asset's slopes: from the non-increasing
   * slopes 2, 1, ... of one asset, a unit step towards ΔV = 3 on segment 1
   * makes them increase.
   */
  lemma UpdateMayBreakConcavity()
    ensures var slopes := seq(M, j => [if j == 0 then 2.0 else 1.0]);
      var r := UpdatedSlopes(slopes, [0.0, 3.0], [1], 1.0);
      slopes[0][0] >= slopes[1][0] && r[0][0] < r[1][0]
  {
    var slopes := seq(M, j => [if j == 0 then 2.0 else 1.0]);
    var r := UpdatedSlopes(slopes, [0.0, 3.0], [1], 1.0);
    assert r[1][0] == 3.0;
    assert r[0][0] == 2.0;
  }

  /** PWLinearValueFunction: slopes and breakpoints per asset and segment, and a cash slope. */
  class PWLinearValueFunction {
    var slopes: seq<seq<real>>
    var cash: real
    var a: seq<seq<real>>
    const n: nat

    predicate Valid()
      reads this
    {
      IsMatrix(slopes, M, n) && IsMatrix(a, M, n)
    }

    /** All slopes 1, cash slope 1, the equally spaced grid. */
    constructor (n: nat)
      ensures this.n == n && Valid()
      ensures slopes == seq(M, j => seq(n, i => 1.0)) && cash == 1.0 && a == GridMatrix(n)
    {
      this.n := n;
      slopes := seq(M, j => seq(n, i => 1.0));
      cash := 1.0;
      a := GridMatrix(n);
    }

    /** __call__(h). */
    function Call(h: seq<real>): real
      reads this
      requires Valid() && |h| == n + 1
    {
      Eval(slopes, cash, a, h)
    }

    /** idx(x). */
    function Indices(x: seq<real>): (b: seq<seq<bool>>)
      reads this
      requires Valid() && |x| == n
      ensures b == Idx(a, x)
    {
      Idx(a, x)
    }

    /** update(ΔV, pi, alpha): blends the cash slope and the slope of every asset's segment pi_i. */
    method Update(dV: seq<real>, pi: seq<int>, alpha: real)
      requires Valid() && |dV| == n + 1 && |pi| == n
      requires forall i :: 0 <= i < n ==> -(M as int) <= pi[i] < M
      modifies this
      ensures Valid() && a == old(a)
      ensures cash == (1.0 - alpha) * old(cash) + alpha * dV[0]
      ensures slopes == UpdatedSlopes(old(slopes), dV, pi, alpha)
    {
      cash := (1.0 - alpha) * cash + alpha * dV[0];
      slopes := UpdatedSlopes(slopes, dV, pi, alpha);
    }
  }

  lemma DotOnes(x: seq<real>)
    ensures Dot(x, Ones(|x|)) == Sum(x)
  {
    assert Mul(x, Ones(|x|)) == x;
  }

  /** A fresh piecewise-linear value function values a state at its total: V(h) = h_0 + Σ_i x_i. */
  lemma InitialValue(V: PWLinearValueFunction, h: seq<real>)
    requires V.Valid() && |h| == V.n + 1
    requires V.slopes == seq(M, j => seq(V.n, i => 1.0)) && V.cash == 1.0
    ensures V.Call(h) == Sum(h)
  {
    OnesSlopes(V.slopes, V.n);
    EvalOfConstantSlopes(V.slopes, V.cash, V.a, h, Ones(V.n));
    DotOnes(h[1..]);
  }

  lemma OnesSlopes(slopes: seq<seq<real>>, n: nat)
    requires slopes == seq(M, j => seq(n, i => 1.0))
    ensures forall j, i :: 0 <= j < M && 0 <= i < n ==> slopes[j][i] == Ones(n)[i]
  {
  }
}
