/**
 * PWLADPInspectionModel of adp/pwladp/inspection.py: inspection at the level
 * of segments of a piecewise-linear value function. Every asset position is
 * split into fills of the segments of its breakpoint grid (full below its
 * segment, partial in it, empty above); each segment has a buying and a
 * selling slope; the step sells the profitable segments, spends the cash on
 * the best segment, then trades segments against the best one.
 *
 * Matrices have M rows (segments) and n columns (assets); the argmax of
 * numpy runs over the row-major order, segment j of asset i coming after
 * every segment of a lower row and after segment j of every lower asset.
 */
module PwlInspection {
  import opened Options
  import opened Vectors
  import opened ValueFunction
  import Parameters

  /*
   * The cost factors 1 + θ and 1 − θ for the θ = 0.002 of the pwladp
   * parameters are written as the literals 1.002 and 0.998, which keeps the
   * cash arithmetic linear for the solver (see CostFactors).
   */

  /** 1.002 and 0.998 are 1 + θ and 1 − θ. */
  lemma CostFactors()
    ensures 1.0 + Parameters.Theta == 1.002 && 1.0 - Parameters.Theta == 0.998
  {
  }

  /* ---------------- Positions in row-major order ---------------- */

  /** Segment j of asset i. */
  datatype Pos = Pos(j: nat, i: nat)

  /** p comes before q in row-major order, the order of numpy's argmax over a matrix. */
  predicate Before(p: Pos, q: Pos)
  {
    p.j < q.j || (p.j == q.j && p.i < q.i)
  }

  /** p is an entry of an M-by-n matrix. */
  predicate InMatrix(p: Pos, n: nat)
  {
    p.j < M && p.i < n
  }

  /** q bounds a row-major prefix of an M-by-n matrix; Pos(M, 0) bounds all of it. */
  predicate Bound(q: Pos, n: nat)
  {
    (q.j < M && q.i <= n) || (q.j == M && q.i == 0)
  }

  /** A[j][i] := v. */
  function Assign<T>(A: seq<seq<T>>, j: nat, i: nat, v: T): (r: seq<seq<T>>)
    requires j < |A| && i < |A[j]|
    ensures |r| == |A| && r[j] == A[j][i := v] && forall t :: 0 <= t < |A| && t != j ==> r[t] == A[t]
  {
    A[j := A[j][i := v]]
  }

  function ZeroMatrix(n: nat): (Z: seq<seq<real>>)
    ensures IsMatrix(Z, M, n)
  {
    seq(M, j => Zeros(n))
  }

  /** The bound just before q: the end of the previous row at the start of a row, else the entry before q. */
  function Prev(q: Pos, n: nat): (r: Pos)
    requires Bound(q, n) && q != Pos(0, 0)
    ensures Bound(r, n)
    ensures (q.i == 0 && r == Pos(q.j - 1, n)) || (q.i > 0 && r == Pos(q.j, q.i - 1))
  {
    if q.i == 0 then Pos(q.j - 1, n) else Pos(q.j, q.i - 1)
  }

  /**
   * The first entry before q where mask holds and v is largest: numpy's
   * argmax over the masked entries of the prefix (BestBeforeIsBest).
   */
  function BestBefore(v: seq<seq<real>>, mask: seq<seq<bool>>, n: nat, q: Pos): (b: Option<Pos>)
    requires IsMatrix(v, M, n) && IsMatrix(mask, M, n) && Bound(q, n)
    ensures b.Some? ==> InMatrix(b.value, n) && mask[b.value.j][b.value.i]
    decreases q.j, q.i
  {
    if q == Pos(0, 0) then None
    else
      var p := Prev(q, n);
      var b := BestBefore(v, mask, n, p);
      if q.i > 0 && mask[p.j][p.i] && (b.None? || v[p.j][p.i] > v[b.value.j][b.value.i]) then Some(p) else b
  }

  /**
   * b is numpy's argmax over the masked entries before q: none exactly when
   * no entry before q is masked; otherwise an entry before q that no masked
   * entry before q exceeds, and that every masked entry before it falls short of.
   */
  predicate IsBestBefore(v: seq<seq<real>>, mask: seq<seq<bool>>, n: nat, q: Pos, b: Option<Pos>)
    requires IsMatrix(v, M, n) && IsMatrix(mask, M, n)
    requires b.Some? ==> InMatrix(b.value, n)
  {
    && (b.None? <==> forall jj, ii :: 0 <= jj < M && 0 <= ii < n && Before(Pos(jj, ii), q) ==> !mask[jj][ii])
    && (b.Some? ==> Before(b.value, q))
    && (b.Some? ==> forall jj, ii :: 0 <= jj < M && 0 <= ii < n && Before(Pos(jj, ii), q) && mask[jj][ii] ==>
                      v[jj][ii] <= v[b.value.j][b.value.i])
    && (b.Some? ==> forall jj, ii :: 0 <= jj < M && 0 <= ii < n && Before(Pos(jj, ii), b.value) && mask[jj][ii] ==>
                      v[jj][ii] < v[b.value.j][b.value.i])
  }

  /** BestBefore is the argmax over the masked entries before q. */
  lemma {:induction false} BestBeforeIsBest(v: seq<seq<real>>, mask: seq<seq<bool>>, n: nat, q: Pos)
    requires IsMatrix(v, M, n) && IsMatrix(mask, M, n) && Bound(q, n)
    ensures IsBestBefore(v, mask, n, q, BestBefore(v, mask, n, q))
    decreases q.j, q.i
  {
    if q != Pos(0, 0) {
      var prev := Prev(q, n);
      BestBeforeIsBest(v, mask, n, prev);
      if q.i == 0 {
        BestBeforeRow(v, mask, n, q, prev);
      } else {
        BestBeforeEntry(v, mask, n, q, prev);
      }
    }
  }

  /** At the start of a row the argmax is that of the end of the previous row. */
  lemma BestBeforeRow(v: seq<seq<real>>, mask: seq<seq<bool>>, n: nat, q: Pos, prev: Pos)
    requires IsMatrix(v, M, n) && IsMatrix(mask, M, n) && Bound(q, n)
    requires q.i == 0 && q != Pos(0, 0) && prev == Prev(q, n)
    requires IsBestBefore(v, mask, n, prev, BestBefore(v, mask, n, prev))
    ensures IsBestBefore(v, mask, n, q, BestBefore(v, mask, n, q))
  {
    assert BestBefore(v, mask, n, q) == BestBefore(v, mask, n, prev);
    assert forall jj, ii :: 0 <= jj < M && 0 <= ii < n ==> (Before(Pos(jj, ii), q) <==> Before(Pos(jj, ii), prev));
  }

  /** Entry prev, the one just before q, replaces the argmax so far when it is masked and strictly larger. */
  lemma BestBeforeEntry(v: seq<seq<real>>, mask: seq<seq<bool>>, n: nat, q: Pos, prev: Pos)
    requires IsMatrix(v, M, n) && IsMatrix(mask, M, n) && Bound(q, n)
    requires q.i > 0 && prev == Prev(q, n)
    requires IsBestBefore(v, mask, n, prev, BestBefore(v, mask, n, prev))
    ensures IsBestBefore(v, mask, n, q, BestBefore(v, mask, n, q))
  {
    var b := BestBefore(v, mask, n, prev);
    if mask[prev.j][prev.i] && (b.None? || v[prev.j][prev.i] > v[b.value.j][b.value.i]) {
      assert BestBefore(v, mask, n, q) == Some(prev);
      BestBeforeTakes(v, mask, n, q, prev, b);
    } else {
      assert BestBefore(v, mask, n, q) == b;
      BestBeforeKeeps(v, mask, n, q, prev, b);
    }
  }

  lemma BestBeforeTakes(v: seq<seq<real>>, mask: seq<seq<bool>>, n: nat, q: Pos, prev: Pos, b: Option<Pos>)
    requires IsMatrix(v, M, n) && IsMatrix(mask, M, n) && Bound(q, n)
    requires q.i > 0 && prev == Prev(q, n) && (b.Some? ==> InMatrix(b.value, n))
    requires IsBestBefore(v, mask, n, prev, b)
    requires mask[prev.j][prev.i] && (b.None? || v[prev.j][prev.i] > v[b.value.j][b.value.i])
    ensures IsBestBefore(v, mask, n, q, Some(prev))
  {
    assert forall jj, ii :: 0 <= jj < M && 0 <= ii < n ==> (Before(Pos(jj, ii), q) <==> Before(Pos(jj, ii), prev) || Pos(jj, ii) == prev);
  }

  lemma BestBeforeKeeps(v: seq<seq<real>>, mask: seq<seq<bool>>, n: nat, q: Pos, prev: Pos, b: Option<Pos>)
    requires IsMatrix(v, M, n) && IsMatrix(mask, M, n) && Bound(q, n)
    requires q.i > 0 && prev == Prev(q, n) && (b.Some? ==> InMatrix(b.value, n))
    requires IsBestBefore(v, mask, n, prev, b)
    requires !(mask[prev.j][prev.i] && (b.None? || v[prev.j][prev.i] > v[b.value.j][b.value.i]))
    ensures IsBestBefore(v, mask, n, q, b)
  {
    assert forall jj, ii :: 0 <= jj < M && 0 <= ii < n ==> (Before(Pos(jj, ii), q) <==> Before(Pos(jj, ii), prev) || Pos(jj, ii) == prev);
  }

  /** The first masked entry of largest value over the whole matrix (FirstBestIsBest). */
  function FirstBest(v: seq<seq<real>>, mask: seq<seq<bool>>, n: nat): (b: Option<Pos>)
    requires IsMatrix(v, M, n) && IsMatrix(mask, M, n)
    ensures b.Some? ==> InMatrix(b.value, n) && mask[b.value.j][b.value.i]
  {
    BestBefore(v, mask, n, Pos(M, 0))
  }

  /** numpy's argmax over the masked entries: none exactly when nothing is masked; otherwise the largest, and the first of the largest. */
  lemma FirstBestIsBest(v: seq<seq<real>>, mask: seq<seq<bool>>, n: nat)
    requires IsMatrix(v, M, n) && IsMatrix(mask, M, n)
    ensures var b := FirstBest(v, mask, n);
      && (b.None? <==> forall jj, ii :: 0 <= jj < M && 0 <= ii < n ==> !mask[jj][ii])
      && (b.Some? ==> forall jj, ii :: 0 <= jj < M && 0 <= ii < n && mask[jj][ii] ==> v[jj][ii] <= v[b.value.j][b.value.i])
      && (b.Some? ==> forall jj, ii :: 0 <= jj < M && 0 <= ii < n && Before(Pos(jj, ii), b.value) && mask[jj][ii] ==>
                        v[jj][ii] < v[b.value.j][b.value.i])
  {
    BestBeforeIsBest(v, mask, n, Pos(M, 0));
  }

  /** The number of entries before q where mask holds. */
  function CountBefore(mask: seq<seq<bool>>, n: nat, q: Pos): nat
    requires IsMatrix(mask, M, n) && Bound(q, n)
    decreases q.j, q.i
  {
    if q == Pos(0, 0) then 0
    else
      var p := Prev(q, n);
      CountBefore(mask, n, p) + if q.i > 0 && mask[p.j][p.i] then 1 else 0
  }

  /** Clearing one set entry p removes exactly that entry from every prefix count that covers it. */
  lemma {:induction false} CountAfterClear(mask: seq<seq<bool>>, n: nat, p: Pos, q: Pos)
    requires IsMatrix(mask, M, n) && Bound(q, n) && InMatrix(p, n) && mask[p.j][p.i]
    ensures CountBefore(Assign(mask, p.j, p.i, false), n, q) + (if Before(p, q) then 1 else 0) == CountBefore(mask, n, q)
    decreases q.j, q.i
  {
    if q != Pos(0, 0) {
      var prev := Prev(q, n);
      CountAfterClear(mask, n, p, prev);
      if q.i == 0 {
        CountClearRow(mask, n, p, q, prev);
      } else {
        CountClearEntry(mask, n, p, q, prev);
      }
    }
  }

  /** CountAfterClear carries from the end of row q.j - 1 to the start of row q.j. */
  lemma CountClearRow(mask: seq<seq<bool>>, n: nat, p: Pos, q: Pos, prev: Pos)
    requires IsMatrix(mask, M, n) && Bound(q, n) && InMatrix(p, n) && mask[p.j][p.i]
    requires q.i == 0 && q != Pos(0, 0) && prev == Prev(q, n)
    requires CountBefore(Assign(mask, p.j, p.i, false), n, prev) + (if Before(p, prev) then 1 else 0) == CountBefore(mask, n, prev)
    ensures CountBefore(Assign(mask, p.j, p.i, false), n, q) + (if Before(p, q) then 1 else 0) == CountBefore(mask, n, q)
  {
    var cleared := Assign(mask, p.j, p.i, false);
    assert CountBefore(cleared, n, q) == CountBefore(cleared, n, prev);
    assert CountBefore(mask, n, q) == CountBefore(mask, n, prev);
    assert Before(p, q) == Before(p, prev);
  }

  /** CountAfterClear carries from the entry before q to q. */
  lemma CountClearEntry(mask: seq<seq<bool>>, n: nat, p: Pos, q: Pos, prev: Pos)
    requires IsMatrix(mask, M, n) && Bound(q, n) && InMatrix(p, n) && mask[p.j][p.i]
    requires q.i > 0 && prev == Prev(q, n)
    requires CountBefore(Assign(mask, p.j, p.i, false), n, prev) + (if Before(p, prev) then 1 else 0) == CountBefore(mask, n, prev)
    ensures CountBefore(Assign(mask, p.j, p.i, false), n, q) + (if Before(p, q) then 1 else 0) == CountBefore(mask, n, q)
  {
    var cleared := Assign(mask, p.j, p.i, false);
    assert cleared[prev.j][prev.i] == (mask[prev.j][prev.i] && p != prev);
    assert Before(p, q) == (Before(p, prev) || p == prev);
  }


  /* ---------------- Segment capacities, fills and slopes ---------------- */

  /** Segment capacity: the gap to the next breakpoint, infinite for the last segment. */
  datatype Cap = Finite(gap: real) | Unbounded

  /** h_tidle < w_tidle. */
  predicate Under(v: real, w: Cap)
  {
    w.Unbounded? || v < w.gap
  }

  /** w_tidle. */
  function Caps(a: seq<seq<real>>, n: nat): (w: seq<seq<Cap>>)
    requires IsMatrix(a, M, n)
    ensures IsMatrix(w, M, n)
  {
    seq(M, j requires 0 <= j < M => seq(n, i requires 0 <= i < n =>
      if j < M - 1 then Finite(a[j + 1][i] - a[j][i]) else Unbounded))
  }

  /** h_tidle: the full segments at or below the position, overwritten by the partial fill of segment pi_i. */
  function HTilde(a: seq<seq<real>>, x: seq<real>): (ht: seq<seq<real>>)
    requires IsMatrix(a, M, |x|)
    ensures IsMatrix(ht, M, |x|)
  {
    var p := Pi(a, x);
    seq(M, j requires 0 <= j < M => seq(|x|, i requires 0 <= i < |x| =>
      if j == Row(p[i], M) then x[i] - a[j][i]
      else if j < M - 1 && a[j][i] <= x[i] then a[j + 1][i] - a[j][i]
      else 0.0))
  }

  /** k: buying slopes of every segment. */
  function BuySlopes(slopes: seq<seq<real>>, cash: real, n: nat): (k: seq<seq<real>>)
    requires IsMatrix(slopes, M, n)
    ensures IsMatrix(k, M, n)
  {
    seq(M, j requires 0 <= j < M => seq(n, i requires 0 <= i < n => slopes[j][i] - 1.002 * cash))
  }

  /** l: selling slopes of every segment. */
  function SellSlopes(slopes: seq<seq<real>>, cash: real, n: nat): (l: seq<seq<real>>)
    requires IsMatrix(slopes, M, n)
    ensures IsMatrix(l, M, n)
  {
    seq(M, j requires 0 <= j < M => seq(n, i requires 0 <= i < n => -slopes[j][i] + 0.998 * cash))
  }

  /** On a grid ascending from 0, every capacity is non-negative. */
  lemma CapsNonNegative(a: seq<seq<real>>, n: nat, j: nat, i: nat)
    requires GridShaped(a, n) && j < M - 1 && i < n
    ensures Caps(a, n)[j][i].gap >= 0.0
  {
    assert Column(a, i)[j] <= Column(a, i)[j + 1];
  }

  /**
   * On a grid ascending from 0, a non-negative position fills every segment
   * below its own up to capacity, its own segment up to the position, and
   * nothing above.
   */
  lemma SegmentFills(a: seq<seq<real>>, x: seq<real>, i: nat, j: nat)
    requires GridShaped(a, |x|) && i < |x| && j < M && x[i] >= 0.0
    ensures var p := Segment(Column(a, i), x[i]);
      && (j < p ==> HTilde(a, x)[j][i] == a[j + 1][i] - a[j][i])
      && (j == p ==> HTilde(a, x)[j][i] == x[i] - a[j][i])
      && (j > p ==> HTilde(a, x)[j][i] == 0.0)
  {
    var c := Column(a, i);
    var p := Segment(c, x[i]);
    PiIsSegment(a, x, i);
    SegmentBounds(c, x[i]);
    if j < p {
      assert c[j] <= c[p];
    } else if j > p {
      assert c[p + 1] <= c[j];
    }
  }

  /** Sum(t) telescopes up to the segment p of the position v. */
  lemma {:induction false} Telescope(t: seq<real>, g: seq<real>, p: nat, q: nat)
    requires |t| == |g| && p < |t| && q <= p
    requires forall j :: 0 <= j < p ==> t[j] == g[j + 1] - g[j]
    ensures Sum(t[..q]) == g[q] - g[0]
  {
    if q > 0 {
      Telescope(t, g, p, q - 1);
      SumLast(t[..q]);
      assert t[..q][..q - 1] == t[..q - 1];
    }
  }

  /** Per asset, the segment fills add up to the position. */
  lemma FillsSumToPosition(a: seq<seq<real>>, x: seq<real>, i: nat)
    requires GridShaped(a, |x|) && i < |x| && x[i] >= 0.0
    ensures Sum(Column(HTilde(a, x), i)) == x[i]
  {
    var t, g := Column(HTilde(a, x), i), Column(a, i);
    var p := Segment(g, x[i]);
    forall j | 0 <= j < M
      ensures j < p ==> t[j] == g[j + 1] - g[j]
      ensures j == p ==> t[j] == x[i] - g[j]
      ensures j > p ==> t[j] == 0.0
    {
      SegmentFills(a, x, i, j);
    }
    FillsAddUp(t, g, p, x[i]);
  }

  /** Full fills below p, the partial fill v - g[p] at p and nothing above add up to v - g[0]. */
  lemma FillsAddUp(t: seq<real>, g: seq<real>, p: nat, v: real)
    requires |t| == |g| && p < |t|
    requires forall j :: 0 <= j < p ==> t[j] == g[j + 1] - g[j]
    requires t[p] == v - g[p]
    requires forall j :: p < j < |t| ==> t[j] == 0.0
    ensures Sum(t) == v - g[0]
  {
    Telescope(t, g, p, p);
    SumLast(t[..p + 1]);
    assert t[..p + 1][..p] == t[..p];
    assert t == t[..p + 1] + t[p + 1..];
    SumAppend(t[..p + 1], t[p + 1..]);
    SumOfConstant(t[p + 1..], 0.0);
  }

  /* ---------------- Totals ---------------- */

  function RowSums(A: seq<seq<real>>): (r: seq<real>)
    ensures |r| == |A|
  {
    seq(|A|, j requires 0 <= j < |A| => Sum(A[j]))
  }

  /** The sum of all entries of a matrix. */
  function Total(A: seq<seq<real>>): real
  {
    Sum(RowSums(A))
  }

  /** x.sum(axis=0): the per-asset totals over segments. */
  function ColumnSums(A: seq<seq<real>>, n: nat): (r: seq<real>)
    requires forall j :: 0 <= j < |A| ==> |A[j]| == n
    ensures |r| == n
  {
    seq(n, i requires 0 <= i < n => Sum(Column(A, i)))
  }

  /** Adding d to one entry adds d to the total. */
  lemma TotalOfAssign(A: seq<seq<real>>, j: nat, i: nat, d: real)
    requires j < |A| && i < |A[j]|
    ensures Total(Assign(A, j, i, A[j][i] + d)) == Total(A) + d
  {
    var B := Assign(A, j, i, A[j][i] + d);
    SumUpdate(A[j], i, A[j][i] + d);
    assert RowSums(B) == RowSums(A)[j := Sum(B[j])];
    SumUpdate(RowSums(A), j, Sum(B[j]));
  }

  /** The per-asset totals add up to the total. */
  lemma {:induction false} SumOfColumnSums(A: seq<seq<real>>, n: nat)
    requires forall j :: 0 <= j < |A| ==> |A[j]| == n
    ensures Sum(ColumnSums(A, n)) == Total(A)
  {
    if |A| == 0 {
      assert ColumnSums(A, n) == Zeros(n);
      SumOfZeros(n);
    } else {
      var B := A[..|A| - 1];
      SumOfColumnSums(B, n);
      forall i | 0 <= i < n
        ensures ColumnSums(A, n)[i] == Add(ColumnSums(B, n), A[|A| - 1])[i]
      {
        SumLast(Column(A, i));
        assert Column(A, i)[..|A| - 1] == Column(B, i);
      }
      assert ColumnSums(A, n) == Add(ColumnSums(B, n), A[|A| - 1]);
      SumOfAdd(ColumnSums(B, n), A[|A| - 1]);
      SumLast(RowSums(A));
      assert RowSums(A)[..|A| - 1] == RowSums(B);
    }
  }

  /* ---------------- Step 1: selling ---------------- */

  /** y after step 1: every segment with a positive selling slope and a positive fill is sold in full. */
  function Sold(l: seq<seq<real>>, ht: seq<seq<real>>, n: nat): (y: seq<seq<real>>)
    requires IsMatrix(l, M, n) && IsMatrix(ht, M, n)
    ensures IsMatrix(y, M, n)
    ensures forall j, i :: 0 <= j < M && 0 <= i < n ==>
      (y[j][i] == ht[j][i] && l[j][i] > 0.0 && ht[j][i] > 0.0) || (y[j][i] == 0.0 && !(l[j][i] > 0.0 && ht[j][i] > 0.0))
  {
    seq(M, j requires 0 <= j < M => seq(n, i requires 0 <= i < n =>
      if l[j][i] > 0.0 && ht[j][i] > 0.0 then ht[j][i] else 0.0))
  }

  /* ---------------- Step 2: buying ---------------- */

  /** j_star_idx: segments with a positive buying slope that are not full. */
  function Candidates(k: seq<seq<real>>, ht: seq<seq<real>>, w: seq<seq<Cap>>, n: nat): (c: seq<seq<bool>>)
    requires IsMatrix(k, M, n) && IsMatrix(ht, M, n) && IsMatrix(w, M, n)
    ensures IsMatrix(c, M, n)
  {
    seq(M, j requires 0 <= j < M => seq(n, i requires 0 <= i < n => k[j][i] > 0.0 && Under(ht[j][i], w[j][i])))
  }

  /** The best buy j*: the first segment of largest buying slope among the candidates. */
  function BestBuy(k: seq<seq<real>>, ht: seq<seq<real>>, w: seq<seq<Cap>>, n: nat): (b: Option<Pos>)
    requires IsMatrix(k, M, n) && IsMatrix(ht, M, n) && IsMatrix(w, M, n)
    ensures b.Some? ==> InMatrix(b.value, n)
  {
    FirstBest(k, Candidates(k, ht, w, n), n)
  }

  /** The number of candidates; filling a segment removes one. */
  function CandidateCount(k: seq<seq<real>>, ht: seq<seq<real>>, w: seq<seq<Cap>>, n: nat): nat
    requires IsMatrix(k, M, n) && IsMatrix(ht, M, n) && IsMatrix(w, M, n)
  {
    CountBefore(Candidates(k, ht, w, n), n, Pos(M, 0))
  }

  /** Filling a finite candidate segment to capacity removes exactly that candidate. */
  lemma CountAfterFill(k: seq<seq<real>>, ht: seq<seq<real>>, w: seq<seq<Cap>>, n: nat, p: Pos)
    requires IsMatrix(k, M, n) && IsMatrix(ht, M, n) && IsMatrix(w, M, n) && InMatrix(p, n)
    requires Candidates(k, ht, w, n)[p.j][p.i] && w[p.j][p.i].Finite?
    ensures CandidateCount(k, Assign(ht, p.j, p.i, w[p.j][p.i].gap), w, n) + 1 == CandidateCount(k, ht, w, n)
  {
    var c := Candidates(k, ht, w, n);
    var c' := Candidates(k, Assign(ht, p.j, p.i, w[p.j][p.i].gap), w, n);
    forall j | 0 <= j < M
      ensures c'[j] == Assign(c, p.j, p.i, false)[j]
    {
    }
    assert c' == Assign(c, p.j, p.i, false);
    CountAfterClear(c, n, p, Pos(M, 0));
  }

  lemma FloorStep(c: real, e: real)
    requires e > 0.0 && e < c
    ensures 0 <= ((c - e) / e).Floor < (c / e).Floor
  {
    var q, r := c / e, (c - e) / e;
    assert q * e == c;
    assert r * e == c - e;
    assert (q - 1.0 - r) * e == 0.0;
    ZeroFactor(q - 1.0 - r, e);
    assert q > 1.0 by {
      assert (q - 1.0) * e == c - e;
      if q <= 1.0 {
        ProductNonNegative(1.0 - q, e);
      }
    }
  }

  lemma ZeroFactor(z: real, e: real)
    requires e > 0.0 && z * e == 0.0
    ensures z == 0.0
  {
  }

  /** The cash left from c after buying d units at 1 + θ each. */
  function Spend(c: real, d: real): real
  {
    c - 1.002 * d
  }

  /** Whether the cash c buys more than the missing amount d of the best buy. */
  predicate Fills(c: real, d: real)
  {
    1.002 * d < c
  }

  /**
   * The cash left when the step-2 loop, as written, finally leaves through
   * its else branch: every pass fills the same missing amount d again and
   * pays (1 + θ)d for it, since h_tidle is never updated.
   */
  function FillLoop(c: real, d: real): (r: real)
    requires d > 0.0
    decreases (c / (1.002 * d)).Floor
  {
    if Fills(c, d) then
      FloorStep(c, 1.002 * d);
      FillLoop(Spend(c, d), d)
    else c
  }

  /** The number of passes of that loop. */
  function Passes(c: real, d: real): nat
    requires d > 0.0
    decreases (c / (1.002 * d)).Floor
  {
    if Fills(c, d) then
      FloorStep(c, 1.002 * d);
      1 + Passes(Spend(c, d), d)
    else 0
  }

  /** The cash left is what remains after paying (1 + θ)d on every pass, and no more than one fill's cost. */
  lemma {:induction false} FillLoopCash(c: real, d: real)
    requires d > 0.0
    ensures FillLoop(c, d) == c - Passes(c, d) as real * (1.002 * d)
    ensures FillLoop(c, d) <= 1.002 * d
    decreases (c / (1.002 * d)).Floor
  {
    if Fills(c, d) {
      FloorStep(c, 1.002 * d);
      FillLoopCash(Spend(c, d), d);
    } else {
      assert c / 1.002 * 1.002 == c;
      assert c <= d * 1.002 by {
        ProductNonNegative(d - c / 1.002, 1.002);
      }
    }
  }

  /** Step 2 as written: the purchases and the cash at its end. */
  function Step2(k: seq<seq<real>>, ht: seq<seq<real>>, w: seq<seq<Cap>>, x: seq<seq<real>>, c: real, n: nat)
    : (r: (seq<seq<real>>, real))
    requires IsMatrix(k, M, n) && IsMatrix(ht, M, n) && IsMatrix(w, M, n) && IsMatrix(x, M, n)
    ensures IsMatrix(r.0, M, n)
  {
    match BestBuy(k, ht, w, n)
    case None => (x, c)
    case Some(p) =>
      if w[p.j][p.i].Finite? && Fills(c, w[p.j][p.i].gap - ht[p.j][p.i]) then
        (Assign(x, p.j, p.i, FillLoop(c, w[p.j][p.i].gap - ht[p.j][p.i]) / 1.002), 0.0)
      else
        (Assign(x, p.j, p.i, c / 1.002), 0.0)
  }

  /**
   * Step 2 with the evident intent: a filled segment is marked full, so the
   * next pass moves to the next best segment.
   */
  function Step2Corrected(k: seq<seq<real>>, ht: seq<seq<real>>, w: seq<seq<Cap>>, x: seq<seq<real>>, c: real, n: nat)
    : (r: (seq<seq<real>>, real))
    requires IsMatrix(k, M, n) && IsMatrix(ht, M, n) && IsMatrix(w, M, n) && IsMatrix(x, M, n)
    ensures IsMatrix(r.0, M, n)
    decreases CandidateCount(k, ht, w, n)
  {
    match BestBuy(k, ht, w, n)
    case None => (x, c)
    case Some(p) =>
      if w[p.j][p.i].Finite? && Fills(c, w[p.j][p.i].gap - ht[p.j][p.i]) then
        var d := w[p.j][p.i].gap - ht[p.j][p.i];
        CountAfterFill(k, ht, w, n, p);
        Step2Corrected(k, Assign(ht, p.j, p.i, w[p.j][p.i].gap), w, Assign(x, p.j, p.i, x[p.j][p.i] + d), Spend(c, d), n)
      else
        (Assign(x, p.j, p.i, x[p.j][p.i] + c / 1.002), 0.0)
  }

  /** Corrected step 2 spends on segments exactly the cash that leaves: cash + (1 + θ)Σx is conserved. */
  lemma {:induction false} CorrectedStep2Conserves(k: seq<seq<real>>, ht: seq<seq<real>>, w: seq<seq<Cap>>, x: seq<seq<real>>, c: real, n: nat)
    requires IsMatrix(k, M, n) && IsMatrix(ht, M, n) && IsMatrix(w, M, n) && IsMatrix(x, M, n)
    ensures var r := Step2Corrected(k, ht, w, x, c, n);
      r.1 + 1.002 * Total(r.0) == c + 1.002 * Total(x)
    decreases CandidateCount(k, ht, w, n)
  {
    var b := BestBuy(k, ht, w, n);
    if b.Some? {
      var p := b.value;
      if w[p.j][p.i].Finite? && Fills(c, w[p.j][p.i].gap - ht[p.j][p.i]) {
        var d := w[p.j][p.i].gap - ht[p.j][p.i];
        var ht', x', c' := Assign(ht, p.j, p.i, w[p.j][p.i].gap), Assign(x, p.j, p.i, x[p.j][p.i] + d), Spend(c, d);
        CountAfterFill(k, ht, w, n, p);
        CorrectedStep2Conserves(k, ht', w, x', c', n);
        Step2ConservesStep(k, ht, w, x, c, n, p, ht', x', c');
      } else {
        TotalOfAssign(x, p.j, p.i, c / 1.002);
        SpendAll(c, Total(x));
      }
    }
  }

  /** A fill followed by a conserving rest of corrected step 2 conserves. */
  lemma Step2ConservesStep(k: seq<seq<real>>, ht: seq<seq<real>>, w: seq<seq<Cap>>, x: seq<seq<real>>, c: real, n: nat, p: Pos,
                           ht': seq<seq<real>>, x': seq<seq<real>>, c': real)
    requires IsMatrix(k, M, n) && IsMatrix(ht, M, n) && IsMatrix(w, M, n) && IsMatrix(x, M, n)
    requires BestBuy(k, ht, w, n) == Some(p) && w[p.j][p.i].Finite? && Fills(c, w[p.j][p.i].gap - ht[p.j][p.i])
    requires var d := w[p.j][p.i].gap - ht[p.j][p.i];
      ht' == Assign(ht, p.j, p.i, w[p.j][p.i].gap) && x' == Assign(x, p.j, p.i, x[p.j][p.i] + d) && c' == Spend(c, d)
    requires var r := Step2Corrected(k, ht', w, x', c', n);
      r.1 + 1.002 * Total(r.0) == c' + 1.002 * Total(x')
    ensures var r := Step2Corrected(k, ht, w, x, c, n);
      r.1 + 1.002 * Total(r.0) == c + 1.002 * Total(x)
  {
    var d := w[p.j][p.i].gap - ht[p.j][p.i];
    Step2CorrectedFills(k, ht, w, x, c, n, p);
    TotalOfAssign(x, p.j, p.i, d);
    SpendArithmetic(c, d, Total(x));
  }

  /** One pass of corrected step 2 that fills the best segment. */
  lemma Step2CorrectedFills(k: seq<seq<real>>, ht: seq<seq<real>>, w: seq<seq<Cap>>, x: seq<seq<real>>, c: real, n: nat, p: Pos)
    requires IsMatrix(k, M, n) && IsMatrix(ht, M, n) && IsMatrix(w, M, n) && IsMatrix(x, M, n)
    requires BestBuy(k, ht, w, n) == Some(p) && w[p.j][p.i].Finite? && Fills(c, w[p.j][p.i].gap - ht[p.j][p.i])
    ensures var d := w[p.j][p.i].gap - ht[p.j][p.i];
      Step2Corrected(k, ht, w, x, c, n)
      == Step2Corrected(k, Assign(ht, p.j, p.i, w[p.j][p.i].gap), w, Assign(x, p.j, p.i, x[p.j][p.i] + d), Spend(c, d), n)
  {
  }

  lemma SpendArithmetic(c: real, d: real, t: real)
    ensures Spend(c, d) + 1.002 * (t + d) == c + 1.002 * t
  {
  }

  lemma SpendAll(c: real, t: real)
    ensures 0.0 + 1.002 * (t + c / 1.002) == c + 1.002 * t
  {
  }

  /** The best buy exists, has a finite capacity, and the cash c covers filling it. */
  predicate CoversBestFill(k: seq<seq<real>>, ht: seq<seq<real>>, w: seq<seq<Cap>>, n: nat, c: real)
    requires IsMatrix(k, M, n) && IsMatrix(ht, M, n) && IsMatrix(w, M, n)
  {
    match BestBuy(k, ht, w, n)
    case None => false
    case Some(p) => w[p.j][p.i].Finite? && Fills(c, w[p.j][p.i].gap - ht[p.j][p.i])
  }

  /**
   * As written, once the cash covers one fill of the best segment, step 2
   * records less than it spends: the cash ends at 0 while (1 + θ)Σx falls
   * short of the cash it started with.
   */
  lemma AsWrittenStep2Loses(k: seq<seq<real>>, ht: seq<seq<real>>, w: seq<seq<Cap>>, c: real, n: nat)
    requires IsMatrix(k, M, n) && IsMatrix(ht, M, n) && IsMatrix(w, M, n)
    requires CoversBestFill(k, ht, w, n, c)
    ensures var r := Step2(k, ht, w, ZeroMatrix(n), c, n);
      r.1 == 0.0 && 1.002 * Total(r.0) < c
  {
    var p := BestBuy(k, ht, w, n).value;
    var d := w[p.j][p.i].gap - ht[p.j][p.i];
    var left := FillLoop(c, d);
    var Z := ZeroMatrix(n);
    Step2Fills(k, ht, w, Z, c, n, p);
    FillLoopLoses(c, d);
    TotalOfZeroMatrix(n);
    TotalOfAssign(Z, p.j, p.i, left / 1.002);
    assert Z[p.j][p.i] + left / 1.002 == left / 1.002;
  }

  /** Step 2 as written, when the cash covers one fill of the best segment p. */
  lemma Step2Fills(k: seq<seq<real>>, ht: seq<seq<real>>, w: seq<seq<Cap>>, x: seq<seq<real>>, c: real, n: nat, p: Pos)
    requires IsMatrix(k, M, n) && IsMatrix(ht, M, n) && IsMatrix(w, M, n) && IsMatrix(x, M, n)
    requires BestBuy(k, ht, w, n) == Some(p) && w[p.j][p.i].Finite? && Fills(c, w[p.j][p.i].gap - ht[p.j][p.i])
    ensures w[p.j][p.i].gap - ht[p.j][p.i] > 0.0
    ensures Step2(k, ht, w, x, c, n) == (Assign(x, p.j, p.i, FillLoop(c, w[p.j][p.i].gap - ht[p.j][p.i]) / 1.002), 0.0)
  {
  }

  /** Once the loop passes at least once, the cash it leaves is short of the cash it started with by at least one fill. */
  lemma FillLoopLoses(c: real, d: real)
    requires d > 0.0 && Fills(c, d)
    ensures FillLoop(c, d) <= c - 1.002 * d
  {
    FillLoopCash(c, d);
    FloorStep(c, 1.002 * d);
    assert Passes(c, d) >= 1;
    ProductNonNegative((Passes(c, d) - 1) as real, 1.002 * d);
  }

  lemma TotalOfZeroMatrix(n: nat)
    ensures Total(ZeroMatrix(n)) == 0.0
  {
    SumOfZeros(n);
    assert RowSums(ZeroMatrix(n)) == Zeros(M);
    SumOfZeros(M);
  }

  /** The input of the finding: with cash 3.006 and a gap of 1 the loop passes twice and leaves 1.002, buying 1. */
  lemma AsWrittenFillLoopExample()
    ensures Passes(3.006, 1.0) == 2 && FillLoop(3.006, 1.0) == 1.002
  {
    assert Fills(3.006, 1.0) && Fills(2.004, 1.0) && !Fills(1.002, 1.0);
  }

  /* ---------------- Step 3: selling to buy ---------------- */

  /** i_star_idx as computed: the third argument of np.logical_and is its output buffer, so only l <= 0 and a positive fill count. */
  function Offered(l: seq<seq<real>>, ht: seq<seq<real>>, n: nat): (o: seq<seq<bool>>)
    requires IsMatrix(l, M, n) && IsMatrix(ht, M, n)
    ensures IsMatrix(o, M, n)
  {
    seq(M, j requires 0 <= j < M => seq(n, i requires 0 <= i < n => l[j][i] <= 0.0 && ht[j][i] > 0.0))
  }

  /** The segment purchases x, sales y and fills h_tidle. */
  datatype Segments = Segments(x: seq<seq<real>>, y: seq<seq<real>>, ht: seq<seq<real>>)

  predicate Shaped(st: Segments, n: nat)
  {
    IsMatrix(st.x, M, n) && IsMatrix(st.y, M, n) && IsMatrix(st.ht, M, n)
  }

  /** The amounts one pass sells of segment i* and buys of segment j*. */
  function PassAmounts(w: Cap, hi: real, hj: real): (r: (real, real))
  {
    if w.Unbounded? || hi < 1.002 / 0.998 * (w.gap - hj) then
      (hi, 0.998 / 1.002 * hi)
    else
      (1.002 / 0.998 * (w.gap - hj), w.gap - hj)
  }

  /** Every pass is cash-neutral: (1 + θ) times the amount bought equals (1 − θ) times the amount sold. */
  lemma PassIsCashNeutral(w: Cap, hi: real, hj: real)
    ensures 1.002 * PassAmounts(w, hi, hj).1 == 0.998 * PassAmounts(w, hi, hj).0
  {
  }

  /** One sell-to-buy pass from the best buy q to the best sale p. */
  function Pass(w: seq<seq<Cap>>, st: Segments, n: nat, q: Pos, p: Pos): (r: Segments)
    requires Shaped(st, n) && IsMatrix(w, M, n) && InMatrix(q, n) && InMatrix(p, n)
    ensures Shaped(r, n)
  {
    var amounts := PassAmounts(w[q.j][q.i], st.ht[p.j][p.i], st.ht[q.j][q.i]);
    var y := Assign(st.y, p.j, p.i, st.y[p.j][p.i] + amounts.0);
    var x := Assign(st.x, q.j, q.i, st.x[q.j][q.i] + amounts.1);
    var ht := Assign(st.ht, p.j, p.i, st.ht[p.j][p.i] - y[p.j][p.i]);
    Segments(x, y, Assign(ht, q.j, q.i, ht[q.j][q.i] + x[q.j][q.i]))
  }

  /** Step 3 for at most `passes` passes. */
  function Step3(k: seq<seq<real>>, l: seq<seq<real>>, w: seq<seq<Cap>>, st: Segments, n: nat, passes: nat): (r: Segments)
    requires IsMatrix(k, M, n) && IsMatrix(l, M, n) && IsMatrix(w, M, n) && Shaped(st, n)
    ensures Shaped(r, n)
    decreases passes
  {
    if passes == 0 then st
    else
      match BestBuy(k, st.ht, w, n)
      case None => st
      case Some(q) =>
        match FirstBest(l, Offered(l, st.ht, n), n)
        case None => st
        case Some(p) => Step3(k, l, w, Pass(w, st, n, q, p), n, passes - 1)
  }

  /** A pass of step 3 from the best buy q and the best sale p. */
  lemma Step3Passes(k: seq<seq<real>>, l: seq<seq<real>>, w: seq<seq<Cap>>, st: Segments, n: nat, rest: nat, q: Pos, p: Pos)
    requires IsMatrix(k, M, n) && IsMatrix(l, M, n) && IsMatrix(w, M, n) && Shaped(st, n)
    requires BestBuy(k, st.ht, w, n) == Some(q) && FirstBest(l, Offered(l, st.ht, n), n) == Some(p)
    ensures Step3(k, l, w, st, n, rest + 1) == Step3(k, l, w, Pass(w, st, n, q, p), n, rest)
  {
  }

  /** Step 3 stops when there is no best buy or no segment to sell. */
  lemma Step3Stops(k: seq<seq<real>>, l: seq<seq<real>>, w: seq<seq<Cap>>, st: Segments, n: nat, passes: nat)
    requires IsMatrix(k, M, n) && IsMatrix(l, M, n) && IsMatrix(w, M, n) && Shaped(st, n)
    requires BestBuy(k, st.ht, w, n).None? || FirstBest(l, Offered(l, st.ht, n), n).None?
    ensures Step3(k, l, w, st, n, passes) == st
  {
  }

  /** Step 3 as a whole is cash-neutral: (1 + θ)Δ(Σx) = (1 − θ)Δ(Σy). */
  lemma {:induction false} Step3IsCashNeutral(k: seq<seq<real>>, l: seq<seq<real>>, w: seq<seq<Cap>>, st: Segments, n: nat, passes: nat)
    requires IsMatrix(k, M, n) && IsMatrix(l, M, n) && IsMatrix(w, M, n) && Shaped(st, n)
    ensures var r := Step3(k, l, w, st, n, passes);
      1.002 * (Total(r.x) - Total(st.x)) == 0.998 * (Total(r.y) - Total(st.y))
    decreases passes
  {
    if passes > 0 {
      var q := BestBuy(k, st.ht, w, n);
      var p := FirstBest(l, Offered(l, st.ht, n), n);
      if q.Some? && p.Some? {
        var rest: nat := passes - 1;
        Step3IsCashNeutral(k, l, w, Pass(w, st, n, q.value, p.value), n, rest);
        Step3NeutralStep(k, l, w, st, n, rest, q.value, p.value);
      } else {
        Step3Stops(k, l, w, st, n, passes);
      }
    }
  }

  /** A pass followed by a cash-neutral rest is cash-neutral. */
  lemma Step3NeutralStep(k: seq<seq<real>>, l: seq<seq<real>>, w: seq<seq<Cap>>, st: Segments, n: nat, rest: nat, q: Pos, p: Pos)
    requires IsMatrix(k, M, n) && IsMatrix(l, M, n) && IsMatrix(w, M, n) && Shaped(st, n)
    requires BestBuy(k, st.ht, w, n) == Some(q) && FirstBest(l, Offered(l, st.ht, n), n) == Some(p)
    requires var st' := Pass(w, st, n, q, p); var r := Step3(k, l, w, st', n, rest);
      1.002 * (Total(r.x) - Total(st'.x)) == 0.998 * (Total(r.y) - Total(st'.y))
    ensures var r := Step3(k, l, w, st, n, rest + 1);
      1.002 * (Total(r.x) - Total(st.x)) == 0.998 * (Total(r.y) - Total(st.y))
  {
    var st' := Pass(w, st, n, q, p);
    var r := Step3(k, l, w, st', n, rest);
    Step3Passes(k, l, w, st, n, rest, q, p);
    PassTotals(w, st, n, q, p);
    NeutralChain(Total(st.x), Total(st'.x), Total(r.x), Total(st.y), Total(st'.y), Total(r.y));
  }

  lemma NeutralChain(x0: real, x1: real, x2: real, y0: real, y1: real, y2: real)
    requires 1.002 * (x1 - x0) == 0.998 * (y1 - y0) && 1.002 * (x2 - x1) == 0.998 * (y2 - y1)
    ensures 1.002 * (x2 - x0) == 0.998 * (y2 - y0)
  {
  }

  lemma PassTotals(w: seq<seq<Cap>>, st: Segments, n: nat, q: Pos, p: Pos)
    requires Shaped(st, n) && IsMatrix(w, M, n) && InMatrix(q, n) && InMatrix(p, n)
    ensures 1.002 * (Total(Pass(w, st, n, q, p).x) - Total(st.x))
         == 0.998 * (Total(Pass(w, st, n, q, p).y) - Total(st.y))
  {
    var amounts := PassAmounts(w[q.j][q.i], st.ht[p.j][p.i], st.ht[q.j][q.i]);
    TotalOfAssign(st.y, p.j, p.i, amounts.0);
    TotalOfAssign(st.x, q.j, q.i, amounts.1);
    PassIsCashNeutral(w[q.j][q.i], st.ht[p.j][p.i], st.ht[q.j][q.i]);
  }

  /* ---------------- The whole step ---------------- */

  /** The outcome of step: the caller's cash, and per-asset purchases and sales. */
  datatype Decision = Decision(cash: real, x: seq<real>, y: seq<real>)

  /** The cash after step 1: the sales y are credited at 1 − θ. */
  function SalesCash(c: real, y: seq<seq<real>>): real
  {
    c + 0.998 * Total(y)
  }

  /** The state of the segments after step 2, and the cash at that point. */
  function AfterStep2(h: seq<real>, slopes: seq<seq<real>>, cash: real, a: seq<seq<real>>, n: nat): (r: (Segments, real))
    requires |h| == n + 1 && IsMatrix(slopes, M, n) && IsMatrix(a, M, n)
    ensures Shaped(r.0, n)
  {
    var ht := HTilde(a, h[1..]);
    var y := Sold(SellSlopes(slopes, cash, n), ht, n);
    var step2 := Step2(BuySlopes(slopes, cash, n), ht, Caps(a, n), ZeroMatrix(n), SalesCash(h[0], y), n);
    (Segments(step2.0, y, ht), step2.1)
  }

  /** The segments and the cash after steps 1 and 2, from their parts. */
  lemma AfterStep2Of(h: seq<real>, slopes: seq<seq<real>>, cash: real, a: seq<seq<real>>, n: nat,
                     ht: seq<seq<real>>, y: seq<seq<real>>, c: real, x: seq<seq<real>>, left: real)
    requires |h| == n + 1 && IsMatrix(slopes, M, n) && IsMatrix(a, M, n)
    requires ht == HTilde(a, h[1..]) && y == Sold(SellSlopes(slopes, cash, n), ht, n)
    requires c == h[0] + 0.998 * Total(y)
    requires (x, left) == Step2(BuySlopes(slopes, cash, n), ht, Caps(a, n), ZeroMatrix(n), c, n)
    ensures (Segments(x, y, ht), left) == AfterStep2(h, slopes, cash, a, n)
  {
    assert SalesCash(h[0], y) == c;
  }

  /** step(h, V) for n assets, with at most `passes` sell-to-buy passes. */
  function StepSpec(h: seq<real>, slopes: seq<seq<real>>, cash: real, a: seq<seq<real>>, n: nat, passes: nat): (d: Decision)
    requires |h| == n + 1 && IsMatrix(slopes, M, n) && IsMatrix(a, M, n)
    ensures |d.x| == |d.y| == n
  {
    var after := AfterStep2(h, slopes, cash, a, n);
    var st := Step3(BuySlopes(slopes, cash, n), SellSlopes(slopes, cash, n), Caps(a, n), after.0, n, passes);
    Decision(after.1, ColumnSums(st.x, n), ColumnSums(st.y, n))
  }

  /** The decision of step, from the state after step 2 and the result of step 3. */
  lemma StepSpecOf(h: seq<real>, slopes: seq<seq<real>>, cash: real, a: seq<seq<real>>, passes: nat, n: nat,
                   st0: Segments, left: real, st: Segments)
    requires |h| == n + 1 && IsMatrix(slopes, M, n) && IsMatrix(a, M, n)
    requires (st0, left) == AfterStep2(h, slopes, cash, a, n)
    requires st == Step3(BuySlopes(slopes, cash, n), SellSlopes(slopes, cash, n), Caps(a, n), st0, n, passes)
    ensures StepSpec(h, slopes, cash, a, n, passes) == Decision(left, ColumnSums(st.x, n), ColumnSums(st.y, n))
  {
  }

  /** The step-2 loop as written, on the caller's cash h[0]. */
  method BuySteps(h: array<real>, k: seq<seq<real>>, ht: seq<seq<real>>, w: seq<seq<Cap>>, n: nat) returns (x: seq<seq<real>>)
    requires h.Length >= 1 && IsMatrix(k, M, n) && IsMatrix(ht, M, n) && IsMatrix(w, M, n)
    modifies h
    ensures h[1..] == old(h[1..])
    ensures (x, h[0]) == Step2(k, ht, w, ZeroMatrix(n), old(h[0]), n)
  {
    x := ZeroMatrix(n);
    ghost var target := Step2(k, ht, w, x, h[0], n);
    var done := false;
    while !done
      invariant h[1..] == old(h[1..])
      invariant IsMatrix(x, M, n)
      invariant !done ==> Step2(k, ht, w, x, h[0], n) == target
      invariant done ==> (x, h[0]) == target
      decreases if done then 0 else 1 + Budget(k, ht, w, n, h[0])
    {
      var jStarIdx := Candidates(k, ht, w, n);
      var best := FirstBest(k, jStarIdx, n);
      if best.Some? {
        var j, i := best.value.j, best.value.i;
        if w[j][i].Finite? && w[j][i].gap - ht[j][i] < h[0] / 1.002 {
          ghost var c, x0 := h[0], x;
          var d := w[j][i].gap - ht[j][i];
          x := Assign(x, j, i, d);
          h[0] := Spend(h[0], d);
          FloorStep(c, 1.002 * d);
          AssignTwice(x0, j, i, d, FillLoop(h[0], d) / 1.002);
        } else {
          x := Assign(x, j, i, h[0] / 1.002);
          h[0] := 0.0;
          done := true;
        }
      } else {
        done := true;
      }
    }
  }

  lemma AssignTwice(A: seq<seq<real>>, j: nat, i: nat, u: real, v: real)
    requires j < |A| && i < |A[j]|
    ensures Assign(Assign(A, j, i, u), j, i, v) == Assign(A, j, i, v)
  {
    assert Assign(A, j, i, u)[j][i := v] == A[j][i := v];
  }

  /** The loop's remaining passes. */
  function Budget(k: seq<seq<real>>, ht: seq<seq<real>>, w: seq<seq<Cap>>, n: nat, c: real): nat
    requires IsMatrix(k, M, n) && IsMatrix(ht, M, n) && IsMatrix(w, M, n)
  {
    match BestBuy(k, ht, w, n)
    case None => 0
    case Some(p) =>
      if w[p.j][p.i].Finite? && w[p.j][p.i].gap - ht[p.j][p.i] > 0.0 then Passes(c, w[p.j][p.i].gap - ht[p.j][p.i]) else 0
  }

  /** One pass of the step-3 loop: stop when there is no best buy or no segment to sell. */
  method SellToBuyPass(k: seq<seq<real>>, l: seq<seq<real>>, w: seq<seq<Cap>>, r: Segments, n: nat, left: nat)
    returns (next: Segments, stop: bool, rest: nat)
    requires IsMatrix(k, M, n) && IsMatrix(l, M, n) && IsMatrix(w, M, n) && Shaped(r, n) && left > 0
    ensures Shaped(next, n) && rest < left
    ensures stop ==> next == r && Step3(k, l, w, r, n, left) == r
    ensures !stop ==> Step3(k, l, w, r, n, left) == Step3(k, l, w, next, n, rest)
  {
    rest := left - 1;
    var jStarIdx := Candidates(k, r.ht, w, n);
    var jBest := FirstBest(k, jStarIdx, n);
    next, stop := r, true;
    if jBest.Some? {
      var iStarIdx := Offered(l, r.ht, n);
      var iBest := FirstBest(l, iStarIdx, n);
      if iBest.Some? {
        // sell segment iBest to buy segment jBest
        next, stop := Pass(w, r, n, jBest.value, iBest.value), false;
        Step3Passes(k, l, w, r, n, rest, jBest.value, iBest.value);
      } else {
        Step3Stops(k, l, w, r, n, left);
      }
    } else {
      Step3Stops(k, l, w, r, n, left);
    }
  }

  /** The step-3 loop, stopped after at most `passes` passes. */
  method SellToBuySteps(k: seq<seq<real>>, l: seq<seq<real>>, w: seq<seq<Cap>>, st: Segments, n: nat, passes: nat)
    returns (r: Segments)
    requires IsMatrix(k, M, n) && IsMatrix(l, M, n) && IsMatrix(w, M, n) && Shaped(st, n)
    ensures r == Step3(k, l, w, st, n, passes)
  {
    ghost var target := Step3(k, l, w, st, n, passes);
    r := st;
    var left: nat := passes;
    while left > 0
      invariant Shaped(r, n)
      invariant Step3(k, l, w, r, n, left) == target
    {
      var next, stop, rest := SellToBuyPass(k, l, w, r, n, left);
      if stop {
        break;
      }
      r, left := next, rest;
    }
  }

  /**
   * step(h, V): sells, buys and sells to buy at the level of segments,
   * updating the caller's cash h[0] in place, and returns the per-asset
   * purchases and sales. The sell-to-buy loop runs for at most `passes` passes.
   */
  method Step(h: array<real>, V: PWLinearValueFunction, passes: nat) returns (x: seq<real>, y: seq<real>)
    requires V.Valid() && h.Length == V.n + 1
    modifies h
    ensures h[1..] == old(h[1..])
    ensures StepSpec(old(h[..]), V.slopes, V.cash, V.a, V.n, passes) == Decision(h[0], x, y)
  {
    ghost var pre, slopes, vcash, a := h[..], V.slopes, V.cash, V.a;
    var n := V.n;
    var pi := Pi(V.a, h[1..]);

    // Capacities and approximate pre-decision fills
    var wTidle := Caps(V.a, n);
    var hTidle := HTilde(V.a, h[1..]);

    var k := BuySlopes(V.slopes, V.cash, n);
    var l := SellSlopes(V.slopes, V.cash, n);

    // Step 1: selling the sell segments
    var ys := Sold(l, hTidle, n);
    h[0] := h[0] + 0.998 * Total(ys);
    assert h[1..] == pre[1..];

    // Step 2: buying the best segment
    ghost var cash := h[0];
    var xs := BuySteps(h, k, hTidle, wTidle, n);
    ghost var left := h[0];
    AfterStep2Of(pre, slopes, vcash, a, n, hTidle, ys, cash, xs, left);

    // Step 3: selling to buy
    var st := SellToBuySteps(k, l, wTidle, Segments(xs, ys, hTidle), n, passes);
    x, y := ColumnSums(st.x, n), ColumnSums(st.y, n);
    StepSpecOf(pre, slopes, vcash, a, passes, n, Segments(xs, ys, hTidle), left, st);
  }

  /** PWLADPInspectionModel: the segment index pi recorded by solve. */
  class PwlInspectionModel {
    var pi: Option<seq<int>>

    constructor ()
      ensures pi == None
    {
      pi := None;
    }

    /** solve(R, h_plus, V): records pi, the segment of every asset of h_plus. */
    method Solve(hPlus: seq<real>, V: PWLinearValueFunction)
      requires V.Valid() && |hPlus| == V.n + 1
      modifies this
      ensures pi == Some(Pi(V.a, hPlus[1..]))
    {
      pi := Some(Pi(V.a, hPlus[1..]));
    }
  }
}
