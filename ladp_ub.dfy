/**
 * LADPUB of adp/ladp_ub/inspection.py: inspection with a cap w0 on every
 * asset holding. Assets with a positive selling slope are sold in full,
 * assets above the cap are cut back to it, and the cash is then spent on
 * the best buys below the cap, one after the other, each filled up to the
 * cap until the cash runs short.
 *
 * The source imports w0 from a parameters module that does not define it;
 * here the cap is a parameter.
 */
module LadpUb {
  import opened Options
  import opened Vectors
  import Transition
  import Inspection

  /** Which holding the buy loop compares with the cap. */
  datatype FillTest =
    | AsWritten   // h[j*]: the entry before the asset (the cash when j* = 0)
    | Corrected   // h[j* + 1]: the asset itself

  /** Sales: sell set I in full, forced-sell set F down to the cap. */
  function CapSales(h: seq<real>, l: seq<real>, w0: real): (y: seq<real>)
    requires |h| == |l| + 1
    ensures |y| == |l|
  {
    seq(|l|, i requires 0 <= i < |l| =>
      if l[i] > 0.0 && h[i + 1] > 0.0 then h[i + 1]
      else if l[i] <= 0.0 && h[i + 1] > w0 then h[i + 1] - w0
      else 0.0)
  }

  /** Asset i is a buy candidate: positive buying slope and a holding under the cap. */
  predicate Candidate(k: seq<real>, h: seq<real>, w0: real, i: nat)
    requires i < |k| && |h| == |k| + 1
  {
    k[i] > 0.0 && h[i + 1] < w0
  }

  /** The number of candidates among the first m assets. */
  function CountBelow(k: seq<real>, h: seq<real>, w0: real, m: nat): (c: nat)
    requires m <= |k| && |h| == |k| + 1
    ensures c <= m
  {
    if m == 0 then 0
    else CountBelow(k, h, w0, m - 1) + if Candidate(k, h, w0, m - 1) then 1 else 0
  }

  function CandidateCount(k: seq<real>, h: seq<real>, w0: real): nat
    requires |h| == |k| + 1
  {
    CountBelow(k, h, w0, |k|)
  }

  /** The best candidate among the first m assets: the first one of largest buying slope. */
  function BestBelow(k: seq<real>, h: seq<real>, w0: real, m: nat): (b: Option<nat>)
    requires m <= |k| && |h| == |k| + 1
    ensures b.Some? ==> b.value < m && Candidate(k, h, w0, b.value)
  {
    if m == 0 then None
    else
      var b := BestBelow(k, h, w0, m - 1);
      if Candidate(k, h, w0, m - 1) && (b.None? || k[m - 1] > k[b.value]) then Some(m - 1) else b
  }

  /**
   * There is a best candidate below m exactly when some asset below m is a
   * candidate, and it is the first candidate of largest buying slope.
   */
  lemma {:induction false} BestBelowIsBest(k: seq<real>, h: seq<real>, w0: real, m: nat)
    requires m <= |k| && |h| == |k| + 1
    ensures var b := BestBelow(k, h, w0, m);
      (b.None? <==> forall i :: 0 <= i < m ==> !Candidate(k, h, w0, i)) &&
      (b.Some? ==> forall i :: 0 <= i < m && Candidate(k, h, w0, i) ==> k[i] <= k[b.value]) &&
      (b.Some? ==> forall i :: 0 <= i < b.value && Candidate(k, h, w0, i) ==> k[i] < k[b.value])
  {
    if m > 0 {
      BestBelowIsBest(k, h, w0, m - 1);
    }
  }

  /** j* = indexer[idx][argmax(k[idx])]. */
  function BestCandidate(k: seq<real>, h: seq<real>, w0: real): Option<nat>
    requires |h| == |k| + 1
  {
    BestBelow(k, h, w0, |k|)
  }

  /** Filling a candidate up to the cap removes exactly that candidate. */
  lemma {:induction false} CountAfterFill(k: seq<real>, h: seq<real>, h': seq<real>, w0: real, j: nat, m: nat)
    requires |h| == |h'| == |k| + 1 && j < |k| && m <= |k|
    requires Candidate(k, h, w0, j) && !Candidate(k, h', w0, j)
    requires forall i :: 1 <= i < |h| && i != j + 1 ==> h'[i] == h[i]
    ensures CountBelow(k, h', w0, m) + (if j < m then 1 else 0) == CountBelow(k, h, w0, m)
  {
    if m > 0 {
      CountAfterFill(k, h, h', w0, j, m - 1);
    }
  }

  /** Whether the cash suffices to fill j* up to the cap. */
  predicate Fits(test: FillTest, h: seq<real>, w0: real, j: nat)
    requires j + 1 < |h|
  {
    var held := if test == AsWritten then h[j] else h[j + 1];
    w0 - held < h[0] / 1.005
  }

  /** The state and purchases at the end of the buy loop. */
  datatype Outcome = Outcome(h: seq<real>, x: seq<real>)

  /** The buy loop of step 2, from the best candidate j. */
  function BuyLoop(test: FillTest, k: seq<real>, h: seq<real>, x: seq<real>, w0: real, j: nat): (r: Outcome)
    requires |h| == |k| + 1 && |x| == |k| && j < |k| && Candidate(k, h, w0, j)
    ensures |r.h| == |h| && |r.x| == |x|
    decreases CandidateCount(k, h, w0)
  {
    if Fits(test, h, w0, j) then
      var bought := w0 - h[j + 1];
      var h' := h[0 := h[0] - 1.005 * bought][j + 1 := w0];
      var x' := x[j := bought];
      CountAfterFill(k, h, h', w0, j, |k|);
      match BestCandidate(k, h', w0)
      case None => Outcome(h', x')
      case Some(j') => BuyLoop(test, k, h', x', w0, j')
    else
      var bought := h[0] / 1.005;
      Outcome(h[j + 1 := h[j + 1] + bought][0 := 0.0], x[j := bought])
  }

  /** A fill continues the loop from the next best candidate, or ends it when there is none. */
  lemma BuyLoopFills(test: FillTest, k: seq<real>, h: seq<real>, x: seq<real>, w0: real, j: nat, h': seq<real>, x': seq<real>)
    requires |h| == |k| + 1 && |x| == |k| && j < |k| && Candidate(k, h, w0, j) && Fits(test, h, w0, j)
    requires h' == h[0 := h[0] - 1.005 * (w0 - h[j + 1])][j + 1 := w0] && x' == x[j := w0 - h[j + 1]]
    ensures CandidateCount(k, h', w0) < CandidateCount(k, h, w0)
    ensures BestCandidate(k, h', w0).None? ==> BuyLoop(test, k, h, x, w0, j) == Outcome(h', x')
    ensures BestCandidate(k, h', w0).Some? ==>
      BuyLoop(test, k, h, x, w0, j) == BuyLoop(test, k, h', x', w0, BestCandidate(k, h', w0).value)
  {
    CountAfterFill(k, h, h', w0, j, |k|);
  }

  /** A purchase with all the cash ends the loop. */
  lemma BuyLoopSpends(test: FillTest, k: seq<real>, h: seq<real>, x: seq<real>, w0: real, j: nat)
    requires |h| == |k| + 1 && |x| == |k| && j < |k| && Candidate(k, h, w0, j) && !Fits(test, h, w0, j)
    ensures BuyLoop(test, k, h, x, w0, j) == Outcome(h[j + 1 := h[j + 1] + h[0] / 1.005][0 := 0.0], x[j := h[0] / 1.005])
  {
  }

  /** The state after both sell steps and the cash update. */
  function AfterSales(h: seq<real>, u: seq<real>, w0: real): (r: seq<real>)
    requires |h| == |u| >= 1
    ensures |r| == |h|
  {
    Transition.Ft(h, Zeros(|h| - 1), CapSales(h, Inspection.SellSlopes(u), w0))
  }

  /** The whole rule, from the pre-decision state h: the final state and the trades. */
  function CapDecision(test: FillTest, h: seq<real>, u: seq<real>, w0: real): (r: (Outcome, seq<real>))
    requires |h| == |u| >= 1
    ensures |r.0.h| == |h| && |r.0.x| == |h| - 1 && |r.1| == |h| - 1
  {
    var k := Inspection.BuySlopes(u);
    var y := CapSales(h, Inspection.SellSlopes(u), w0);
    var h1 := AfterSales(h, u, w0);
    match BestCandidate(k, h1, w0)
    case None => (Outcome(h1, Zeros(|h| - 1)), y)
    case Some(j) => (BuyLoop(test, k, h1, Zeros(|h| - 1), w0, j), y)
  }

  /**
   * Step 1: sells the sell set I in full and cuts the forced-sell set F back
   * to the cap, writing the sales into ys and the holdings into h.
   */
  method SellSteps(h: array<real>, l: seq<real>, w0: real, ys: array<real>)
    requires h.Length == |l| + 1 && ys.Length == |l| && h != ys
    requires forall m :: 0 <= m < ys.Length ==> ys[m] == 0.0
    modifies h, ys
    ensures ys[..] == CapSales(old(h[..]), l, w0)
    ensures h[0] == old(h[0])
    ensures forall i :: 0 <= i < ys.Length ==> h[i + 1] == old(h[i + 1]) - ys[i]
  {
    ghost var pre := h[..];
    // Selling the sell set I
    for i := 0 to ys.Length
      invariant h.Length == ys.Length + 1
      invariant h[0] == pre[0]
      invariant forall m :: 0 <= m < i ==>
        (ys[m] == if l[m] > 0.0 && pre[m + 1] > 0.0 then pre[m + 1] else 0.0) && h[m + 1] == pre[m + 1] - ys[m]
      invariant forall m :: i <= m < ys.Length ==> ys[m] == 0.0
      invariant forall m :: i + 1 <= m < h.Length ==> h[m] == pre[m]
    {
      assert ys[i] == 0.0 && h[i + 1] == pre[i + 1];
      if l[i] > 0.0 && h[i + 1] > 0.0 {
        ys[i] := h[i + 1];
        h[i + 1] := 0.0;
      }
    }
    // Selling the forced-sell set F
    for i := 0 to ys.Length
      invariant h[0] == pre[0]
      invariant forall m :: 0 <= m < i ==> ys[m] == CapSales(pre, l, w0)[m] && h[m + 1] == pre[m + 1] - ys[m]
      invariant forall m :: i <= m < ys.Length ==>
        (ys[m] == if l[m] > 0.0 && pre[m + 1] > 0.0 then pre[m + 1] else 0.0) && h[m + 1] == pre[m + 1] - ys[m]
    {
      assert CapSales(pre, l, w0)[i] ==
        if l[i] > 0.0 && pre[i + 1] > 0.0 then pre[i + 1]
        else if l[i] <= 0.0 && pre[i + 1] > w0 then pre[i + 1] - w0
        else 0.0;
      if l[i] <= 0.0 && h[i + 1] > w0 {
        ys[i] := h[i + 1] - w0;
        h[i + 1] := w0;
      }
    }
  }

  /** Step 2: the buy loop from the best candidate j, as written. */
  method BuySteps(h: array<real>, xs: array<real>, k: seq<real>, w0: real, j: nat)
    requires h.Length == |k| + 1 && xs.Length == |k| && h != xs && j < |k| && Candidate(k, h[..], w0, j)
    modifies h, xs
    ensures Outcome(h[..], xs[..]) == BuyLoop(AsWritten, k, old(h[..]), old(xs[..]), w0, j)
  {
    ghost var final := BuyLoop(AsWritten, k, h[..], xs[..], w0, j);
    var jStar: nat := j;
    var done := false;
    while !done
      invariant !done ==> jStar < |k| && Candidate(k, h[..], w0, jStar)
      invariant !done ==> BuyLoop(AsWritten, k, h[..], xs[..], w0, jStar) == final
      invariant done ==> Outcome(h[..], xs[..]) == final
      decreases if done then 0 else 1 + CandidateCount(k, h[..], w0)
    {
      ghost var h0, x0 := h[..], xs[..];
      if w0 - h[jStar] < h[0] / 1.005 {
        Fill(h, xs, w0, jStar);
        BuyLoopFills(AsWritten, k, h0, x0, w0, jStar, h[..], xs[..]);
        var next := BestCandidate(k, h[..], w0);
        if next.Some? {
          jStar := next.value;
        } else {
          done := true;
        }
      } else {
        Spend(h, xs, jStar);
        BuyLoopSpends(AsWritten, k, h0, x0, w0, jStar);
        done := true;
      }
    }
  }

  /** Buys asset j up to the cap w0, paying (1 + θ) per unit. */
  method Fill(h: array<real>, xs: array<real>, w0: real, j: nat)
    requires h.Length == xs.Length + 1 && h != xs && j < xs.Length
    modifies h, xs
    ensures h[..] == old(h[..])[0 := old(h[0]) - 1.005 * (w0 - old(h[j + 1]))][j + 1 := w0]
    ensures xs[..] == old(xs[..])[j := w0 - old(h[j + 1])]
  {
    xs[j] := w0 - h[j + 1];
    h[0] := h[0] - 1.005 * xs[j];
    h[j + 1] := w0;
  }

  /** Buys asset j with all the cash. */
  method Spend(h: array<real>, xs: array<real>, j: nat)
    requires h.Length == xs.Length + 1 && h != xs && j < xs.Length
    modifies h, xs
    ensures h[..] == old(h[..])[j + 1 := old(h[j + 1]) + old(h[0]) / 1.005][0 := 0.0]
    ensures xs[..] == old(xs[..])[j := old(h[0]) / 1.005]
  {
    xs[j] := h[0] / 1.005;
    h[j + 1] := h[j + 1] + h[0] / 1.005;
    h[0] := 0.0;
  }

  /** LADPUB(obj, R, h_plus, u) with the cap w0; the unused first argument is not modelled. */
  method LADPUB(R: seq<real>, hPlus: seq<real>, u: seq<real>, w0: real) returns (x: seq<real>, y: seq<real>)
    requires |hPlus| == |u| == |R| >= 1
    ensures x == CapDecision(AsWritten, Mul(hPlus, R), u, w0).0.x
    ensures y == CapDecision(AsWritten, Mul(hPlus, R), u, w0).1
  {
    // Computing pre-decision variables
    var h := new real[|hPlus|](i requires 0 <= i < |hPlus| => hPlus[i] * R[i]);
    ghost var pre := Mul(hPlus, R);
    assert h[..] == pre;
    var n := |hPlus| - 1;
    var xs := new real[n](_ => 0.0);
    var ys := new real[n](_ => 0.0);

    var k := Inspection.BuySlopes(u);
    var l := Inspection.SellSlopes(u);

    // Step 1: sell set, forced-sell set, then the cash
    SellSteps(h, l, w0, ys);
    h[0] := h[0] + 0.995 * Sum(ys[..]);
    SoldState(pre, ys[..], h[..]);
    assert h[..] == AfterSales(pre, u, w0);
    ghost var decision := CapDecision(AsWritten, pre, u, w0);
    assert xs[..] == Zeros(n);

    // Step 2: buying the best candidates with the cash
    var best := BestCandidate(k, h[..], w0);
    if best.Some? {
      BuySteps(h, xs, k, w0, best.value);
    }
    x, y := xs[..], ys[..];
  }

  /** Sales are non-negative, and non-zero exactly on the sell set I and the forced-sell set F. */
  lemma CapSalesSets(h: seq<real>, l: seq<real>, w0: real, i: nat)
    requires |h| == |l| + 1 && i < |l|
    ensures CapSales(h, l, w0)[i] >= 0.0
    ensures CapSales(h, l, w0)[i] != 0.0 <==> (l[i] > 0.0 && h[i + 1] > 0.0) || (l[i] <= 0.0 && h[i + 1] > w0)
  {
  }

  /**
   * After both sell steps an asset of the sell set holds nothing, an asset
   * with l ≤ 0 holds at most the cap (exactly the cap if it held more), and
   * the cash has grown by (1 − θ)Σy.
   */
  lemma AfterSalesHoldings(h: seq<real>, u: seq<real>, w0: real, i: nat)
    requires |h| == |u| >= 1 && i < |h| - 1
    ensures var l := Inspection.SellSlopes(u);
      (l[i] > 0.0 && h[i + 1] > 0.0 ==> AfterSales(h, u, w0)[i + 1] == 0.0) &&
      (l[i] <= 0.0 ==> AfterSales(h, u, w0)[i + 1] == if h[i + 1] > w0 then w0 else h[i + 1])
  {
  }

  /** The cash after both sell steps is credited (1 − θ)Σy once. */
  lemma AfterSalesCash(h: seq<real>, u: seq<real>, w0: real)
    requires |h| == |u| >= 1
    ensures AfterSales(h, u, w0)[0] == h[0] + 0.995 * Sum(CapSales(h, Inspection.SellSlopes(u), w0))
  {
    SumOfZeros(|h| - 1);
  }

  /** Selling y and crediting (1 − θ)Σy to the cash is the transition with no purchase. */
  lemma SoldState(pre: seq<real>, y: seq<real>, h: seq<real>)
    requires |pre| == |h| == |y| + 1
    requires h[0] == pre[0] + 0.995 * Sum(y)
    requires forall i :: 0 <= i < |y| ==> h[i + 1] == pre[i + 1] - y[i]
    ensures h == Transition.Ft(pre, Zeros(|y|), y)
  {
    var f := Transition.Ft(pre, Zeros(|y|), y);
    SumOfZeros(|y|);
    assert f[0] == pre[0] - 1.005 * 0.0 + 0.995 * Sum(y);
    forall i | 0 <= i < |h|
      ensures f[i] == h[i]
    {
      if i > 0 {
        assert f[i] == pre[i] + 0.0 - y[i - 1];
      }
    }
  }

  /** One fill of asset j up to the cap, as a trade. */
  lemma FillIsTrade(pre: seq<real>, y: seq<real>, h: seq<real>, x: seq<real>, w0: real, j: nat)
    requires |h| == |pre| == |x| + 1 && |x| == |y| && j < |x|
    requires h == Transition.Ft(pre, x, y) && x[j] == 0.0
    ensures h[0 := h[0] - 1.005 * (w0 - h[j + 1])][j + 1 := w0] == Transition.Ft(pre, x[j := w0 - h[j + 1]], y)
  {
    var b := w0 - h[j + 1];
    Transition.FtBuyMore(pre, x, y, j, b);
    assert x[j := x[j] + b] == x[j := b];
  }

  /** The last purchase of the loop, with all the cash, as a trade. */
  lemma SpendIsTrade(pre: seq<real>, y: seq<real>, h: seq<real>, x: seq<real>, j: nat)
    requires |h| == |pre| == |x| + 1 && |x| == |y| && j < |x|
    requires h == Transition.Ft(pre, x, y) && x[j] == 0.0
    ensures h[j + 1 := h[j + 1] + h[0] / 1.005][0 := 0.0] == Transition.Ft(pre, x[j := h[0] / 1.005], y)
  {
    var b := h[0] / 1.005;
    Transition.FtBuyMore(pre, x, y, j, b);
    assert x[j := x[j] + b] == x[j := b];
    assert h[0] - 1.005 * b == 0.0;
  }

  /** Every state of the buy loop is the transition of the pre-decision state by the trades so far. */
  lemma {:induction false} BuyLoopIsTransition(test: FillTest, k: seq<real>, pre: seq<real>, y: seq<real>,
                                               h: seq<real>, x: seq<real>, w0: real, j: nat)
    requires |h| == |pre| == |k| + 1 && |x| == |y| == |k| && j < |k| && Candidate(k, h, w0, j)
    requires h == Transition.Ft(pre, x, y)
    requires forall i :: 0 <= i < |k| && x[i] != 0.0 ==> !Candidate(k, h, w0, i)
    ensures BuyLoop(test, k, h, x, w0, j).h == Transition.Ft(pre, BuyLoop(test, k, h, x, w0, j).x, y)
    decreases CandidateCount(k, h, w0)
  {
    if Fits(test, h, w0, j) {
      var h' := h[0 := h[0] - 1.005 * (w0 - h[j + 1])][j + 1 := w0];
      var x' := x[j := w0 - h[j + 1]];
      FillIsTrade(pre, y, h, x, w0, j);
      BuyLoopFills(test, k, h, x, w0, j, h', x');
      FillKeepsBought(k, h, x, w0, j, h', x');
      var next := BestCandidate(k, h', w0);
      if next.Some? {
        BuyLoopIsTransition(test, k, pre, y, h', x', w0, next.value);
      }
    } else {
      BuyLoopSpends(test, k, h, x, w0, j);
      SpendIsTrade(pre, y, h, x, j);
    }
  }

  /** An asset already bought is no longer a candidate, and a filled one neither. */
  lemma FillKeepsBought(k: seq<real>, h: seq<real>, x: seq<real>, w0: real, j: nat, h': seq<real>, x': seq<real>)
    requires |h| == |k| + 1 && |x| == |k| && j < |k|
    requires forall i :: 0 <= i < |k| && x[i] != 0.0 ==> !Candidate(k, h, w0, i)
    requires h' == h[0 := h[0] - 1.005 * (w0 - h[j + 1])][j + 1 := w0] && x' == x[j := w0 - h[j + 1]]
    ensures forall i :: 0 <= i < |k| && x'[i] != 0.0 ==> !Candidate(k, h', w0, i)
  {
    forall i | 0 <= i < |k| && x'[i] != 0.0
      ensures !Candidate(k, h', w0, i)
    {
      if i != j {
        assert h'[i + 1] == h[i + 1];
      }
    }
  }

  /** The final state of the rule is the transition of h by the decision: Σ is lost only to costs. */
  lemma CapDecisionIsTransition(test: FillTest, h: seq<real>, u: seq<real>, w0: real)
    requires |h| == |u| >= 1
    ensures CapDecision(test, h, u, w0).0.h == Transition.Ft(h, CapDecision(test, h, u, w0).0.x, CapDecision(test, h, u, w0).1)
  {
    var k := Inspection.BuySlopes(u);
    var y := CapSales(h, Inspection.SellSlopes(u), w0);
    var h1 := AfterSales(h, u, w0);
    match BestCandidate(k, h1, w0)
    case None =>
    case Some(j) =>
      BuyLoopIsTransition(test, k, h, y, h1, Zeros(|h| - 1), w0, j);
  }

  /** Only assets with a positive buying slope are bought. */
  lemma {:induction false} BuyLoopBuysCandidates(test: FillTest, k: seq<real>, h: seq<real>, x: seq<real>, w0: real, j: nat)
    requires |h| == |k| + 1 && |x| == |k| && j < |k| && Candidate(k, h, w0, j)
    requires forall i :: 0 <= i < |k| && x[i] != 0.0 ==> k[i] > 0.0
    ensures forall i :: 0 <= i < |k| && BuyLoop(test, k, h, x, w0, j).x[i] != 0.0 ==> k[i] > 0.0
    decreases CandidateCount(k, h, w0)
  {
    if Fits(test, h, w0, j) {
      var h' := h[0 := h[0] - 1.005 * (w0 - h[j + 1])][j + 1 := w0];
      var x' := x[j := w0 - h[j + 1]];
      CountAfterFill(k, h, h', w0, j, |k|);
      match BestCandidate(k, h', w0)
      case None =>
      case Some(j') =>
        BuyLoopBuysCandidates(test, k, h', x', w0, j');
    }
  }

  /** The loop stops only when the cash is spent or no candidate is left. */
  lemma {:induction false} BuyLoopStops(test: FillTest, k: seq<real>, h: seq<real>, x: seq<real>, w0: real, j: nat)
    requires |h| == |k| + 1 && |x| == |k| && j < |k| && Candidate(k, h, w0, j)
    ensures var r := BuyLoop(test, k, h, x, w0, j);
      r.h[0] == 0.0 || BestCandidate(k, r.h, w0).None?
    decreases CandidateCount(k, h, w0)
  {
    if Fits(test, h, w0, j) {
      var h' := h[0 := h[0] - 1.005 * (w0 - h[j + 1])][j + 1 := w0];
      var x' := x[j := w0 - h[j + 1]];
      CountAfterFill(k, h, h', w0, j, |k|);
      match BestCandidate(k, h', w0)
      case None =>
      case Some(j') =>
        BuyLoopStops(test, k, h', x', w0, j');
    }
  }

  /** Holdings within the cap and non-negative cash. */
  predicate WithinCap(h: seq<real>, w0: real)
  {
    |h| >= 1 && h[0] >= 0.0 && forall i :: 1 <= i < |h| ==> h[i] <= w0
  }

  /** With the corrected test the buy loop keeps the cash non-negative and every holding within the cap. */
  lemma {:induction false} CorrectedBuyLoopWithinCap(k: seq<real>, h: seq<real>, x: seq<real>, w0: real, j: nat)
    requires |h| == |k| + 1 && |x| == |k| && j < |k| && Candidate(k, h, w0, j)
    requires WithinCap(h, w0)
    ensures WithinCap(BuyLoop(Corrected, k, h, x, w0, j).h, w0)
    decreases CandidateCount(k, h, w0)
  {
    if Fits(Corrected, h, w0, j) {
      var b := w0 - h[j + 1];
      var h' := h[0 := h[0] - 1.005 * b][j + 1 := w0];
      var x' := x[j := b];
      assert b < h[0] / 1.005;
      assert 1.005 * b < h[0];
      CountAfterFill(k, h, h', w0, j, |k|);
      match BestCandidate(k, h', w0)
      case None =>
      case Some(j') =>
        CorrectedBuyLoopWithinCap(k, h', x', w0, j');
    } else {
      assert h[j + 1] + h[0] / 1.005 <= w0;
    }
  }

  /**
   * With the corrected fill test, a non-negative cash and cap give a final
   * state with non-negative cash and every holding within the cap.
   */
  lemma CorrectedDecisionWithinCap(h: seq<real>, u: seq<real>, w0: real)
    requires |h| == |u| >= 1 && h[0] >= 0.0 && w0 >= 0.0
    ensures WithinCap(CapDecision(Corrected, h, u, w0).0.h, w0)
  {
    var k := Inspection.BuySlopes(u);
    var l := Inspection.SellSlopes(u);
    var y := CapSales(h, l, w0);
    var h1 := AfterSales(h, u, w0);
    forall i | 0 <= i < |h| - 1
      ensures y[i] >= 0.0 && h1[i + 1] <= w0
    {
      CapSalesSets(h, l, w0, i);
      AfterSalesHoldings(h, u, w0, i);
    }
    SumNonNegative(y);
    AfterSalesCash(h, u, w0);
    assert WithinCap(h1, w0);
    match BestCandidate(k, h1, w0)
    case None =>
    case Some(j) =>
      CorrectedBuyLoopWithinCap(k, h1, Zeros(|h| - 1), w0, j);
  }

  /**
   * The fill test as written compares the cap with the cash instead of the
   * asset when j* = 0: with one asset, a cap of 50000, 40000 in cash and no
   * holding, it fills the asset up to the cap and leaves the cash at −10250,
   * where the corrected test spends exactly the 40000 available.
   */
  lemma AsWrittenOverspends()
    ensures CapDecision(AsWritten, [40000.0, 0.0], [1.0, 2.0], 50000.0).0.x == [50000.0]
    ensures CapDecision(AsWritten, [40000.0, 0.0], [1.0, 2.0], 50000.0).0.h[0] == -10250.0
    ensures CapDecision(Corrected, [40000.0, 0.0], [1.0, 2.0], 50000.0).0.x == [40000.0 / 1.005]
    ensures CapDecision(Corrected, [40000.0, 0.0], [1.0, 2.0], 50000.0).0.h[0] == 0.0
  {
    var h, u, w0 := [40000.0, 0.0], [1.0, 2.0], 50000.0;
    var k := Inspection.BuySlopes(u);
    assert k == [0.995];
    assert Inspection.SellSlopes(u) == [-1.005];
    assert CapSales(h, Inspection.SellSlopes(u), w0) == [0.0];
    SumOfZeros(1);
    assert AfterSales(h, u, w0) == h;
    assert BestBelow(k, h, w0, 0) == None;
    assert BestCandidate(k, h, w0) == Some(0);
    var h' := [-10250.0, 50000.0];
    assert BestBelow(k, h', w0, 0) == None;
    assert BestCandidate(k, h', w0) == None;
    assert BuyLoop(AsWritten, k, h, [0.0], w0, 0) == Outcome(h', [50000.0]);
    assert BuyLoop(Corrected, k, h, [0.0], w0, 0) == Outcome([0.0, 40000.0 / 1.005], [40000.0 / 1.005]);
  }
}
