/**
 * The scenario risk measures of Portfolio in entities/portfolio.py. A
 * portfolio is its vector of weights w; scenarios holds one row of asset
 * returns per scenario and probas the scenario probabilities. The return
 * of the portfolio in scenario s is Y[s] = scenarios[s]·w, and the mean
 * is mu = (probas·scenarios)·w, computed in that order as numpy does.
 */
module Portfolio {
  import opened Vectors

  /** scenarios.dot(w): the portfolio's return in every scenario. */
  function Returns(scenarios: seq<seq<real>>, w: seq<real>): (Y: seq<real>)
    requires Rows(scenarios, |w|)
    ensures |Y| == |scenarios| && forall s :: 0 <= s < |Y| ==> Y[s] == Dot(scenarios[s], w)
  {
    seq(|scenarios|, s requires 0 <= s < |scenarios| => Dot(scenarios[s], w))
  }

  /** probas.dot(scenarios): the probability-weighted sum of the scenario rows. */
  function Weighted(probas: seq<real>, scenarios: seq<seq<real>>, n: nat): (r: seq<real>)
    requires |probas| == |scenarios| && Rows(scenarios, n)
    ensures |r| == n
  {
    if |scenarios| == 0 then Zeros(n)
    else Add(Scale(probas[0], scenarios[0]), Weighted(probas[1..], scenarios[1..], n))
  }

  /** mu = probas.dot(scenarios).dot(w). */
  function Mean(w: seq<real>, scenarios: seq<seq<real>>, probas: seq<real>): real
    requires |probas| == |scenarios| && Rows(scenarios, |w|)
  {
    Dot(Weighted(probas, scenarios, |w|), w)
  }

  /** |Y − mu|, entry by entry. */
  function Deviations(Y: seq<real>, mu: real): (D: seq<real>)
    ensures |D| == |Y|
  {
    seq(|Y|, s requires 0 <= s < |Y| => if Y[s] >= mu then Y[s] - mu else mu - Y[s])
  }

  /** (mu − Y)·(mu > Y), entry by entry. */
  function Shortfalls(Y: seq<real>, mu: real): (D: seq<real>)
    ensures |D| == |Y|
  {
    seq(|Y|, s requires 0 <= s < |Y| => (mu - Y[s]) * (if mu > Y[s] then 1.0 else 0.0))
  }

  /** Portfolio.MAD: the expected absolute deviation of the return from its mean. */
  function MAD(w: seq<real>, scenarios: seq<seq<real>>, probas: seq<real>): real
    requires |probas| == |scenarios| && Rows(scenarios, |w|)
  {
    Dot(probas, Deviations(Returns(scenarios, w), Mean(w, scenarios, probas)))
  }

  /** Portfolio.SemiMAD: the expected shortfall of the return below its mean. */
  function SemiMAD(w: seq<real>, scenarios: seq<seq<real>>, probas: seq<real>): real
    requires |probas| == |scenarios| && Rows(scenarios, |w|)
  {
    Dot(probas, Shortfalls(Returns(scenarios, w), Mean(w, scenarios, probas)))
  }

  /** The least entry of a non-empty vector (numpy's `.min()`). */
  function Min(s: seq<real>): (m: real)
    requires |s| >= 1
    ensures forall i :: 0 <= i < |s| ==> m <= s[i]
    ensures exists i :: 0 <= i < |s| && s[i] == m
  {
    if |s| == 1 then s[0]
    else
      var rest := Min(s[1..]);
      assert forall i :: 1 <= i < |s| ==> s[i] == s[1..][i - 1];
      if s[0] <= rest then s[0] else rest
  }

  /** Portfolio.WorstReturn: the least scenario return (numpy fails on no scenarios). */
  function WorstReturn(w: seq<real>, scenarios: seq<seq<real>>): real
    requires |scenarios| >= 1 && Rows(scenarios, |w|)
  {
    Min(Returns(scenarios, w))
  }

  /* ---------------- Properties ---------------- */

  /** The mean return is the probability-weighted mean of the scenario returns. */
  lemma {:induction false} MeanOfReturns(w: seq<real>, scenarios: seq<seq<real>>, probas: seq<real>)
    requires |probas| == |scenarios| && Rows(scenarios, |w|)
    ensures Mean(w, scenarios, probas) == Dot(probas, Returns(scenarios, w))
  {
    var n := |w|;
    if |scenarios| == 0 {
      SumOfConstant(Mul(Zeros(n), w), 0.0);
    } else {
      var p, row := probas[0], scenarios[0];
      var rest := Weighted(probas[1..], scenarios[1..], n);
      MeanOfReturns(w, scenarios[1..], probas[1..]);
      DotSymmetric(Add(Scale(p, row), rest), w);
      DotAdd(w, Scale(p, row), rest);
      DotScale(w, p, row);
      DotSymmetric(w, row);
      DotSymmetric(w, rest);
      var Y := Returns(scenarios, w);
      assert Y[1..] == Returns(scenarios[1..], w);
      DotCons(probas, Y);
    }
  }

  /** |d| = 2·max(−d, 0) + d, for d = Y − mu. */
  lemma DeviationSplit(Y: seq<real>, mu: real)
    ensures Deviations(Y, mu) == Add(Scale(2.0, Shortfalls(Y, mu)), Shift(Y, -mu))
  {
  }

  /** Σ p·(Y + c) = Σ p·Y + c·Σ p. */
  lemma {:induction false} DotShift(p: seq<real>, Y: seq<real>, c: real)
    requires |p| == |Y|
    ensures Dot(p, Shift(Y, c)) == Dot(p, Y) + c * Sum(p)
  {
    MulShift(p, Y, c);
    SumOfAdd(Mul(p, Y), Scale(c, p));
    SumOfScale(c, p);
  }

  lemma {:induction false} MulShift(p: seq<real>, Y: seq<real>, c: real)
    requires |p| == |Y|
    ensures Mul(p, Shift(Y, c)) == Add(Mul(p, Y), Scale(c, p))
  {
    forall s | 0 <= s < |p|
      ensures Mul(p, Shift(Y, c))[s] == Add(Mul(p, Y), Scale(c, p))[s]
    {
      Distribute(p[s], Y[s], c);
    }
  }

  lemma Distribute(q: real, y: real, c: real)
    ensures q * (y + c) == q * y + c * q
  {
  }

  /** Σ p·|Y − mu| = 2·Σ p·max(mu − Y, 0) + (Σ p·Y − mu·Σ p), for any weights p. */
  lemma {:induction false} DotDeviations(p: seq<real>, Y: seq<real>, mu: real)
    requires |p| == |Y|
    ensures Dot(p, Deviations(Y, mu)) == 2.0 * Dot(p, Shortfalls(Y, mu)) + (Dot(p, Y) - mu * Sum(p))
  {
    DeviationSplit(Y, mu);
    DotCombination(p, Deviations(Y, mu), Shortfalls(Y, mu), Y, -mu, mu);
  }

  /** Σ p·D for D = 2·S + (Y + c), with c = −mu. */
  lemma {:induction false} DotCombination(p: seq<real>, D: seq<real>, S: seq<real>, Y: seq<real>, c: real, mu: real)
    requires |p| == |S| == |Y| && D == Add(Scale(2.0, S), Shift(Y, c)) && c == -mu
    ensures Dot(p, D) == 2.0 * Dot(p, S) + (Dot(p, Y) - mu * Sum(p))
  {
    DotAdd(p, Scale(2.0, S), Shift(Y, c));
    DotScale(p, 2.0, S);
    DotShift(p, Y, c);
    Regroup(Dot(p, D), Dot(p, Scale(2.0, S)), Dot(p, S), Dot(p, Shift(Y, c)), Dot(p, Y), c, mu, Sum(p));
  }

  lemma Regroup(x: real, a: real, a': real, b: real, y: real, c: real, mu: real, total: real)
    requires x == a + b && a == 2.0 * a' && b == y + c * total && c == -mu
    ensures x == 2.0 * a' + (y - mu * total)
  {
  }

  /** With probabilities summing to 1, the MAD is twice the SemiMAD. */
  lemma {:induction false} MADIsTwiceSemiMAD(w: seq<real>, scenarios: seq<seq<real>>, probas: seq<real>)
    requires |probas| == |scenarios| && Rows(scenarios, |w|)
    requires Sum(probas) == 1.0
    ensures MAD(w, scenarios, probas) == 2.0 * SemiMAD(w, scenarios, probas)
  {
    var Y, mu := Returns(scenarios, w), Mean(w, scenarios, probas);
    DotDeviations(probas, Y, mu);
    MeanOfReturns(w, scenarios, probas);
    Halves(Dot(probas, Deviations(Y, mu)), Dot(probas, Shortfalls(Y, mu)), Dot(probas, Y), mu, Sum(probas));
  }

  lemma Halves(mad: real, semi: real, y: real, mu: real, total: real)
    requires mad == 2.0 * semi + (y - mu * total) && y == mu && total == 1.0
    ensures mad == 2.0 * semi
  {
  }

  /** Entry by entry non-negative vectors have a non-negative dot product. */
  lemma {:induction false} DotNonNegative(p: seq<real>, D: seq<real>)
    requires |p| == |D| && NonNegative(p) && NonNegative(D)
    ensures Dot(p, D) >= 0.0
  {
    forall s | 0 <= s < |p|
      ensures Mul(p, D)[s] >= 0.0
    {
      ProductNonNegative(p[s], D[s]);
    }
    SumNonNegative(Mul(p, D));
  }

  /** With non-negative probabilities the MAD and the SemiMAD are non-negative. */
  lemma {:induction false} RiskNonNegative(w: seq<real>, scenarios: seq<seq<real>>, probas: seq<real>)
    requires |probas| == |scenarios| && Rows(scenarios, |w|) && NonNegative(probas)
    ensures MAD(w, scenarios, probas) >= 0.0 && SemiMAD(w, scenarios, probas) >= 0.0
  {
    var Y, mu := Returns(scenarios, w), Mean(w, scenarios, probas);
    DotNonNegative(probas, Deviations(Y, mu));
    DotNonNegative(probas, Shortfalls(Y, mu));
  }

  /** Σ p·c = c·Σ p for a constant vector c. */
  lemma {:induction false} DotConstant(p: seq<real>, Y: seq<real>, c: real)
    requires |p| == |Y| && forall s :: 0 <= s < |Y| ==> Y[s] == c
    ensures Dot(p, Y) == c * Sum(p)
  {
    MulConstant(p, Y, c);
    SumOfScale(c, p);
  }

  lemma {:induction false} MulConstant(p: seq<real>, Y: seq<real>, c: real)
    requires |p| == |Y| && forall s :: 0 <= s < |Y| ==> Y[s] == c
    ensures Mul(p, Y) == Scale(c, p)
  {
    forall s | 0 <= s < |p|
      ensures Mul(p, Y)[s] == Scale(c, p)[s]
    {
      Commute(p[s], Y[s], c);
    }
  }

  lemma Commute(q: real, y: real, c: real)
    requires y == c
    ensures q * y == c * q
  {
  }

  /** Σ p·0 = 0. */
  lemma {:induction false} DotZero(p: seq<real>, D: seq<real>)
    requires |p| == |D| && forall s :: 0 <= s < |D| ==> D[s] == 0.0
    ensures Dot(p, D) == 0.0
  {
    SumOfConstant(Mul(p, D), 0.0);
  }

  /** When every scenario gives the same return and the probabilities sum to 1, both deviations are 0. */
  lemma {:induction false} ConstantReturnsHaveNoDeviation(w: seq<real>, scenarios: seq<seq<real>>, probas: seq<real>, c: real)
    requires |probas| == |scenarios| && Rows(scenarios, |w|) && Sum(probas) == 1.0
    requires forall s :: 0 <= s < |scenarios| ==> Dot(scenarios[s], w) == c
    ensures MAD(w, scenarios, probas) == 0.0 && SemiMAD(w, scenarios, probas) == 0.0
  {
    var Y := Returns(scenarios, w);
    MeanOfReturns(w, scenarios, probas);
    DotConstant(probas, Y, c);
    var mu := Mean(w, scenarios, probas);
    assert mu == c;
    DotZero(probas, Deviations(Y, mu));
    DotZero(probas, Shortfalls(Y, mu));
  }

  /** The worst return is one of the scenario returns and lies below every one of them. */
  lemma {:induction false} WorstReturnIsLeast(w: seq<real>, scenarios: seq<seq<real>>)
    requires |scenarios| >= 1 && Rows(scenarios, |w|)
    ensures forall s :: 0 <= s < |scenarios| ==> WorstReturn(w, scenarios) <= Dot(scenarios[s], w)
    ensures exists s :: 0 <= s < |scenarios| && WorstReturn(w, scenarios) == Dot(scenarios[s], w)
  {
    var Y := Returns(scenarios, w);
    var s :| 0 <= s < |Y| && Y[s] == Min(Y);
  }

  /** Σ p·a ≤ Σ p·b when a ≤ b entry by entry and p ≥ 0. */
  lemma {:induction false} DotMonotone(p: seq<real>, a: seq<real>, b: seq<real>)
    requires |p| == |a| == |b| && NonNegative(p)
    requires forall s :: 0 <= s < |a| ==> a[s] <= b[s]
    ensures Dot(p, a) <= Dot(p, b)
  {
    forall s | 0 <= s < |p|
      ensures Mul(p, a)[s] <= Mul(p, b)[s]
    {
      ProductNonNegative(p[s], b[s] - a[s]);
    }
    SumMonotone(Mul(p, a), Mul(p, b));
  }

  /** With probabilities that are non-negative and sum to 1, the worst return is at most the mean. */
  lemma {:induction false} WorstReturnBelowMean(w: seq<real>, scenarios: seq<seq<real>>, probas: seq<real>)
    requires |probas| == |scenarios| >= 1 && Rows(scenarios, |w|)
    requires NonNegative(probas) && Sum(probas) == 1.0
    ensures WorstReturn(w, scenarios) <= Mean(w, scenarios, probas)
  {
    MeanOfReturns(w, scenarios, probas);
    FloorBelowDot(probas, Returns(scenarios, w), WorstReturn(w, scenarios));
  }

  /** A lower bound of every entry of Y is a lower bound of its average under weights p ≥ 0 summing to 1. */
  lemma {:induction false} FloorBelowDot(p: seq<real>, Y: seq<real>, m: real)
    requires |p| == |Y| && NonNegative(p) && Sum(p) == 1.0
    requires forall s :: 0 <= s < |Y| ==> m <= Y[s]
    ensures m <= Dot(p, Y)
  {
    var floor := Scale(m, Ones(|Y|));
    DotMonotone(p, floor, Y);
    DotConstant(p, floor, m);
    Below(Dot(p, floor), Dot(p, Y), m, Sum(p));
  }

  lemma Below(lo: real, x: real, worst: real, total: real)
    requires lo <= x && lo == worst * total && total == 1.0
    ensures worst <= x
  {
  }
}
