/**
 * The return-then-trade transition ft(h, R, x, y) of adp.py: every component
 * of the previous post-decision state first grows by its gross return R_i,
 * then the trades are applied with the cost rate θ = 0.005 of that script
 * (factors 1.005 and 0.995).
 */
module ReturnTransition {
  import opened Vectors
  import Transition

  /** Transaction cost rate of adp.py. */
  const Theta: real := 0.005

  function FtR(h: seq<real>, R: seq<real>, x: seq<real>, y: seq<real>): (r: seq<real>)
    requires |h| == |R| == |x| + 1 && |x| == |y|
    ensures |r| == |h|
  {
    seq(|h|, i requires 0 <= i < |h| =>
      if i == 0 then R[0] * h[0] - 1.005 * Sum(x) + 0.995 * Sum(y)
      else R[i] * h[i] + x[i - 1] - y[i - 1])
  }

  /**
   * Asset i of the result is R_i h_i + x_i − y_i, the cash is
   * R_0 h_0 − (1 + θ)Σx + (1 − θ)Σy: it is the trade-only transition applied
   * to the grown state R ⊙ h.
   */
  lemma FtRIsFtOfGrowth(h: seq<real>, R: seq<real>, x: seq<real>, y: seq<real>)
    requires |h| == |R| == |x| + 1 && |x| == |y|
    ensures FtR(h, R, x, y) == Transition.FtCost(Theta, Mul(R, h), x, y)
  {
    var g := Mul(R, h);
    var a := FtR(h, R, x, y);
    var b := Transition.FtCost(Theta, g, x, y);
    forall i | 0 <= i < |a|
      ensures a[i] == b[i]
    {
      if i > 0 {
        assert b[i] == Transition.Traded(g[1..], x, y)[i - 1];
      }
    }
  }

  /** Σ ft(h, R, x, y) = Σ(R ⊙ h) − θ(Σx + Σy). */
  lemma FtRWealth(h: seq<real>, R: seq<real>, x: seq<real>, y: seq<real>)
    requires |h| == |R| == |x| + 1 && |x| == |y|
    ensures Sum(FtR(h, R, x, y)) == Sum(Mul(R, h)) - 0.005 * (Sum(x) + Sum(y))
  {
    FtRIsFtOfGrowth(h, R, x, y);
    Transition.FtCostWealth(Theta, Mul(R, h), x, y);
  }

  /** With every gross return equal to one it is the trade-only transition. */
  lemma FtRWithUnitReturns(h: seq<real>, x: seq<real>, y: seq<real>)
    requires |h| == |x| + 1 && |x| == |y|
    ensures FtR(h, Ones(|h|), x, y) == Transition.Ft(h, x, y)
  {
    FtRIsFtOfGrowth(h, Ones(|h|), x, y);
    assert Mul(Ones(|h|), h) == h;
  }
}
