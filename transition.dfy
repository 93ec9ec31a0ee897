/**
 * The transition of adp/transition.py: trades x (buys) and y (sales) are
 * applied to a pre-decision state h = (cash, asset_1, ..., asset_N) with a
 * proportional cost theta on every traded unit.
 */
module Transition {
  import opened Vectors
  import AdpParameters

  /** Asset holdings after buying x and selling y. */
  function Traded(assets: seq<real>, x: seq<real>, y: seq<real>): (r: seq<real>)
    requires |assets| == |x| == |y|
    ensures |r| == |assets|
  {
    seq(|assets|, i requires 0 <= i < |assets| => assets[i] + x[i] - y[i])
  }

  /** Cash after paying (1 + theta) per unit bought and receiving (1 - theta) per unit sold. */
  function Cash(cash: real, theta: real, bought: real, sold: real): real
  {
    cash - (1.0 + theta) * bought + (1.0 - theta) * sold
  }

  /** The transition for an arbitrary cost rate. */
  function FtCost(theta: real, h: seq<real>, x: seq<real>, y: seq<real>): (r: seq<real>)
    requires |h| == |x| + 1 && |x| == |y|
    ensures |r| == |h|
  {
    [Cash(h[0], theta, Sum(x), Sum(y))] + Traded(h[1..], x, y)
  }

  /** ft(h, x, y): the post-decision state, with the cost rate θ = 0.005 of adp/parameters.py (AdpParameters.Theta). */
  function Ft(h: seq<real>, x: seq<real>, y: seq<real>): (r: seq<real>)
    requires |h| == |x| + 1 && |x| == |y|
    ensures |r| == |h|
  {
    FtCost(AdpParameters.Theta, h, x, y)
  }

  lemma {:induction false} SumOfTraded(a: seq<real>, x: seq<real>, y: seq<real>)
    requires |a| == |x| == |y|
    ensures Sum(Traded(a, x, y)) == Sum(a) + Sum(x) - Sum(y)
  {
    if |a| > 0 {
      assert Traded(a, x, y)[1..] == Traded(a[1..], x[1..], y[1..]);
      SumOfTraded(a[1..], x[1..], y[1..]);
    }
  }

  lemma SumOfFtCost(theta: real, h: seq<real>, x: seq<real>, y: seq<real>)
    requires |h| == |x| + 1 && |x| == |y|
    ensures Sum(FtCost(theta, h, x, y)) == Cash(h[0], theta, Sum(x), Sum(y)) + (Sum(h[1..]) + Sum(x) - Sum(y))
  {
    SumOfTraded(h[1..], x, y);
    assert FtCost(theta, h, x, y)[1..] == Traded(h[1..], x, y);
  }

  /** Total wealth falls by exactly theta times the traded volume. */
  lemma FtCostWealth(theta: real, h: seq<real>, x: seq<real>, y: seq<real>)
    requires |h| == |x| + 1 && |x| == |y|
    ensures Sum(FtCost(theta, h, x, y)) == Sum(h) - theta * (Sum(x) + Sum(y))
  {
    SumOfFtCost(theta, h, x, y);
    CashArithmetic(theta, h[0], Sum(h[1..]), Sum(x), Sum(y));
  }

  lemma CashArithmetic(theta: real, c: real, a: real, sx: real, sy: real)
    ensures Cash(c, theta, sx, sy) + (a + sx - sy) == c + a - theta * (sx + sy)
  {
    assert theta * (sx + sy) == theta * sx + theta * sy;
  }

  /** Σ ft(h, x, y) = Σ h − θ(Σx + Σy). */
  lemma FtWealth(h: seq<real>, x: seq<real>, y: seq<real>)
    requires |h| == |x| + 1 && |x| == |y|
    ensures Sum(Ft(h, x, y)) == Sum(h) - 0.005 * (Sum(x) + Sum(y))
  {
    FtCostWealth(AdpParameters.Theta, h, x, y);
  }

  /** Without transaction costs, trading conserves total wealth. */
  lemma FtConservesWithoutCost(h: seq<real>, x: seq<real>, y: seq<real>)
    requires |h| == |x| + 1 && |x| == |y|
    ensures Sum(FtCost(0.0, h, x, y)) == Sum(h)
  {
    FtCostWealth(0.0, h, x, y);
  }

  /**
   * Asset i moves by exactly x_i − y_i; cash falls by 1 + θ per unit bought
   * and rises by 1 − θ per unit sold; asset i depends on no other trade.
   */
  lemma FtComponents(h: seq<real>, x: seq<real>, y: seq<real>, x': seq<real>, y': seq<real>, i: nat)
    requires |h| == |x| + 1 && |x| == |y| == |x'| == |y'| && i < |x|
    requires x'[i] == x[i] && y'[i] == y[i]
    ensures Ft(h, x, y)[i + 1] - h[i + 1] == x[i] - y[i]
    ensures Ft(h, x', y')[i + 1] == Ft(h, x, y)[i + 1]
    ensures Ft(h, x, y)[0] == h[0] - 1.005 * Sum(x) + 0.995 * Sum(y)
  {
  }

  /** No trade leaves the state as it was. */
  lemma FtNoTrade(h: seq<real>)
    requires |h| >= 1
    ensures Ft(h, Zeros(|h| - 1), Zeros(|h| - 1)) == h
  {
    SumOfZeros(|h| - 1);
    assert Ft(h, Zeros(|h| - 1), Zeros(|h| - 1))[0] == h[0];
  }

  /** Buying never and selling at most the holding keeps every asset non-negative. */
  lemma FtAssetsNonNegative(h: seq<real>, x: seq<real>, y: seq<real>)
    requires |h| == |x| + 1 && |x| == |y|
    requires NonNegative(x)
    requires forall i :: 0 <= i < |y| ==> y[i] <= h[i + 1]
    ensures NonNegative(Ft(h, x, y)[1..])
  {
  }

  /** Buying b more units of asset j costs (1 + θ)b cash and adds b to the holding. */
  lemma FtBuyMore(h: seq<real>, x: seq<real>, y: seq<real>, j: nat, b: real)
    requires |h| == |x| + 1 && |x| == |y| && j < |x|
    ensures Ft(h, x[j := x[j] + b], y)
         == Ft(h, x, y)[0 := Ft(h, x, y)[0] - 1.005 * b][j + 1 := Ft(h, x, y)[j + 1] + b]
  {
    SumUpdate(x, j, x[j] + b);
  }
}
