/**
 * The decision rule shared by the two "allocation by inspection" solvers of
 * adp/ladp.py and adp/ladp/inspection.py, stated as functions of the
 * pre-decision state h = (cash, asset_1, ..., asset_N) and of the slopes
 * u = (u_0, ..., u_N) of the linear value function.
 *
 * Buying asset i gains k_i = u_{i+1} − (1 + θ)u_0 per unit and selling it
 * gains l_i = −u_{i+1} + (1 − θ)u_0. The rule sells every asset with l_i > 0,
 * spends all cash on the best buy j* (the first index of the largest k, when
 * some k is positive) and also sells into j* every asset whose sale gains
 * when its proceeds are reinvested in j*. The factors 1 + θ and 1 − θ of
 * adp/parameters.py are written as 1.005 and 0.995 (AdpParameters.CostFactors).
 */
module Inspection {
  import opened Options
  import opened Vectors
  import Transition

  /** The buying slopes k. */
  function BuySlopes(u: seq<real>): (k: seq<real>)
    requires |u| >= 1
    ensures |k| == |u| - 1
  {
    seq(|u| - 1, i requires 0 <= i < |u| - 1 => u[i + 1] - 1.005 * u[0])
  }

  /** The selling slopes l. */
  function SellSlopes(u: seq<real>): (l: seq<real>)
    requires |u| >= 1
    ensures |l| == |u| - 1
  {
    seq(|u| - 1, i requires 0 <= i < |u| - 1 => - u[i + 1] + 0.995 * u[0])
  }

  /** np.argmax: the first index of the largest entry. */
  function ArgMax(k: seq<real>): (j: nat)
    requires |k| > 0
    ensures j < |k|
  {
    if |k| == 1 then 0
    else
      var j := ArgMax(k[..|k| - 1]);
      if k[|k| - 1] > k[j] then |k| - 1 else j
  }

  /** ArgMax picks a largest entry, and the first of them. */
  lemma {:induction false} ArgMaxIsMax(k: seq<real>)
    requires |k| > 0
    ensures forall i :: 0 <= i < |k| ==> k[i] <= k[ArgMax(k)]
    ensures forall i :: 0 <= i < ArgMax(k) ==> k[i] < k[ArgMax(k)]
  {
    if |k| > 1 {
      var k' := k[..|k| - 1];
      ArgMaxIsMax(k');
      assert forall i :: 0 <= i < |k'| ==> k'[i] == k[i];
    }
  }

  /** The best buy j*: the first argmax of k, defined only when some k_i > 0. */
  function BestBuy(k: seq<real>): (j: Option<nat>)
    ensures j.Some? ==> j.value < |k| && k[j.value] > 0.0
  {
    if |k| > 0 && k[ArgMax(k)] > 0.0 then Some(ArgMax(k)) else None
  }

  /**
   * There is a best buy exactly when some buying slope is positive, and it
   * is the first index of the largest slope.
   */
  lemma BestBuyIsBest(k: seq<real>)
    ensures BestBuy(k).Some? <==> exists i :: 0 <= i < |k| && k[i] > 0.0
    ensures BestBuy(k).Some? ==> forall i :: 0 <= i < |k| ==> k[i] <= k[BestBuy(k).value]
    ensures BestBuy(k).Some? ==> forall i :: 0 <= i < BestBuy(k).value ==> k[i] < k[BestBuy(k).value]
  {
    if |k| > 0 {
      ArgMaxIsMax(k);
    }
  }

  /** Membership of asset i in the sell set I. */
  predicate Sells(l: seq<real>, h: seq<real>, i: nat)
    requires i < |l| && |h| == |l| + 1
  {
    l[i] > 0.0 && h[i + 1] > 0.0
  }

  /** Membership of asset i in the sell-to-buy set J of the best buy j. */
  predicate SellsToBuy(k: seq<real>, l: seq<real>, h: seq<real>, j: nat, i: nat)
    requires j < |k| && i < |l| && |k| == |l| && |h| == |l| + 1
  {
    l[i] <= 0.0 && (0.995 / 1.005) * k[j] + l[i] > 0.0 && h[i + 1] > 0.0
  }

  /** The sales y for given slopes and best buy: every sold asset is sold in full. */
  function SalesFor(h: seq<real>, k: seq<real>, l: seq<real>, best: Option<nat>): (y: seq<real>)
    requires |k| == |l| && |h| == |l| + 1
    requires best.Some? ==> best.value < |k|
    ensures |y| == |l|
  {
    seq(|l|, i requires 0 <= i < |l| =>
      if Sells(l, h, i) || (best.Some? && SellsToBuy(k, l, h, best.value, i)) then h[i + 1] else 0.0)
  }

  /** The sales y of the rule. */
  function Sales(h: seq<real>, u: seq<real>): (y: seq<real>)
    requires |h| == |u| >= 1
    ensures |y| == |h| - 1
  {
    SalesFor(h, BuySlopes(u), SellSlopes(u), BestBuy(BuySlopes(u)))
  }

  /** The purchases for a given best buy: all cash, sale proceeds included, goes to it. */
  function BuysFor(n: nat, cash: real, best: Option<nat>, sold: real): (x: seq<real>)
    requires best.Some? ==> best.value < n
    ensures |x| == n
  {
    match best
    case None => Zeros(n)
    case Some(j) => Zeros(n)[j := (cash + 0.995 * sold) / 1.005]
  }

  /** The purchases x of the rule. */
  function Buys(h: seq<real>, u: seq<real>): (x: seq<real>)
    requires |h| == |u| >= 1
    ensures |x| == |h| - 1
  {
    BuysFor(|h| - 1, h[0], BestBuy(BuySlopes(u)), Sum(Sales(h, u)))
  }

  /** Sell set I and sell-to-buy set J never share an asset. */
  lemma SellSetsDisjoint(h: seq<real>, u: seq<real>, j: nat, i: nat)
    requires |h| == |u| >= 2 && j < |h| - 1 && i < |h| - 1
    ensures !(Sells(SellSlopes(u), h, i) && SellsToBuy(BuySlopes(u), SellSlopes(u), h, j, i))
  {
  }

  /** Every asset is either kept or sold in full, and only held assets are sold. */
  lemma SalesAllOrNothing(h: seq<real>, u: seq<real>, i: nat)
    requires |h| == |u| >= 1 && i < |h| - 1
    ensures Sales(h, u)[i] == 0.0 || (Sales(h, u)[i] == h[i + 1] && h[i + 1] > 0.0)
    ensures Sells(SellSlopes(u), h, i) ==> Sales(h, u)[i] == h[i + 1]
  {
  }

  /** Sales are non-negative and never exceed the holding. */
  lemma SalesBounded(h: seq<real>, u: seq<real>)
    requires |h| == |u| >= 1
    ensures NonNegative(Sales(h, u))
    ensures forall i :: 0 <= i < |h| - 1 ==> Sales(h, u)[i] <= h[i + 1] || h[i + 1] <= 0.0
  {
  }

  /** At most one coordinate of x is non-zero, and only the best buy. */
  lemma AtMostOneBuy(h: seq<real>, u: seq<real>, i: nat)
    requires |h| == |u| >= 1 && i < |h| - 1
    requires Buys(h, u)[i] != 0.0
    ensures BestBuy(BuySlopes(u)) == Some(i)
  {
  }

  /** With a best buy, the post-decision cash is exactly zero: (1 + θ)Σx = h_0 + (1 − θ)Σy. */
  lemma {:induction false} CashExhausted(h: seq<real>, u: seq<real>)
    requires |h| == |u| >= 1
    requires BestBuy(BuySlopes(u)).Some?
    ensures 1.005 * Sum(Buys(h, u)) == h[0] + 0.995 * Sum(Sales(h, u))
    ensures Transition.Ft(h, Buys(h, u), Sales(h, u))[0] == 0.0
  {
    var j := BestBuy(BuySlopes(u)).value;
    var x := Buys(h, u);
    SumSingle(x, j);
  }

  /** Without a positive buying slope nothing is bought and only the sell set is sold. */
  lemma NoBestBuy(h: seq<real>, u: seq<real>)
    requires |h| == |u| >= 1
    requires forall i :: 0 <= i < |h| - 1 ==> BuySlopes(u)[i] <= 0.0
    ensures Buys(h, u) == Zeros(|h| - 1)
    ensures forall i :: 0 <= i < |h| - 1 ==> (Sales(h, u)[i] != 0.0 <==> Sells(SellSlopes(u), h, i))
    ensures Transition.Ft(h, Buys(h, u), Sales(h, u))[0] == h[0] + 0.995 * Sum(Sales(h, u))
  {
    BestBuyIsBest(BuySlopes(u));
    SumOfZeros(|h| - 1);
  }
}
