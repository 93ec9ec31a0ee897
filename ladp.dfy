/**
 * LADP of adp/ladp.py: the inspection solver that fills the buy and sell
 * vectors step by step (sell, buy with all cash, sell to buy), working on a
 * local copy h = h_plus ⊙ R whose cash entry it overwrites.
 */
module Ladp {
  import opened Options
  import opened Vectors
  import opened Inspection

  /** Buying with the cash first and with the sell-to-buy proceeds next spends the same as buying once. */
  lemma BuyAmount(cash: real, sold: real, soldToBuy: real)
    ensures (cash + 0.995 * sold) / 1.005 + (0.995 / 1.005) * soldToBuy
         == (cash + 0.995 * (sold + soldToBuy)) / 1.005
  {
  }

  /** The purchase built in two steps is the purchase of the rule. */
  lemma BuyTotal(n: nat, j: nat, cash: real, sold: real, soldToBuy: real, total: real, left: real)
    requires j < n && total == sold + soldToBuy && left == cash + 0.995 * sold
    ensures Zeros(n)[j := left / 1.005 + (0.995 / 1.005) * soldToBuy] == BuysFor(n, cash, Some(j), total)
  {
    BuyAmount(cash, sold, soldToBuy);
  }

  /** Step 1: sells every asset of the sell set I in full and returns the units sold. */
  method SellStep(h: array<real>, l: seq<real>, ys: array<real>) returns (sold: real)
    requires h.Length == |l| + 1 && ys.Length == |l|
    requires forall m :: 0 <= m < ys.Length ==> ys[m] == 0.0
    modifies ys
    ensures forall m :: 0 <= m < ys.Length ==> ys[m] == if Sells(l, h[..], m) then h[m + 1] else 0.0
    ensures sold == Sum(ys[..])
  {
    assert ys[..] == Zeros(ys.Length);
    SumOfZeros(ys.Length);
    sold := 0.0;
    for i := 0 to ys.Length
      invariant forall m :: 0 <= m < i ==> ys[m] == if Sells(l, h[..], m) then h[m + 1] else 0.0
      invariant forall m :: i <= m < ys.Length ==> ys[m] == 0.0
      invariant sold == Sum(ys[..])
    {
      if l[i] > 0.0 && h[i + 1] > 0.0 {
        SumUpdate(ys[..], i, h[i + 1]);
        ys[i] := h[i + 1];
        sold := sold + h[i + 1];
      }
    }
  }

  /** Step 3: sells every asset of the sell-to-buy set J of the best buy j in full and returns the units sold. */
  method SellToBuyStep(h: array<real>, k: seq<real>, l: seq<real>, j: nat, ys: array<real>) returns (soldToBuy: real)
    requires h.Length == |l| + 1 && ys.Length == |l| == |k| && j < |k|
    requires forall m :: 0 <= m < ys.Length && SellsToBuy(k, l, h[..], j, m) ==> ys[m] == 0.0
    modifies ys
    ensures forall m :: 0 <= m < ys.Length ==>
      ys[m] == if SellsToBuy(k, l, h[..], j, m) then h[m + 1] else old(ys[m])
    ensures Sum(ys[..]) == Sum(old(ys[..])) + soldToBuy
  {
    soldToBuy := 0.0;
    for i := 0 to ys.Length
      invariant forall m :: 0 <= m < i ==>
        ys[m] == if SellsToBuy(k, l, h[..], j, m) then h[m + 1] else old(ys[m])
      invariant forall m :: i <= m < ys.Length ==> ys[m] == old(ys[m])
      invariant Sum(ys[..]) == Sum(old(ys[..])) + soldToBuy
    {
      if l[i] <= 0.0 && (0.995 / 1.005) * k[j] + l[i] > 0.0 && h[i + 1] > 0.0 {
        SumUpdate(ys[..], i, h[i + 1]);
        ys[i] := h[i + 1];
        soldToBuy := soldToBuy + h[i + 1];
      }
    }
  }

  /** The sales of step 1 followed by those of step 3 are the sales of the rule. */
  lemma StepsGiveSales(h: seq<real>, k: seq<real>, l: seq<real>, j: nat, y1: seq<real>, y: seq<real>)
    requires |k| == |l| == |y1| == |y| && |h| == |l| + 1 && j < |k|
    requires forall m :: 0 <= m < |y1| ==> y1[m] == if Sells(l, h, m) then h[m + 1] else 0.0
    requires forall m :: 0 <= m < |y| ==> y[m] == if SellsToBuy(k, l, h, j, m) then h[m + 1] else y1[m]
    ensures y == SalesFor(h, k, l, Some(j))
  {
  }

  /**
   * Steps 2 and 3 for the best buy j: buys j with all the cash, then sells
   * the sell-to-buy set J, found on the state without cash, into j.
   */
  method BuyBest(h: array<real>, k: seq<real>, l: seq<real>, j: nat, xs: array<real>, ys: array<real>)
    returns (soldToBuy: real)
    requires h.Length == |l| + 1 && xs.Length == ys.Length == |l| == |k| && j < |k|
    requires h != ys && xs != ys && h != xs
    requires xs[..] == Zeros(|k|)
    requires forall m :: 0 <= m < ys.Length && SellsToBuy(k, l, h[..], j, m) ==> ys[m] == 0.0
    modifies h, xs, ys
    ensures h[..] == old(h[..])[0 := 0.0]
    ensures forall m :: 0 <= m < ys.Length ==>
      ys[m] == if SellsToBuy(k, l, old(h[..]), j, m) then old(h[m + 1]) else old(ys[m])
    ensures Sum(ys[..]) == Sum(old(ys[..])) + soldToBuy
    ensures xs[..] == Zeros(|k|)[j := old(h[0]) / 1.005 + (0.995 / 1.005) * soldToBuy]
  {
    // Step 2: buying the best buy with all the cash
    xs[j] := h[0] / 1.005;
    h[0] := 0.0;
    // Step 3: selling the sell-to-buy set J into the best buy
    SellsToBuyIgnoresCash(k, l, h[..], old(h[..]), j);
    soldToBuy := SellToBuyStep(h, k, l, j, ys);
    xs[j] := xs[j] + (0.995 / 1.005) * soldToBuy;
  }

  /** Membership of J does not depend on the cash entry. */
  lemma SellsToBuyIgnoresCash(k: seq<real>, l: seq<real>, h: seq<real>, h': seq<real>, j: nat)
    requires |k| == |l| && |h| == |h'| == |l| + 1 && j < |k| && h[1..] == h'[1..]
    ensures forall m :: 0 <= m < |l| ==> SellsToBuy(k, l, h, j, m) == SellsToBuy(k, l, h', j, m)
  {
    forall m | 0 <= m < |l|
      ensures SellsToBuy(k, l, h, j, m) == SellsToBuy(k, l, h', j, m)
    {
      assert h[m + 1] == h[1..][m] && h'[m + 1] == h'[1..][m];
    }
  }

  /** The rule, restated for its slopes and best buy. */
  lemma RuleFor(pre: seq<real>, u: seq<real>)
    requires |pre| == |u| >= 1
    ensures Sales(pre, u) == SalesFor(pre, BuySlopes(u), SellSlopes(u), BestBuy(BuySlopes(u)))
    ensures Buys(pre, u) == BuysFor(|u| - 1, pre[0], BestBuy(BuySlopes(u)), Sum(Sales(pre, u)))
  {
  }

  method LADP(hPlus: seq<real>, u: seq<real>, R: seq<real>) returns (x: seq<real>, y: seq<real>)
    requires |hPlus| == |u| == |R| >= 1
    ensures x == Buys(Mul(hPlus, R), u)
    ensures y == Sales(Mul(hPlus, R), u)
  {
    // Computing pre-decision variables
    var h := new real[|hPlus|](i requires 0 <= i < |hPlus| => hPlus[i] * R[i]);
    ghost var pre := Mul(hPlus, R);
    assert h[..] == pre;
    var n := |hPlus| - 1;
    var xs := new real[n](_ => 0.0);
    var ys := new real[n](_ => 0.0);

    var k := BuySlopes(u);
    var l := SellSlopes(u);

    // Step 0
    var jStar := BestBuy(k);
    RuleFor(pre, u);

    // Step 1: selling the sell set I
    var sold := SellStep(h, l, ys);
    h[0] := h[0] + 0.995 * sold;
    ghost var y1, cash := ys[..], h[0];
    assert h[..][1..] == pre[1..];

    if jStar.Some? {
      // Steps 2 and 3
      SellsToBuyIgnoresCash(k, l, h[..], pre, jStar.value);
      var soldToBuy := BuyBest(h, k, l, jStar.value, xs, ys);
      StepsGiveSales(pre, k, l, jStar.value, y1, ys[..]);
      BuyTotal(n, jStar.value, pre[0], sold, soldToBuy, Sum(ys[..]), cash);
      assert xs[..] == BuysFor(n, pre[0], jStar, Sum(ys[..]));
    } else {
      assert ys[..] == SalesFor(pre, k, l, jStar);
      assert xs[..] == BuysFor(n, pre[0], jStar, Sum(ys[..]));
    }
    x, y := xs[..], ys[..];
  }
}
