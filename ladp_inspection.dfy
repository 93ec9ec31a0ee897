/**
 * adp/ladp/inspection.py: the second revision of the inspection solver and
 * LADPInspectionModel, which re-solves the problem from every unit
 * perturbation h_plus + e_i of the previous post-decision state to estimate
 * the slopes ΔV of the value function by finite differences.
 *
 * In that file `solve` calls the transition with the returns as well,
 * ft(h, R, x, y); that is the return-then-trade transition of adp.py, which
 * this model uses there.
 */
module LadpInspection {
  import opened Options
  import opened Vectors
  import opened Inspection
  import Ladp
  import ReturnTransition
  import Transition

  /**
   * LADP(obj, R, h_plus, u): the rule of adp/ladp.py with its arguments in
   * another order. This revision computes the sell-to-buy set J after the
   * purchase of step 2 rather than before it; J does not depend on the cash
   * entry (Ladp.SellsToBuyIgnoresCash), so both compute the same trades and
   * this one is Ladp.LADP. The unused first argument is not modelled.
   */
  method LADP(R: seq<real>, hPlus: seq<real>, u: seq<real>) returns (x: seq<real>, y: seq<real>)
    requires |hPlus| == |u| == |R| >= 1
    ensures x == Buys(Mul(hPlus, R), u)
    ensures y == Sales(Mul(hPlus, R), u)
  {
    x, y := Ladp.LADP(hPlus, u, R);
  }

  /** The state reached from h_plus: returns, then the inspection decision. */
  function NextState(R: seq<real>, hPlus: seq<real>, V: seq<real>): (r: seq<real>)
    requires |hPlus| == |V| == |R| >= 1
    ensures |r| == |hPlus|
  {
    var h := Mul(hPlus, R);
    ReturnTransition.FtR(hPlus, R, Buys(h, V), Sales(h, V))
  }

  /** ΔV_i: the value gained by one more unit of component i before deciding. */
  function DeltaV(R: seq<real>, hPlus: seq<real>, V: seq<real>): (d: seq<real>)
    requires |hPlus| == |V| == |R| >= 1
    ensures |d| == |V|
  {
    seq(|V|, i requires 0 <= i < |V| =>
      Dot(V, NextState(R, Add(hPlus, Unit(|V|, i)), V)) - Dot(V, NextState(R, hPlus, V)))
  }

  class LadpInspectionModel {
    var x: Option<seq<real>>
    var y: Option<seq<real>>
    var hPlus: Option<seq<real>>
    var deltaV: Option<seq<real>>

    constructor ()
      ensures x == None && y == None && hPlus == None && deltaV == None
    {
      x, y, hPlus, deltaV := None, None, None, None;
    }

    /**
     * Solves from every perturbation h_plus + e_i, then from h_plus itself,
     * and stores the decision, the next state and the finite differences.
     */
    method Solve(R: seq<real>, h: seq<real>, V: seq<real>)
      requires |h| == |V| == |R| >= 1
      modifies this
      ensures x == Some(Buys(Mul(h, R), V)) && y == Some(Sales(Mul(h, R), V))
      ensures hPlus == Some(NextState(R, h, V))
      ensures deltaV == Some(DeltaV(R, h, V))
    {
      var n1 := |V|;
      var vPlus := new real[n1](_ => 0.0);
      for i := 0 to n1
        invariant forall m :: 0 <= m < i ==> vPlus[m] == Dot(V, NextState(R, Add(h, Unit(n1, m)), V))
      {
        var hp := Add(h, Unit(n1, i));
        var xi, yi := LADP(R, hp, V);
        assert ReturnTransition.FtR(hp, R, xi, yi) == NextState(R, hp, V);
        vPlus[i] := Dot(V, ReturnTransition.FtR(hp, R, xi, yi));
      }
      var x0, y0 := LADP(R, h, V);
      x, y := Some(x0), Some(y0);
      var next := ReturnTransition.FtR(h, R, x0, y0);
      hPlus := Some(next);
      assert next == NextState(R, h, V);
      var value := Dot(V, next);
      var vp := vPlus[..];
      var d := seq(n1, i requires 0 <= i < n1 => vp[i] - value);
      forall m | 0 <= m < n1
        ensures d[m] == DeltaV(R, h, V)[m]
      {
      }
      assert d == DeltaV(R, h, V);
      deltaV := Some(d);
    }
  }

  lemma MulOfUnit(R: seq<real>, i: nat)
    requires i < |R|
    ensures Mul(R, Unit(|R|, i)) == Scale(R[i], Unit(|R|, i))
  {
  }

  lemma MulDistributes(R: seq<real>, a: seq<real>, b: seq<real>)
    requires |R| == |a| == |b|
    ensures Mul(R, Add(a, b)) == Add(Mul(R, a), Mul(R, b))
  {
    forall m | 0 <= m < |R|
      ensures Mul(R, Add(a, b))[m] == Add(Mul(R, a), Mul(R, b))[m]
    {
      assert R[m] * (a[m] + b[m]) == R[m] * a[m] + R[m] * b[m];
    }
  }

  lemma DotOfGrownUnit(V: seq<real>, R: seq<real>, i: nat)
    requires |V| == |R| && i < |R|
    ensures Dot(V, Mul(R, Unit(|R|, i))) == R[i] * V[i]
  {
    MulOfUnit(R, i);
    DotScale(V, R[i], Unit(|R|, i));
    DotUnit(V, i);
  }

  /** With no profitable buy and no profitable sale, the state just grows by R. */
  lemma NoTradeNextState(R: seq<real>, hPlus: seq<real>, V: seq<real>)
    requires |hPlus| == |V| == |R| >= 1
    requires forall i :: 0 <= i < |V| - 1 ==> BuySlopes(V)[i] <= 0.0 && SellSlopes(V)[i] <= 0.0
    ensures NextState(R, hPlus, V) == Mul(R, hPlus)
  {
    var h := Mul(hPlus, R);
    var n := |V| - 1;
    NoBestBuy(h, V);
    assert Sales(h, V) == Zeros(n);
    ReturnTransition.FtRIsFtOfGrowth(hPlus, R, Zeros(n), Zeros(n));
    Transition.FtNoTrade(Mul(R, hPlus));
  }

  /**
   * When the slopes call for no trade at all, the finite difference of
   * component i is its gross return times its slope: ΔV_i = R_i V_i.
   */
  lemma DeltaVWithoutTrades(R: seq<real>, hPlus: seq<real>, V: seq<real>, i: nat)
    requires |hPlus| == |V| == |R| >= 1 && i < |V|
    requires forall i :: 0 <= i < |V| - 1 ==> BuySlopes(V)[i] <= 0.0 && SellSlopes(V)[i] <= 0.0
    ensures DeltaV(R, hPlus, V)[i] == R[i] * V[i]
  {
    var e := Unit(|V|, i);
    NoTradeNextState(R, hPlus, V);
    NoTradeNextState(R, Add(hPlus, e), V);
    MulDistributes(R, hPlus, e);
    DotAdd(V, Mul(R, hPlus), Mul(R, e));
    assert DeltaV(R, hPlus, V)[i] == Dot(V, Mul(R, e));
    DotOfGrownUnit(V, R, i);
  }
}
