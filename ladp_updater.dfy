/**
 * The linear value-function updater of adp/ladp/updater.py. Unlike the
 * updater of adp/updater.py, its scenario buffers start with no rows and
 * grow by one row per call, every scenario starts from the capital of
 * parameters.py, and the CVaR sensitivity is taken over every stored row.
 *
 * The generator is replaced by the T returns it would draw (stages
 * 1..T − 1, then the terminal returns) and the solver by a function from
 * (R, h_plus, V_t) to its solution; ΔV is the solver's finite-difference
 * vector.
 */
module LadpUpdater {
  import opened Vectors
  import Parameters
  import Updater

  /** The state every scenario starts from: cash = init, no asset held. */
  function Start(n: nat): (h: seq<real>)
    ensures |h| == n + 1 && h[0] == Parameters.Init
    ensures forall i :: 1 <= i <= n ==> h[i] == 0.0
  {
    Zeros(n + 1)[0 := Parameters.Init]
  }

  /**
   * The terminal target (1 − γ)·R − γ·ΔCVaR, R being the returns just
   * stored and ΔCVaR the sensitivity over every stored scenario.
   */
  function Target(R: seq<real>, dCVaR: seq<real>, gamma: real): (d: seq<real>)
    requires |R| == |dCVaR|
    ensures |d| == |R|
  {
    seq(|R|, i requires 0 <= i < |R| => (1.0 - gamma) * R[i] - gamma * dCVaR[i])
  }

  /** (1 − g)·r − g·x decreases in x for a non-negative g. */
  lemma AffineBetween(r: real, g: real, lo: real, x: real, hi: real)
    requires 0.0 <= g && lo <= x <= hi
    ensures (1.0 - g) * r - g * hi <= (1.0 - g) * r - g * x <= (1.0 - g) * r - g * lo
  {
    assert g * (hi - x) >= 0.0 && g * (x - lo) >= 0.0;
  }

  /**
   * With 0 ≤ γ and ΔCVaR[i] in [lo, hi] (which Updater.DeltaCVaRBetween
   * gives when every stored return of asset i lies in [lo, hi]), the
   * target of asset i lies between (1 − γ)·R[i] − γ·hi and (1 − γ)·R[i] − γ·lo.
   */
  lemma TargetBounds(R: seq<real>, dCVaR: seq<real>, gamma: real, i: nat, lo: real, hi: real)
    requires |R| == |dCVaR| && i < |R| && 0.0 <= gamma && lo <= dCVaR[i] <= hi
    ensures (1.0 - gamma) * R[i] - gamma * hi <= Target(R, dCVaR, gamma)[i] <= (1.0 - gamma) * R[i] - gamma * lo
  {
    AffineBetween(R[i], gamma, lo, dCVaR[i], hi);
  }

  /**
   * A return that is the same c in every stored scenario has ΔCVaR = c
   * (Updater.DeltaCVaROfConstantColumn), so its target is (1 − 2γ)·c.
   */
  lemma TargetOfConstantColumn(R: seq<real>, dCVaR: seq<real>, gamma: real, i: nat, c: real)
    requires |R| == |dCVaR| && i < |R| && R[i] == c && dCVaR[i] == c
    ensures Target(R, dCVaR, gamma)[i] == (1.0 - 2.0 * gamma) * c
  {
  }

  /** γ = 0 targets the returns alone; γ = 1 targets −ΔCVaR alone. */
  lemma TargetExtremes(R: seq<real>, dCVaR: seq<real>)
    requires |R| == |dCVaR|
    ensures Target(R, dCVaR, 0.0) == R && Target(R, dCVaR, 1.0) == Scale(-1.0, dCVaR)
  {
  }

  /** LValueFunctionUpdater of adp/ladp/updater.py: T linear value functions and growing buffers. */
  class LValueFunctionUpdater {
    var V: seq<seq<real>>
    const solve: (seq<real>, seq<real>, seq<real>) -> Updater.Solution
    var hPlus: seq<seq<real>>
    var RT: seq<seq<real>>
    var counter: nat
    const n: nat
    const gamma: real

    ghost predicate Valid()
      reads this
    {
      |V| == Parameters.T && Rows(V, n + 1) && Updater.Shaped(solve)
      && |hPlus| == |RT| == counter && Rows(hPlus, n + 1) && Rows(RT, n + 1)
    }

    /** __init__: both buffers are empty and the counter is at 0. */
    constructor (V: seq<seq<real>>, solve: (seq<real>, seq<real>, seq<real>) -> Updater.Solution, n: nat, gamma: real)
      requires |V| == Parameters.T && Rows(V, n + 1) && Updater.Shaped(solve)
      ensures Valid() && this.V == V && this.solve == solve && this.n == n && this.gamma == gamma
      ensures hPlus == [] && RT == [] && counter == 0
    {
      this.V := V;
      this.solve := solve;
      this.n := n;
      this.gamma := gamma;
      hPlus := [];
      RT := [];
      counter := 0;
    }

    /**
     * __next__: scenario s = counter, from the start state. One row is
     * appended to each buffer, and V moves towards the stage ΔVs and the
     * terminal target with the step alpha(s).
     */
    method Next(draws: seq<seq<real>>)
      requires Valid()
      requires |draws| == Parameters.T && Rows(draws, n + 1)
      modifies this
      ensures Valid() && counter == old(counter) + 1
      ensures RT == old(RT) + [draws[Parameters.T - 1]]
      ensures var start := solve(Ones(n + 1), Start(n), old(V)[0]);
              var run := Updater.Forward(solve, old(V), start.hPlus, draws, Parameters.T);
              && hPlus == old(hPlus) + [run.0]
              && V == Updater.BlendRows(old(V), Updater.Targets(run.1, Target(draws[Parameters.T - 1], Updater.DeltaCVaR(RT, hPlus, n), gamma)),
                                        Parameters.Alpha(old(counter)))
    {
      var s := counter;
      var dV := seq(Parameters.T, t => Zeros(n + 1));
      var start := solve(Ones(n + 1), Start(n), V[0]);
      var h := start.hPlus;
      ghost var sols: seq<Updater.Solution> := [];
      var t := 1;
      while t < Parameters.T
        invariant 1 <= t <= Parameters.T && unchanged(this)
        invariant (h, sols) == Updater.Forward(solve, V, start.hPlus, draws, t)
        invariant |dV| == Parameters.T && Rows(dV, n + 1)
        invariant forall u :: 0 <= u < t - 1 ==> dV[u] == sols[u].dV
      {
        var sol := solve(draws[t - 1], h, V[t]);
        Updater.ForwardStep(solve, V, start.hPlus, draws, t, t + 1, h, sols);
        h := sol.hPlus;
        dV := dV[t - 1 := sol.dV];
        sols := sols + [sol];
        t := t + 1;
      }
      counter := counter + 1;
      RT := RT + [draws[Parameters.T - 1]];
      hPlus := hPlus + [h];
      var terminal := Target(draws[Parameters.T - 1], Updater.DeltaCVaR(RT, hPlus, n), gamma);
      dV := dV[Parameters.T - 1 := terminal];
      assert dV == Updater.Targets(sols, terminal);
      V := Updater.BlendRows(V, dV, Parameters.Alpha(s));
    }
  }
}
