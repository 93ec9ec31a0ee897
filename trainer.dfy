/**
 * The strategy trainer of adp/pwladp/trainer.py. One call of train rolls
 * one scenario forward through T stages. After stage t ≥ 1 is solved,
 * value function t − 1 is updated at the state it was solved from. A stage
 * whose solve fails lets the portfolio drift with the returns and updates
 * nothing. The scenario is then recorded in a growing training memory, and
 * value function T − 1 is updated at the final wealth towards
 * γ·R − (1 − γ)·ΔCVaR.
 *
 * The LP solver is a function that may fail (None stands for GurobiError),
 * the value functions' in-place update is a function from the old value
 * function to the new one, and the generator is replaced by the T returns
 * it would draw (stages 1..T − 1, then the terminal returns). The
 * sensitivity generateΔCVaR of this file is the same computation as
 * Updater.DeltaCVaR and is used from there.
 */
module Trainer {
  import opened Vectors
  import opened Options
  import Parameters
  import Updater
  import LadpUpdater

  /** gurobiModel(R, hp, V): the next post-decision state and ΔV, or None when the solver raises. */
  type Solver<-W> = (seq<real>, seq<real>, W) -> Option<(seq<real>, seq<real>)>

  /** V.update(h, ΔV, alpha): the value function after the update. */
  type Update<!W> = (W, seq<real>, seq<real>, real) -> W

  /** A successful solve keeps the shape of the state, and ΔV has one entry per component. */
  ghost predicate Solves<W(!new)>(solve: Solver<W>)
  {
    forall R, h, v :: solve(R, h, v).Some? ==> |solve(R, h, v).value.0| == |h| && |solve(R, h, v).value.1| == |h|
  }

  /**
   * Stages 1..t − 1 of one scenario from the state hp reached at stage 0,
   * with the value functions V: stage u solves with draws[u − 1] and V[u].
   * On success the state moves to the solution and V[u − 1] is updated at
   * the state the stage started from; on failure the state becomes R⊙hp
   * and V is left alone. Gives the state reached and the value functions.
   */
  function Stages<W(!new)>(solve: Solver<W>, update: Update<W>, V: seq<W>, hp: seq<real>,
                           draws: seq<seq<real>>, alpha: real, t: nat): (r: (seq<real>, seq<W>))
    requires Solves(solve) && 1 <= t <= |V| && t <= |draws| + 1 && Rows(draws, |hp|)
    ensures |r.0| == |hp| && |r.1| == |V|
  {
    if t == 1 then (hp, V)
    else
      var prev := Stages(solve, update, V, hp, draws, alpha, t - 1);
      var R := draws[t - 2];
      match solve(R, prev.0, prev.1[t - 1])
      case None => (Mul(R, prev.0), prev.1)
      case Some(sol) => (sol.0, prev.1[t - 2 := update(prev.1[t - 2], prev.0, sol.1, alpha)])
  }

  /** Stage t, from the state g and the value functions W reached after stages 1..t − 1. */
  lemma StagesStep<W(!new)>(solve: Solver<W>, update: Update<W>, V: seq<W>, hp: seq<real>, draws: seq<seq<real>>,
                            alpha: real, t: nat, next: nat, g: seq<real>, W: seq<W>)
    requires Solves(solve) && 1 <= t < |V| && t <= |draws| && Rows(draws, |hp|) && next == t + 1
    requires (g, W) == Stages(solve, update, V, hp, draws, alpha, t)
    ensures solve(draws[t - 1], g, W[t]).None? ==> Stages(solve, update, V, hp, draws, alpha, next) == (Mul(draws[t - 1], g), W)
    ensures solve(draws[t - 1], g, W[t]).Some? ==>
              var sol := solve(draws[t - 1], g, W[t]).value;
              Stages(solve, update, V, hp, draws, alpha, next) == (sol.0, W[t - 1 := update(W[t - 1], g, sol.1, alpha)])
  {
  }

  /** Stages 1..t − 1 touch only the value functions 0..t − 2. */
  lemma {:induction false} StagesKeepLater<W(!new)>(solve: Solver<W>, update: Update<W>, V: seq<W>, hp: seq<real>,
                                                     draws: seq<seq<real>>, alpha: real, t: nat, u: nat)
    requires Solves(solve) && 1 <= t <= |V| && t <= |draws| + 1 && Rows(draws, |hp|)
    requires t - 1 <= u < |V|
    ensures Stages(solve, update, V, hp, draws, alpha, t).1[u] == V[u]
  {
    if t > 1 {
      StagesKeepLater(solve, update, V, hp, draws, alpha, t - 1, u);
    }
  }

  /** When every solve fails, nothing is updated and the state drifts with each stage's returns. */
  lemma {:induction false} StagesAllFail<W(!new)>(solve: Solver<W>, update: Update<W>, V: seq<W>, hp: seq<real>,
                                                   draws: seq<seq<real>>, alpha: real, t: nat)
    requires Solves(solve) && 1 <= t <= |V| && t <= |draws| + 1 && Rows(draws, |hp|)
    requires forall R, h, v :: solve(R, h, v).None?
    ensures Stages(solve, update, V, hp, draws, alpha, t).1 == V
    ensures t > 1 ==> Stages(solve, update, V, hp, draws, alpha, t).0
                      == Mul(draws[t - 2], Stages(solve, update, V, hp, draws, alpha, t - 1).0)
  {
    if t > 1 {
      StagesAllFail(solve, update, V, hp, draws, alpha, t - 1);
    }
  }

  /** The terminal target γ·R − (1 − γ)·ΔCVaR is LadpUpdater.Target with the weight 1 − γ. */
  lemma TerminalTargetAt(R: seq<real>, dCVaR: seq<real>, gamma: real, i: nat)
    requires |R| == |dCVaR| && i < |R|
    ensures LadpUpdater.Target(R, dCVaR, 1.0 - gamma)[i] == gamma * R[i] - (1.0 - gamma) * dCVaR[i]
  {
  }

  /** TrainingMemory: the terminal returns, final post-decision states and final wealths of every trained scenario. */
  class TrainingMemory {
    var hp: seq<seq<real>>
    var RT: seq<seq<real>>
    var h: seq<real>

    /** Every scenario has one row of each, and h holds the total of RT ⊙ hp. */
    ghost predicate Valid(width: nat)
      reads this
    {
      |hp| == |RT| == |h| && Rows(hp, width) && Rows(RT, width)
      && forall k :: 0 <= k < |h| ==> h[k] == Sum(Mul(RT[k], hp[k]))
    }

    /** The memory starts empty. */
    constructor ()
      ensures hp == [] && RT == [] && h == []
      ensures forall width :: Valid(width)
    {
      hp := [];
      RT := [];
      h := [];
    }

    /** Appends one scenario: its terminal returns R, its final state p and the final wealth Σ R⊙p. */
    method Record(R: seq<real>, p: seq<real>, width: nat)
      requires Valid(width) && |R| == |p| == width
      modifies this
      ensures Valid(width)
      ensures RT == old(RT) + [R] && hp == old(hp) + [p] && h == old(h) + [Sum(Mul(R, p))]
    {
      RT := RT + [R];
      hp := hp + [p];
      h := h + [Sum(Mul(R, p))];
    }
  }

  /** ADPStrategyTrainer: the risk weight γ, the number of scenarios trained and the memory. */
  class ADPStrategyTrainer<W(!new)> {
    const gamma: real
    var counter: nat
    const memory: TrainingMemory
    const n: nat

    ghost predicate Valid()
      reads this, memory
    {
      memory.Valid(n + 1) && |memory.RT| == counter
    }

    /** __init__: no scenario trained, empty memory. */
    constructor (gamma: real, n: nat)
      ensures Valid() && this.gamma == gamma && this.n == n && counter == 0
      ensures fresh(memory) && memory.RT == [] && memory.hp == [] && memory.h == []
    {
      this.gamma := gamma;
      this.n := n;
      counter := 0;
      memory := new TrainingMemory();
    }

    /** Stages 1..T − 1 on the strategy in place, from the state hp reached at stage 0. */
    method Roll(strategy: array<W>, solve: Solver<W>, update: Update<W>, hp: seq<real>,
                draws: seq<seq<real>>, alpha: real) returns (p: seq<real>)
      requires Solves(solve) && strategy.Length == Parameters.T && |hp| == n + 1
      requires |draws| == Parameters.T && Rows(draws, n + 1)
      modifies strategy
      ensures (p, strategy[..]) == Stages(solve, update, old(strategy[..]), hp, draws, alpha, Parameters.T)
    {
      ghost var V := strategy[..];
      p := hp;
      var t := 1;
      while t < Parameters.T
        invariant 1 <= t <= Parameters.T
        invariant (p, strategy[..]) == Stages(solve, update, V, hp, draws, alpha, t)
      {
        var prev := p;
        var R := draws[t - 1];
        var r := solve(R, p, strategy[t]);
        StagesStep(solve, update, V, hp, draws, alpha, t, t + 1, p, strategy[..]);
        if r.None? {
          p := Mul(R, p);
        } else {
          p := r.value.0;
          strategy[t - 1] := update(strategy[t - 1], prev, r.value.1, alpha);
        }
        t := t + 1;
      }
    }

    /**
     * train: with alpha = alpha(counter), solve stage 0 from the start
     * state (a failure there is not caught: nothing changes and ok is
     * false), run stages 1..T − 1, record the scenario, update the last
     * value function at the final wealth and count the scenario.
     */
    method Train(strategy: array<W>, solve: Solver<W>, update: Update<W>, draws: seq<seq<real>>) returns (ok: bool)
      requires Valid() && Solves(solve) && strategy.Length == Parameters.T
      requires |draws| == Parameters.T && Rows(draws, n + 1)
      modifies this, memory, strategy
      ensures Valid()
      ensures ok == solve(Ones(n + 1), LadpUpdater.Start(n), old(strategy[0])).Some?
      ensures !ok ==> counter == old(counter) && unchanged(memory) && strategy[..] == old(strategy[..])
      ensures ok ==>
                var alpha := Parameters.Alpha(old(counter));
                var start := solve(Ones(n + 1), LadpUpdater.Start(n), old(strategy[0])).value.0;
                var run := Stages(solve, update, old(strategy[..]), start, draws, alpha, Parameters.T);
                var R := draws[Parameters.T - 1];
                && counter == old(counter) + 1
                && memory.RT == old(memory.RT) + [R]
                && memory.hp == old(memory.hp) + [run.0]
                && memory.h == old(memory.h) + [Sum(Mul(R, run.0))]
                && strategy[..] == run.1[Parameters.T - 1 := update(run.1[Parameters.T - 1], Mul(R, run.0),
                                                                   LadpUpdater.Target(R, Updater.DeltaCVaR(memory.RT, memory.hp, n), 1.0 - gamma),
                                                                   alpha)]
    {
      var alpha := Parameters.Alpha(counter);
      var first := solve(Ones(n + 1), LadpUpdater.Start(n), strategy[0]);
      if first.None? {
        return false;
      }
      var hp := Roll(strategy, solve, update, first.value.0, draws, alpha);
      var R := draws[Parameters.T - 1];
      var h := Mul(R, hp);
      memory.Record(R, hp, n + 1);
      var dV := LadpUpdater.Target(R, Updater.DeltaCVaR(memory.RT, memory.hp, n), 1.0 - gamma);
      strategy[Parameters.T - 1] := update(strategy[Parameters.T - 1], h, dV, alpha);
      counter := counter + 1;
      ok := true;
    }
  }
}
