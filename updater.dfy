/**
 * The value-function updaters of adp/updater.py. One call rolls one
 * scenario forward through T stages with the solver the updater was built
 * with, stores the scenario's terminal returns and post-decision state in
 * row s of two S-row buffers, estimates the CVaR sensitivity over the rows
 * stored so far and blends the value functions towards the observed
 * targets with the step alpha(s).
 *
 * The scenario generator is replaced by the sequence of returns it would
 * draw (T entries: stages 1..T - 1, then the terminal returns), and the
 * solver by a function from (R, h_plus, V_t) to its solution.
 */
module Updater {
  import opened Vectors
  import Cvar
  import AdpParameters
  import ValueFunction

  /* ---------------- The CVaR sensitivity ---------------- */

  /** RT * h_plus: the terminal wealth of every stored scenario, component by component. */
  function Wealth(RT: seq<seq<real>>, hp: seq<seq<real>>): (w: seq<seq<real>>)
    requires |RT| == |hp| && forall s :: 0 <= s < |hp| ==> |RT[s]| == |hp[s]|
    ensures |w| == |RT| && forall s :: 0 <= s < |w| ==> w[s] == Mul(RT[s], hp[s])
  {
    seq(|RT|, s requires 0 <= s < |RT| => Mul(RT[s], hp[s]))
  }

  /** h_plus + [e_i]: one more unit of component i in every stored scenario. */
  function Bumped(hp: seq<seq<real>>, n: nat, i: nat): (g: seq<seq<real>>)
    requires Rows(hp, n + 1) && i <= n
    ensures |g| == |hp| && Rows(g, n + 1)
    ensures forall s :: 0 <= s < |hp| ==> g[s] == Add(hp[s], Unit(n + 1, i))
  {
    seq(|hp|, s requires 0 <= s < |hp| => Add(hp[s], Unit(n + 1, i)))
  }

  /** generateΔCVaR(RT, h_plus): entry i is CVaR(RT * (h_plus + [e_i])) − CVaR(RT * h_plus). */
  function DeltaCVaR(RT: seq<seq<real>>, hp: seq<seq<real>>, n: nat): (d: seq<real>)
    requires |RT| == |hp| >= 1 && Rows(RT, n + 1) && Rows(hp, n + 1)
    ensures |d| == n + 1
  {
    seq(n + 1, i requires 0 <= i <= n =>
      Cvar.CVaR(Wealth(RT, Bumped(hp, n, i))) - Cvar.CVaR(Wealth(RT, hp)))
  }

  /** One more unit of component i adds the return r_i to the total. */
  lemma BumpedTotal(r: seq<real>, h: seq<real>, i: nat)
    requires |r| == |h| && i < |h|
    ensures Sum(Mul(r, Add(h, Unit(|h|, i)))) == Sum(Mul(r, h)) + r[i]
  {
    DotAdd(r, h, Unit(|h|, i));
    DotUnit(r, i);
  }

  /**
   * If column i of the stored returns lies between lo and hi in every row,
   * so does ΔCVaR[i].
   */
  lemma DeltaCVaRBetween(RT: seq<seq<real>>, hp: seq<seq<real>>, n: nat, i: nat, lo: real, hi: real)
    requires |RT| == |hp| >= 1 && Rows(RT, n + 1) && Rows(hp, n + 1) && i <= n
    requires forall s :: 0 <= s < |RT| ==> lo <= RT[s][i] <= hi
    ensures lo <= DeltaCVaR(RT, hp, n)[i] <= hi
  {
    var w, g := Wealth(RT, hp), Wealth(RT, Bumped(hp, n, i));
    forall s | 0 <= s < |RT|
      ensures Sum(w[s]) + lo <= Sum(g[s]) <= Sum(w[s]) + hi
    {
      BumpedTotal(RT[s], hp[s], i);
    }
    Cvar.CVaRShiftBounds(w, g, lo, hi);
  }

  /** If column i of the stored returns is the same c in every row, ΔCVaR[i] = c. */
  lemma DeltaCVaROfConstantColumn(RT: seq<seq<real>>, hp: seq<seq<real>>, n: nat, i: nat, c: real)
    requires |RT| == |hp| >= 1 && Rows(RT, n + 1) && Rows(hp, n + 1) && i <= n
    requires forall s :: 0 <= s < |RT| ==> RT[s][i] == c
    ensures DeltaCVaR(RT, hp, n)[i] == c
  {
    DeltaCVaRBetween(RT, hp, n, i, c, c);
  }

  /** The terminal target (1 − γ)·RT[s] − γ·ΔCVaR over the rows 0..s. */
  function Terminal(RT: seq<seq<real>>, hp: seq<seq<real>>, n: nat, s: nat): (d: seq<real>)
    requires |RT| == |hp| && s < |RT| && Rows(RT, n + 1) && Rows(hp, n + 1)
    ensures |d| == n + 1
  {
    var dCVaR := DeltaCVaR(RT[..s + 1], hp[..s + 1], n);
    Add(Scale(1.0 - AdpParameters.Gamma, RT[s]), Scale(-AdpParameters.Gamma, dCVaR))
  }

  /**
   * The terminal target of component i lies between (1 − γ)·RT[s][i] − γ·hi
   * and (1 − γ)·RT[s][i] − γ·lo when the returns of i stored so far lie in
   * [lo, hi]; with a constant column c it is (1 − 2γ)·c.
   */
  lemma TerminalBounds(RT: seq<seq<real>>, hp: seq<seq<real>>, n: nat, s: nat, i: nat, lo: real, hi: real)
    requires |RT| == |hp| && s < |RT| && Rows(RT, n + 1) && Rows(hp, n + 1) && i <= n
    requires forall r :: 0 <= r <= s ==> lo <= RT[r][i] <= hi
    ensures 0.6 * RT[s][i] - 0.4 * hi <= Terminal(RT, hp, n, s)[i] <= 0.6 * RT[s][i] - 0.4 * lo
    ensures lo == hi ==> Terminal(RT, hp, n, s)[i] == 0.2 * lo
  {
    var rt, h := RT[..s + 1], hp[..s + 1];
    DeltaCVaRBetween(rt, h, n, i, lo, hi);
  }

  /* ---------------- Rolling one scenario forward ---------------- */

  /** What the solver leaves in m after solve: the next post-decision state, ΔV and (piecewise-linear) pi. */
  datatype Solution = Solution(hPlus: seq<real>, dV: seq<real>, pi: seq<int>)

  /** The solver keeps the shape of the state, and pi holds a segment of the grid for every asset. */
  ghost predicate Shaped<W(!new)>(solve: (seq<real>, seq<real>, W) -> Solution)
  {
    forall R, h, v :: |h| >= 1 ==> Fits(solve(R, h, v), |h|)
  }

  /**
   * Stages 1..t − 1 of one scenario, from the state h reached at stage 0:
   * stage u solves with draws[u − 1] and the value function V[u]. Gives
   * the state reached and the solutions of those stages in order.
   */
  function Forward<W(!new)>(solve: (seq<real>, seq<real>, W) -> Solution, V: seq<W>, h: seq<real>,
                            draws: seq<seq<real>>, t: nat): (r: (seq<real>, seq<Solution>))
    requires Shaped(solve) && |h| >= 1 && 1 <= t <= |V| && t <= |draws| + 1
    ensures |r.0| == |h| && |r.1| == t - 1
    ensures forall u :: 0 <= u < t - 1 ==> Fits(r.1[u], |h|)
  {
    if t == 1 then (h, [])
    else
      var prev := Forward(solve, V, h, draws, t - 1);
      var sol := solve(draws[t - 2], prev.0, V[t - 1]);
      (sol.hPlus, prev.1 + [sol])
  }

  /** Stage t of the scenario, from the state reached after stages 1..t − 1. */
  lemma ForwardStep<W(!new)>(solve: (seq<real>, seq<real>, W) -> Solution, V: seq<W>, h: seq<real>,
                             draws: seq<seq<real>>, t: nat, next: nat, g: seq<real>, sols: seq<Solution>)
    requires Shaped(solve) && |h| >= 1 && 1 <= t < |V| && t <= |draws| && next == t + 1
    requires (g, sols) == Forward(solve, V, h, draws, t)
    ensures Forward(solve, V, h, draws, next) == (solve(draws[t - 1], g, V[t]).hPlus, sols + [solve(draws[t - 1], g, V[t])])
  {
  }

  /** A solution for a state of length n + 1. */
  predicate Fits(sol: Solution, width: nat)
  {
    |sol.hPlus| == width && |sol.dV| == width && |sol.pi| + 1 == width
    && forall i :: 0 <= i < |sol.pi| ==> -(ValueFunction.M as int) <= sol.pi[i] < ValueFunction.M
  }

  /** ΔV of the linear updater: the stages' ΔV in rows 0..T − 2, the terminal target in row T − 1. */
  function Targets(sols: seq<Solution>, terminal: seq<real>): (D: seq<seq<real>>)
    ensures |D| == |sols| + 1 && D[|sols|] == terminal
    ensures forall u :: 0 <= u < |sols| ==> D[u] == sols[u].dV
  {
    seq(|sols| + 1, u requires 0 <= u <= |sols| => if u < |sols| then sols[u].dV else terminal)
  }

  /** (1 − α)·V + α·ΔV, row by row. */
  function BlendRows(V: seq<seq<real>>, D: seq<seq<real>>, alpha: real): (r: seq<seq<real>>)
    requires |V| == |D| && forall t :: 0 <= t < |V| ==> |V[t]| == |D[t]|
    ensures |r| == |V| && forall t :: 0 <= t < |V| ==> r[t] == Blend(V[t], D[t], alpha)
  {
    seq(|V|, t requires 0 <= t < |V| => Blend(V[t], D[t], alpha))
  }

  /** A blended linear value function values every state at the blend of the two values. */
  lemma BlendedValue(V: seq<real>, D: seq<real>, alpha: real, h: seq<real>)
    requires |V| == |D| == |h|
    ensures ValueFunction.LinearValue(Blend(V, D, alpha), h)
         == (1.0 - alpha) * ValueFunction.LinearValue(V, h) + alpha * ValueFunction.LinearValue(D, h)
  {
    var a, b := Scale(1.0 - alpha, V), Scale(alpha, D);
    DotSymmetric(Add(a, b), h);
    DotAdd(h, a, b);
    DotScale(h, 1.0 - alpha, V);
    DotScale(h, alpha, D);
    DotSymmetric(V, h);
    DotSymmetric(D, h);
  }

  /** A step of 0 keeps V; a step of 1 replaces it by the targets. */
  lemma BlendExtremes(V: seq<real>, D: seq<real>)
    requires |V| == |D|
    ensures Blend(V, D, 0.0) == V && Blend(V, D, 1.0) == D
  {
  }

  /* ---------------- The updaters ---------------- */

  /** The S × (N + 1) buffer with cash = init in every row (h_plus of the constructor). */
  function InitialStates(n: nat): (hp: seq<seq<real>>)
    ensures |hp| == AdpParameters.S && Rows(hp, n + 1)
    ensures forall s :: 0 <= s < AdpParameters.S ==> hp[s][0] == AdpParameters.Init
    ensures forall s, i :: 0 <= s < AdpParameters.S && 1 <= i <= n ==> hp[s][i] == 0.0
  {
    seq(AdpParameters.S, s => Zeros(n + 1)[0 := AdpParameters.Init])
  }

  /** LValueFunctionUpdater: T linear value functions, one row of slopes each. */
  class LValueFunctionUpdater {
    var V: seq<seq<real>>
    const solve: (seq<real>, seq<real>, seq<real>) -> Solution
    var hPlus: seq<seq<real>>
    var RT: seq<seq<real>>
    var counter: nat
    const n: nat

    ghost predicate Valid()
      reads this
    {
      |V| == AdpParameters.T && Rows(V, n + 1) && Shaped(solve)
      && |hPlus| == |RT| == AdpParameters.S && Rows(hPlus, n + 1) && Rows(RT, n + 1)
    }

    /** ValueFunctionUpdater.__init__. */
    constructor (V: seq<seq<real>>, solve: (seq<real>, seq<real>, seq<real>) -> Solution, n: nat)
      requires |V| == AdpParameters.T && Rows(V, n + 1) && Shaped(solve)
      ensures Valid() && this.V == V && this.solve == solve && this.n == n
      ensures hPlus == InitialStates(n) && RT == seq(AdpParameters.S, s => Zeros(n + 1)) && counter == 0
    {
      this.V := V;
      this.solve := solve;
      this.n := n;
      hPlus := InitialStates(n);
      RT := seq(AdpParameters.S, s => Zeros(n + 1));
      counter := 0;
    }

    /**
     * __next__: scenario s = counter. Only row s of h_plus and of RT
     * changes, and V moves towards the stage ΔVs and the terminal target.
     */
    method Next(draws: seq<seq<real>>, alpha: nat -> real)
      requires Valid() && counter < AdpParameters.S
      requires |draws| == AdpParameters.T && Rows(draws, n + 1)
      modifies this
      ensures Valid() && counter == old(counter) + 1
      ensures RT == old(RT)[old(counter) := draws[AdpParameters.T - 1]]
      ensures var start := solve(Ones(n + 1), old(hPlus)[old(counter)], old(V)[0]);
              var run := Forward(solve, old(V), start.hPlus, draws, AdpParameters.T);
              && hPlus == old(hPlus)[old(counter) := run.0]
              && V == BlendRows(old(V), Targets(run.1, Terminal(RT, hPlus, n, old(counter))), alpha(old(counter)))
    {
      var s := counter;
      var dV := seq(AdpParameters.T, t => Zeros(n + 1));
      var start := solve(Ones(n + 1), hPlus[s], V[0]);
      var h := start.hPlus;
      ghost var sols: seq<Solution> := [];
      var t := 1;
      while t < AdpParameters.T
        invariant 1 <= t <= AdpParameters.T && unchanged(this)
        invariant (h, sols) == Forward(solve, V, start.hPlus, draws, t)
        invariant |dV| == AdpParameters.T && Rows(dV, n + 1)
        invariant forall u :: 0 <= u < t - 1 ==> dV[u] == sols[u].dV
      {
        var sol := solve(draws[t - 1], h, V[t]);
        ForwardStep(solve, V, start.hPlus, draws, t, t + 1, h, sols);
        h := sol.hPlus;
        dV := dV[t - 1 := sol.dV];
        sols := sols + [sol];
        t := t + 1;
      }
      counter := counter + 1;
      hPlus := hPlus[s := h];
      RT := RT[s := draws[AdpParameters.T - 1]];
      var terminal := Terminal(RT, hPlus, n, s);
      dV := dV[AdpParameters.T - 1 := terminal];
      assert dV == Targets(sols, terminal);
      V := BlendRows(V, dV, alpha(s));
    }
  }

  /** The read-only view of a piecewise-linear value function that the solver sees. */
  datatype View = View(slopes: seq<seq<real>>, cash: real, a: seq<seq<real>>)

  function ViewOf(f: ValueFunction.PWLinearValueFunction): View
    reads f
  {
    View(f.slopes, f.cash, f.a)
  }

  function ViewsOf(fs: seq<ValueFunction.PWLinearValueFunction>): (vs: seq<View>)
    reads set f | f in fs
    ensures |vs| == |fs| && forall t :: 0 <= t < |fs| ==> vs[t] == ViewOf(fs[t])
  {
    if |fs| == 0 then [] else [ViewOf(fs[0])] + ViewsOf(fs[1..])
  }

  /** The effect of update(ΔV, pi, alpha) on a view. */
  function UpdatedView(v: View, dV: seq<real>, pi: seq<int>, alpha: real): View
    requires ValueFunction.IsMatrix(v.slopes, ValueFunction.M, |pi|) && |dV| == |pi| + 1
    requires forall i :: 0 <= i < |pi| ==> -(ValueFunction.M as int) <= pi[i] < ValueFunction.M
  {
    View(ValueFunction.UpdatedSlopes(v.slopes, dV, pi, alpha), (1.0 - alpha) * v.cash + alpha * dV[0], v.a)
  }

  /** The asset-by-asset segment mask of the terminal update: segment i for asset i. */
  function Diagonal(n: nat): (pi: seq<int>)
    requires n <= ValueFunction.M
    ensures |pi| == n && forall i :: 0 <= i < n ==> pi[i] == i
  {
    seq(n, i => i)
  }

  /** The masks of the updates: the stages' pi, then the diagonal mask. */
  function Masks(sols: seq<Solution>, n: nat): (pis: seq<seq<int>>)
    requires n <= ValueFunction.M
    ensures |pis| == |sols| + 1 && pis[|sols|] == Diagonal(n)
    ensures forall u :: 0 <= u < |sols| ==> pis[u] == sols[u].pi
  {
    seq(|sols| + 1, u requires 0 <= u <= |sols| => if u < |sols| then sols[u].pi else Diagonal(n))
  }

  /** Every view has M × n slopes. */
  predicate ViewsShaped(views: seq<View>, n: nat)
  {
    forall t :: 0 <= t < |views| ==> ValueFunction.IsMatrix(views[t].slopes, ValueFunction.M, n)
  }

  /** The views after the first |sols| value functions were updated with the stages' solutions. */
  function Progress(views: seq<View>, sols: seq<Solution>, n: nat, alpha: real): (r: seq<View>)
    requires ViewsShaped(views, n) && |sols| <= |views|
    requires forall u :: 0 <= u < |sols| ==> Fits(sols[u], n + 1)
    ensures |r| == |views|
  {
    seq(|views|, t requires 0 <= t < |views| =>
      if t < |sols| then
        assert Fits(sols[t], n + 1) && ValueFunction.IsMatrix(views[t].slopes, ValueFunction.M, n);
        UpdatedView(views[t], sols[t].dV, sols[t].pi, alpha)
      else views[t])
  }

  lemma ProgressStep(views: seq<View>, sols: seq<Solution>, sol: Solution, n: nat, alpha: real, sols': seq<Solution>)
    requires ViewsShaped(views, n) && |sols| < |views|
    requires forall u :: 0 <= u < |sols| ==> Fits(sols[u], n + 1)
    requires Fits(sol, n + 1) && sols' == sols + [sol]
    ensures Progress(views, sols', n, alpha)
         == Progress(views, sols, n, alpha)[|sols| := UpdatedView(Progress(views, sols, n, alpha)[|sols|], sol.dV, sol.pi, alpha)]
  {
  }

  lemma ProgressDone(views: seq<View>, sols: seq<Solution>, terminal: seq<real>, n: nat, alpha: real)
    requires ViewsShaped(views, n) && |sols| + 1 == |views| && n <= ValueFunction.M && |terminal| == n + 1
    requires forall u :: 0 <= u < |sols| ==> Fits(sols[u], n + 1)
    ensures Progress(views, sols, n, alpha)[|sols| := UpdatedView(Progress(views, sols, n, alpha)[|sols|], terminal, Diagonal(n), alpha)]
         == AllUpdated(views, Targets(sols, terminal), Masks(sols, n), n, alpha)
  {
  }

  /** The views after every value function was updated: with the targets D and the masks pis. */
  function AllUpdated(views: seq<View>, D: seq<seq<real>>, pis: seq<seq<int>>, n: nat, alpha: real): (r: seq<View>)
    requires ViewsShaped(views, n) && |D| == |pis| == |views|
    requires forall t :: 0 <= t < |views| ==> |D[t]| == n + 1 && |pis[t]| == n
    requires forall t, i :: 0 <= t < |views| && 0 <= i < n ==> -(ValueFunction.M as int) <= pis[t][i] < ValueFunction.M
    ensures |r| == |views|
  {
    seq(|views|, t requires 0 <= t < |views| => UpdatedView(views[t], D[t], pis[t], alpha))
  }

  /** PWLValueFunctionUpdater: T piecewise-linear value functions, updated in place. */
  class PWLValueFunctionUpdater {
    var V: seq<ValueFunction.PWLinearValueFunction>
    const solve: (seq<real>, seq<real>, View) -> Solution
    var hPlus: seq<seq<real>>
    var RT: seq<seq<real>>
    var counter: nat
    const n: nat

    ghost predicate Valid()
      reads this, V
    {
      |V| == AdpParameters.T && n <= ValueFunction.M && Shaped(solve)
      && (forall t :: 0 <= t < |V| ==> V[t].Valid() && V[t].n == n)
      && (forall t, u :: 0 <= t < u < |V| ==> V[t] != V[u])
      && |hPlus| == |RT| == AdpParameters.S && Rows(hPlus, n + 1) && Rows(RT, n + 1)
    }

    /** ValueFunctionUpdater.__init__. */
    constructor (V: seq<ValueFunction.PWLinearValueFunction>, solve: (seq<real>, seq<real>, View) -> Solution, n: nat)
      requires |V| == AdpParameters.T && n <= ValueFunction.M && Shaped(solve)
      requires forall t :: 0 <= t < |V| ==> V[t].Valid() && V[t].n == n
      requires forall t, u :: 0 <= t < u < |V| ==> V[t] != V[u]
      ensures Valid() && this.V == V && this.solve == solve && this.n == n
      ensures hPlus == InitialStates(n) && RT == seq(AdpParameters.S, s => Zeros(n + 1)) && counter == 0
    {
      this.V := V;
      this.solve := solve;
      this.n := n;
      hPlus := InitialStates(n);
      RT := seq(AdpParameters.S, s => Zeros(n + 1));
      counter := 0;
    }

    /** The views of all T value functions. */
    ghost function Views(): (vs: seq<View>)
      reads this, V
      requires Valid()
      ensures |vs| == AdpParameters.T && ViewsShaped(vs, n)
    {
      ViewsOf(V)
    }

    /** V[u].update(ΔV, pi, alpha): only the value function u changes. */
    method UpdateStage(u: nat, dV: seq<real>, pi: seq<int>, alpha: real)
      requires Valid() && u < AdpParameters.T && |dV| == n + 1 && |pi| == n
      requires forall i :: 0 <= i < n ==> -(ValueFunction.M as int) <= pi[i] < ValueFunction.M
      modifies V[u]
      ensures Valid() && Views() == old(Views())[u := UpdatedView(old(Views())[u], dV, pi, alpha)]
    {
      ghost var before := Views();
      V[u].Update(dV, pi, alpha);
      forall w | 0 <= w < AdpParameters.T
        ensures Views()[w] == before[u := UpdatedView(before[u], dV, pi, alpha)][w]
      {
        if w != u {
          assert V[w] != V[u];
        }
      }
    }

    /**
     * Stages 0..T − 1 of scenario s: V[t] is used at stage t, then V[t − 1]
     * is updated with the solution of stage t.
     */
    method Rollout(s: nat, draws: seq<seq<real>>, alpha: real) returns (h: seq<real>, ghost sols: seq<Solution>)
      requires Valid() && s < AdpParameters.S
      requires |draws| == AdpParameters.T && Rows(draws, n + 1)
      modifies V
      ensures Valid() && |sols| == AdpParameters.T - 1
      ensures (h, sols) == Forward(solve, old(Views()), solve(Ones(n + 1), hPlus[s], old(Views())[0]).hPlus,
                                   draws, AdpParameters.T)
      ensures Views() == Progress(old(Views()), sols, n, alpha)
    {
      ghost var views := Views();
      var start := solve(Ones(n + 1), hPlus[s], ViewOf(V[0]));
      h := start.hPlus;
      sols := [];
      var t := 1;
      while t < AdpParameters.T
        invariant 1 <= t <= AdpParameters.T && Valid()
        invariant (h, sols) == Forward(solve, views, start.hPlus, draws, t)
        invariant Views() == Progress(views, sols, n, alpha)
      {
        h, sols := Stage(t, views, start.hPlus, draws, alpha, h, sols);
        t := t + 1;
      }
    }

    /** Stage t: solve with V[t] from h, then update V[t − 1] with the solution. */
    method Stage(t: nat, ghost views: seq<View>, start: seq<real>, draws: seq<seq<real>>, alpha: real,
                 h: seq<real>, ghost sols: seq<Solution>) returns (h': seq<real>, ghost sols': seq<Solution>)
      requires Valid() && 1 <= t < AdpParameters.T && |draws| == AdpParameters.T && Rows(draws, n + 1)
      requires |views| == AdpParameters.T && ViewsShaped(views, n) && |start| == n + 1
      requires (h, sols) == Forward(solve, views, start, draws, t)
      requires Views() == Progress(views, sols, n, alpha)
      modifies V
      ensures Valid() && (h', sols') == Forward(solve, views, start, draws, t + 1)
      ensures Views() == Progress(views, sols', n, alpha)
    {
      var sol := solve(draws[t - 1], h, ViewOf(V[t]));
      ForwardStep(solve, views, start, draws, t, t + 1, h, sols);
      sols' := sols + [sol];
      ProgressStep(views, sols, sol, n, alpha, sols');
      h' := sol.hPlus;
      UpdateStage(t - 1, sol.dV, sol.pi, alpha);
    }

    /** Records the scenario's final post-decision state and terminal returns in row s, and advances the counter. */
    method Store(s: nat, h: seq<real>, r: seq<real>)
      requires Valid() && s < AdpParameters.S && |h| == |r| == n + 1
      modifies this
      ensures Valid() && V == old(V) && Views() == old(Views())
      ensures counter == old(counter) + 1 && hPlus == old(hPlus)[s := h] && RT == old(RT)[s := r]
    {
      counter := counter + 1;
      hPlus := hPlus[s := h];
      RT := RT[s := r];
    }

    /**
     * __next__: scenario s = counter. V[t − 1] is updated with the solution
     * of stage t, after V[t] has been used; V[T − 1] with the terminal
     * target on the diagonal mask. The source writes row s of h_plus after
     * every stage; only its last value remains.
     */
    method Next(draws: seq<seq<real>>, alpha: nat -> real)
      requires Valid() && counter < AdpParameters.S
      requires |draws| == AdpParameters.T && Rows(draws, n + 1)
      modifies this, V
      ensures Valid() && V == old(V) && counter == old(counter) + 1
      ensures RT == old(RT)[old(counter) := draws[AdpParameters.T - 1]]
      ensures var run := Forward(solve, old(Views()), solve(Ones(n + 1), old(hPlus)[old(counter)], old(Views())[0]).hPlus,
                                 draws, AdpParameters.T);
              && hPlus == old(hPlus)[old(counter) := run.0]
              && Views() == AllUpdated(old(Views()), Targets(run.1, Terminal(RT, hPlus, n, old(counter))),
                                       Masks(run.1, n), n, alpha(old(counter)))
    {
      var s := counter;
      ghost var views := Views();
      var h, sols := Rollout(s, draws, alpha(s));
      Store(s, h, draws[AdpParameters.T - 1]);
      var terminal := Terminal(RT, hPlus, n, s);
      ProgressDone(views, sols, terminal, n, alpha(s));
      UpdateStage(AdpParameters.T - 1, terminal, Diagonal(n), alpha(s));
    }
  }
}
