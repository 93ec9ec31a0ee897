/**
 * The top-level parameters of parameters.py: capital, cost rate, CVaR level,
 * horizon, the per-asset cap of the bounded solver, the step-size schedule
 * and the fixed breakpoint grid of the piecewise-linear value function.
 */
module Parameters {

  const Init: real := 100000.0   // initial amount (1e5)
  const Theta: real := 0.002     // proportional transaction cost
  const Beta: real := 0.95       // CVaR level
  const S: nat := 4000           // training scenarios
  const T: nat := 52             // rebalancing periods

  const W: real := 0.5           // maximal investment fraction
  const W0: real := W * Init     // per-asset cap of the bounded solver

  const K: real := 500.0         // step-size constant
  const M: nat := 11             // number of breakpoints per asset

  /** The step-size schedule alpha(s) = k / (k + s). */
  function Alpha(s: nat): (r: real)
    ensures 0.0 < r <= 1.0
    ensures s == 0 ==> r == 1.0
  {
    K / (K + s as real)
  }

  /** The schedule is strictly decreasing (k > 0). */
  lemma AlphaDecreasing(s: nat, t: nat)
    requires s < t
    ensures Alpha(t) < Alpha(s)
  {
    var ds, dt := K + s as real, K + t as real;
    assert 0.0 < ds < dt;
    assert K / dt < K / ds by {
      assert K / dt * dt == K;
      assert K / ds * ds == K;
      assert K / dt * ds < K / dt * dt;
    }
  }

  /** numpy's linspace(0, init, M): M equally spaced breakpoints from 0 to init. */
  function Grid(): (a: seq<real>)
    ensures |a| == M
    ensures a[0] == 0.0 && a[M - 1] == Init
    ensures forall j :: 0 <= j < M - 1 ==> a[j + 1] - a[j] == Init / (M - 1) as real
  {
    seq(M, j => j as real * (Init / (M - 1) as real))
  }

  /** The cap is half the initial amount. */
  lemma CapIsHalfInit()
    ensures W0 == Init / 2.0 && 0.0 < W0 < Init
  {
  }
}
