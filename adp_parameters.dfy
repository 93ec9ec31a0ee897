/** The parameters of adp/parameters.py, imported by the inspection solvers, the transition and the CVaR estimator. */
module AdpParameters {
  const Init: real := 10000000.0   // initial amount (10e6)
  const Beta: real := 0.9          // CVaR level
  const Theta: real := 0.005       // proportional transaction cost
  const Gamma: real := 0.4         // risk aversion
  const S: nat := 100              // training scenarios
  const T: nat := 50               // rebalancing periods

  /**
   * The factors paid per unit bought and received per unit sold. The models
   * write them as the literals 1.005 and 0.995, which keeps their products
   * linear for the solver.
   */
  lemma CostFactors()
    ensures 1.0 + Theta == 1.005 && 1.0 - Theta == 0.995
  {
  }
}
