# ADP portfolio rebalancing, modelled in Dafny

This project models the core of an Approximate Dynamic Programming (ADP)
engine for multi-period portfolio selection, and proves properties of it.

- **State.** A portfolio state `h` holds the cash `h[0]` and one holding
  `h[i]` per asset. A decision buys `x` and sells `y`, paying a
  proportional transaction cost θ.
- **Value functions.** A value function `V` scores post-decision states.
  It is either linear (one slope per component) or piecewise linear over a
  fixed grid of breakpoints (one slope per segment and asset).
- **Solvers by inspection.** These solvers pick trades from the slopes in
  closed form: sell what is worth more as cash, put the cash into the best
  buy, then sell to buy.
- **Training drivers.** They roll one scenario forward through T stages.
  They record the terminal returns, estimate the sensitivity of the
  empirical CVaR to one more unit of each component, and move every value
  function towards the observed targets with a step size alpha(s).
- **Risk helpers.** Alongside the engine are the MAD, SemiMAD and worst
  return of a portfolio, a triangular kernel and the empirical CDF.

All quantities are reals. The two parameter files are modules of
constants:

- `Parameters` (`parameters.py`): capital 1e5, θ = 0.002, β = 0.95,
  S = 4000, T = 52, cap w0 = 0.5·init, step size k/(k + s) with k = 500,
  M = 11 breakpoints.
- `AdpParameters` (`adp/parameters.py`): capital 10e6, θ = 0.005,
  β = 0.9, γ = 0.4, S = 100, T = 50.

Each model module uses the constants its source file imports. Cost
factors are written as literals (1.005/0.995 and 1.002/0.998), and
`CostFactors` ties them to θ.

The modules follow the source files:

| module | source |
|---|---|
| `Transition` | `adp/transition.py` (`ft(h, x, y)`) |
| `ReturnTransition` | `adp.py` (`ft(h, R, x, y)`) |
| `Inspection` | the linear inspection rule as functions: slopes, best buy, sales and purchases |
| `Ladp` | `adp/ladp.py` (`LADP`, imperative, proved against `Inspection`) |
| `LadpInspection` | `adp/ladp/inspection.py` (`LADP` and `LADPInspectionModel.solve`, the finite-difference ΔV) |
| `LadpUb` | `adp/ladp_ub/inspection.py` (`LADPUB`, the capped solver) |
| `PwlInspection` | `adp/pwladp/inspection.py` (`step` at segment level, and `solve`'s `pi`) |
| `ValueFunction` | `adp/value_function.py` |
| `Cvar` | `adp/cvar.py` |
| `Updater` | `adp/updater.py` |
| `LadpUpdater` | `adp/ladp/updater.py` |
| `Trainer` | `adp/pwladp/trainer.py` |
| `Portfolio` | `entities/portfolio.py` (`MAD`, `SemiMAD`, `WorstReturn`) |
| `Kernel` | `K` of `generator.py` and `linear/scenarios.py` |
| `Ecdf` | `ecdf` of `linear/scenarios.py` and `plot_test/scenarios.py` |
| `Vectors`, `Sorting`, `Options` | shared helpers |

Code that changes state in place is imperative Dafny:

- the inspection solvers fill arrays and overwrite the cash;
- `PWLinearValueFunction.update` is a class method;
- the updaters and the trainer are classes whose buffers grow or whose
  rows are rewritten;
- the training memory is a class.

Each such method is proved against a function that defines its result, and the
properties are proved about that function.

The LP solver, the scenario generator and the in-place update of value
functions whose source is not shown are parameters:

- the solver is a function, and may fail;
- the generator is the sequence of returns it would draw;
- the update is a function from the old value function to the new one.

`PwlInspection.Offered` models `i_star_idx` as numpy computes it: the
third positional argument of `np.logical_and` is its output buffer, so
the profitability condition on that line takes no part in the mask.

## Model

| member | source | states |
|---|---|---|
| Transition.FtCostWealth | adp/transition.py:15-17 | For any cost rate, total wealth after the transition is the total before minus the rate times the traded volume Σx + Σy |
| Transition.FtCost | adp/transition.py:15-17 | The transition for a cost rate θ: asset i becomes h_i + x_i − y_i and the cash h_0 − (1 + θ)Σx + (1 − θ)Σy; the state keeps its length |
| Transition.Ft | adp/transition.py:7-18 | ft(h, x, y) is that transition at θ = 0.005, the post-decision state h_plus |
| Transition.FtWealth | adp/transition.py:16-17 | Σ ft(h, x, y) = Σh − θ(Σx + Σy) |
| Transition.FtConservesWithoutCost | adp/transition.py:16-17 | With θ = 0, trading conserves the sum of all components |
| Transition.FtComponents | adp/transition.py:16-17 | Asset i moves by exactly x_i − y_i and depends on no other trade; cash falls by 1 + θ per unit bought and rises by 1 − θ per unit sold |
| Transition.FtNoTrade | adp/transition.py:15-17 | Zero trades give back h |
| Transition.FtAssetsNonNegative | adp/transition.py:16 | With x ≥ 0 and y_i ≤ h_i, every asset of the result is ≥ 0 |
| Transition.FtBuyMore | adp/transition.py:16-17 | Buying b more units of asset j costs (1 + θ)b cash and adds b to that holding, nothing else |
| ReturnTransition.FtRIsFtOfGrowth | adp.py:37-39 | Asset i is R_i h_i + x_i − y_i and cash is R_0 h_0 − (1 + θ)Σx + (1 − θ)Σy: the trade-only transition applied to R ⊙ h |
| ReturnTransition.FtR | adp.py:27-40 | ft(h, R, x, y): asset i becomes R_i h_i + x_i − y_i and the cash R_0 h_0 − (1 + θ)Σx + (1 − θ)Σy |
| ReturnTransition.FtRWealth | adp.py:38-39 | Σ ft(h, R, x, y) = Σ(R ⊙ h) − θ(Σx + Σy) |
| ReturnTransition.FtRWithUnitReturns | adp.py:27-40 | With every gross return equal to 1 it coincides with the trade-only ft(h, x, y) |
| AdpParameters.CostFactors | adp/parameters.py:6 | 1 + θ = 1.005 and 1 − θ = 0.995 |
| Inspection.BuySlopes | adp/ladp.py:26 | Buying slopes k_i = u_{i+1} − (1 + θ)u_0 |
| Inspection.SellSlopes | adp/ladp.py:27 | Selling slopes l_i = −u_{i+1} + (1 − θ)u_0 |
| Inspection.ArgMaxIsMax | adp/ladp.py:30 | The argmax is a largest entry, and no earlier entry is as large |
| Inspection.BestBuy | adp/ladp.py:30 | When defined, the best buy is an asset index with a positive buying slope |
| Inspection.BestBuyIsBest | adp/ladp.py:30 | A best buy exists exactly when some k_i > 0, and it is the first index of the largest k |
| Inspection.SellSetsDisjoint | adp/ladp.py:31-35 | The sell set I (l > 0) and the sell-to-buy set J (l ≤ 0) share no asset |
| Inspection.Sales | adp/ladp.py:29-50 | y_i is the whole holding h_{i+1} when asset i is in the sell set I, or in the sell-to-buy set J of an existing best buy, and 0 otherwise |
| Inspection.Buys | adp/ladp.py:42-50 | x = 0 without a best buy; with best buy j*, only x_{j*} is non-zero and equals (h_0 + (1 − θ)Σy)/(1 + θ) |
| Inspection.SalesAllOrNothing | adp/ladp.py:37-50 | Every y_i is 0 or the whole holding h_{i+1}, and only held assets are sold |
| Inspection.SalesBounded | adp/ladp.py:37-50 | 0 ≤ y_i ≤ holding |
| Inspection.AtMostOneBuy | adp/ladp.py:42-50 | Only the best buy can have a non-zero purchase |
| Inspection.CashExhausted | adp/ladp/inspection.py:35-50 | With a best buy, (1 + θ)Σx = h_0 + (1 − θ)Σy: the post-decision cash is exactly 0 |
| Inspection.NoBestBuy | adp/ladp.py:30-40 | With no k_i > 0, x = 0 and only the sell set I is sold |
| Ladp.SellStep | adp/ladp.py:37-40 | Step 1 on arrays: y_i = h_{i+1} on the sell set and 0 elsewhere, and returns Σy |
| Ladp.SellToBuyStep | adp/ladp.py:47-50 | Step 3 on arrays: sells every sell-to-buy asset in full, leaving the other sales unchanged, and returns what it sold |
| Ladp.BuyBest | adp/ladp.py:42-50 | Steps 2 and 3: the cash is set to 0 and x = h_0/(1 + θ) + (1 − θ)/(1 + θ)·(units sold to buy) at the best buy |
| Ladp.StepsGiveSales | adp/ladp.py:37-50 | The sales of step 1 followed by those of step 3 are the sales of the rule |
| Ladp.SellsToBuyIgnoresCash | adp/ladp.py:34-35 | Membership of J does not depend on the cash, so computing J before step 2 (adp/ladp.py) or after it (adp/ladp/inspection.py) gives the same set |
| Ladp.BuyTotal | adp/ladp.py:44-50 | Buying with the cash and then with the sell-to-buy proceeds gives the purchase of the rule |
| Ladp.LADP | adp/ladp.py:10-52 | On h = h_plus ⊙ R, the purchases and sales are those of the inspection rule |
| LadpInspection.LADP | adp/ladp/inspection.py:9-52 | On h = h_plus ⊙ R, the purchases and sales are those of the inspection rule |
| LadpInspection.LadpInspectionModel.constructor | adp/ladp/inspection.py:58-62 | x, y, h_plus and ΔV start unset |
| LadpInspection.LadpInspectionModel.Solve | adp/ladp/inspection.py:64-81 | Stores the unperturbed decision, the next state ft(h_plus, R, x, y), and ΔV_i = V(next state from h_plus + e_i) − V(next state) for i = 0..N |
| LadpInspection.NoTradeNextState | adp/ladp/inspection.py:76-79 | When no slope calls for a trade, the next state is R ⊙ h_plus |
| LadpInspection.NextState | adp/ladp/inspection.py:75-79 | The post-decision state ft(h_plus, R, x, y) of the inspection decision on R ⊙ h_plus |
| LadpInspection.DeltaV | adp/ladp/inspection.py:72-80 | ΔV_i = V·NextState(h_plus + e_i) − V·NextState(h_plus), one entry per component |
| LadpInspection.DeltaVWithoutTrades | adp/ladp/inspection.py:73-80 | In that case ΔV_i = R_i·V_i |
| LadpUb.CapSalesSets | adp/ladp_ub/inspection.py:36-45 | Sales are ≥ 0, and non-zero exactly on I (l > 0, held) and on F (l ≤ 0, above the cap) |
| LadpUb.CapSales | adp/ladp_ub/inspection.py:36-45 | y_i = h_{i+1} on the sell set I (l > 0, held), h_{i+1} − w0 on the forced-sell set F (l ≤ 0, above w0), and 0 elsewhere |
| LadpUb.AfterSalesHoldings | adp/ladp_ub/inspection.py:36-47 | After both sell steps an I asset holds 0, and an asset with l ≤ 0 holds min(holding, w0) |
| LadpUb.AfterSalesCash | adp/ladp_ub/inspection.py:47 | The cash is credited (1 − θ)Σy once, after both sell steps |
| LadpUb.SoldState | adp/ladp_ub/inspection.py:36-47 | The state after the sell steps is ft(h, 0, y) |
| LadpUb.SellSteps | adp/ladp_ub/inspection.py:36-47 | The array form of the sell steps writes the sales of CapSales and reduces the holdings by them, leaving the cash for the credit |
| LadpUb.BestBelowIsBest | adp/ladp_ub/inspection.py:50-52 | A best candidate exists exactly when some asset has k > 0 and holds less than w0, and it is the first candidate of largest k |
| LadpUb.CountAfterFill | adp/ladp_ub/inspection.py:55-58 | Filling a candidate up to the cap removes exactly that candidate |
| LadpUb.BuyLoopFills | adp/ladp_ub/inspection.py:53-62 | A fill strictly reduces the candidates, then ends the loop or continues from the next best candidate |
| LadpUb.BuyLoop | adp/ladp_ub/inspection.py:53-67 | From best candidate j*: if the fill test passes, fill j* up to w0 at (1 + θ) per unit and continue from the next best candidate or stop; otherwise buy h_0/(1 + θ) of j*, zero the cash and stop |
| LadpUb.BuyLoopSpends | adp/ladp_ub/inspection.py:63-67 | The else branch buys h_0/(1 + θ) of j*, sets the cash to 0 and ends the loop |
| LadpUb.Fill | adp/ladp_ub/inspection.py:55-57 | Buys asset j up to w0 and pays (1 + θ) per unit |
| LadpUb.Spend | adp/ladp_ub/inspection.py:64-66 | Buys asset j with all the cash and sets the cash to 0 |
| LadpUb.BuySteps | adp/ladp_ub/inspection.py:53-67 | The while loop on arrays ends in the state and purchases of the buy loop as written |
| LadpUb.FillIsTrade | adp/ladp_ub/inspection.py:55-57 | A fill is one more trade of the transition ft |
| LadpUb.SpendIsTrade | adp/ladp_ub/inspection.py:64-66 | The final purchase is one more trade of the transition ft |
| LadpUb.FillKeepsBought | adp/ladp_ub/inspection.py:55-58 | An asset already bought stays out of the candidates after a fill |
| LadpUb.BuyLoopIsTransition | adp/ladp_ub/inspection.py:53-67 | Every state of the buy loop is ft(h, x, y) for the trades made so far |
| LadpUb.BuyLoopBuysCandidates | adp/ladp_ub/inspection.py:50-62 | Only assets with k > 0 are bought |
| LadpUb.BuyLoopStops | adp/ladp_ub/inspection.py:53-67 | The loop ends only with the cash spent or no candidate left |
| LadpUb.CapDecisionIsTransition | adp/ladp_ub/inspection.py:9-69 | The final state of the rule is ft(h, x, y) of its decision, so wealth is lost only to costs |
| LadpUb.CapDecision | adp/ladp_ub/inspection.py:9-69 | The capped rule on h: the sales CapSales, the cash credited once, then the buy loop from the best candidate when there is one; gives the final state, x and y |
| LadpUb.LADPUB | adp/ladp_ub/inspection.py:9-69 | On h = h_plus ⊙ R with cap w0, the trades are those of the capped rule as written |
| LadpUb.CorrectedBuyLoopWithinCap | adp/ladp_ub/inspection.py:53-67 | With the fill test on h[j* + 1], the loop keeps the cash ≥ 0 and every holding ≤ w0 |
| LadpUb.CorrectedDecisionWithinCap | adp/ladp_ub/inspection.py:36-67 | With the corrected test, a cash ≥ 0 and a cap ≥ 0 give a final state within the cap and with cash ≥ 0 |
| LadpUb.AsWrittenOverspends | adp/ladp_ub/inspection.py:54 | With one asset, w0 = 50000, cash 40000 and holding 0, the rule as written buys 50000 and ends with cash −10250, while the corrected rule buys 40000/1.005 and ends with cash 0 |
| PwlInspection.CostFactors | parameters.py:4 | 1 + θ = 1.002 and 1 − θ = 0.998 |
| PwlInspection.BestBeforeIsBest | adp/pwladp/inspection.py:52 | The argmax over the masked entries of a row-major prefix is none exactly when no entry is masked, and otherwise the first masked entry of largest value |
| PwlInspection.FirstBestIsBest | adp/pwladp/inspection.py:50-52 | np.argmax of k over the candidate segments: none exactly when there is no candidate, otherwise a largest candidate, the first in row-major order |
| PwlInspection.CapsNonNegative | adp/pwladp/inspection.py:26-28 | On a grid ascending from 0, every finite segment capacity a[j+1] − a[j] is ≥ 0 (the last is unbounded) |
| PwlInspection.SegmentFills | adp/pwladp/inspection.py:31-33 | Segments below pi_i are full, segment pi_i holds x_i − a[pi_i], and later ones are empty |
| PwlInspection.HTilde | adp/pwladp/inspection.py:30-33 | h_tidle: segment pi_i of asset i holds x_i − a[pi_i], the other segments whose breakpoint is ≤ x_i hold their capacity a[j+1] − a[j], and the rest 0 |
| PwlInspection.FillsSumToPosition | adp/pwladp/inspection.py:31-33 | Per asset, the segment fills add up to the position |
| PwlInspection.Sold | adp/pwladp/inspection.py:43-45 | Step 1 sells, in full, exactly the segments with l > 0 and a positive fill |
| PwlInspection.CountAfterFill | adp/pwladp/inspection.py:50-55 | Filling a finite candidate segment to capacity removes exactly that candidate |
| PwlInspection.TotalOfAssign | adp/pwladp/inspection.py:54 | Adding d to one segment adds d to the total |
| PwlInspection.SumOfColumnSums | adp/pwladp/inspection.py:84-85 | The per-asset totals of x and y add up to the segment totals |
| PwlInspection.Step2Fills | adp/pwladp/inspection.py:49-61 | When the cash covers one fill of the best segment, step 2 as written ends with cash 0 and x of that segment set to the cash left by the repeated fills, divided by 1 + θ |
| PwlInspection.Step2 | adp/pwladp/inspection.py:48-61 | Step 2 as written: with a best buy j* whose gap the cash c covers, x[j*] is set to FillLoop(c, gap)/(1 + θ), the cash left after paying for the same gap on every pass; otherwise x[j*] is set to c/(1 + θ); the cash becomes 0. Without a best buy nothing changes |
| PwlInspection.FillLoopCash | adp/pwladp/inspection.py:49-58 | The repeated fills pay (1 + θ)·gap on every pass, and leave at most one fill's cost |
| PwlInspection.FillLoopLoses | adp/pwladp/inspection.py:53-58 | After at least one pass the cash left is short of the cash at the start by at least one fill |
| PwlInspection.AsWrittenStep2Loses | adp/pwladp/inspection.py:49-61 | As written, once the cash covers one fill, step 2 sets the cash to 0 while (1 + θ)Σx falls short of the cash it started with |
| PwlInspection.AsWrittenFillLoopExample | adp/pwladp/inspection.py:53-58 | With cash 3.006 and a gap of 1, the loop passes twice and leaves 1.002, which buys 1 unit |
| PwlInspection.CorrectedStep2Conserves | adp/pwladp/inspection.py:49-61 | When each filled segment is marked full, step 2 conserves cash + (1 + θ)Σx |
| PwlInspection.Step2CorrectedFills | adp/pwladp/inspection.py:53-55 | A corrected pass fills the best segment, marks it full and continues from there |
| PwlInspection.Step2Corrected | adp/pwladp/inspection.py:48-61 | Step 2 corrected: each affordable best segment is filled to capacity, marked full and paid for, then the loop continues; the last purchase spends the remaining cash |
| PwlInspection.PassIsCashNeutral | adp/pwladp/inspection.py:70-75 | Every sell-to-buy pass buys and sells so that (1 + θ)·bought = (1 − θ)·sold |
| PwlInspection.Offered | adp/pwladp/inspection.py:67 | i_star_idx as numpy computes it: the segments with l ≤ 0 and a positive fill |
| PwlInspection.PassAmounts | adp/pwladp/inspection.py:70-75 | A pass sells all of segment i* and buys (1 − θ)/(1 + θ) of it when that fits below the cap of j*, and otherwise buys the gap of j* and sells (1 + θ)/(1 − θ) of the gap |
| PwlInspection.Pass | adp/pwladp/inspection.py:69-77 | One pass adds those amounts to y[i*] and x[j*], then lowers h_tidle[i*] by y[i*] and raises h_tidle[j*] by x[j*] |
| PwlInspection.Step3Passes | adp/pwladp/inspection.py:64-82 | With a best buy and a segment to sell, step 3 makes one pass and continues |
| PwlInspection.Step3 | adp/pwladp/inspection.py:63-82 | Repeats passes from the best buy to the best offered sale until either is missing, within the pass budget |
| PwlInspection.Step3Stops | adp/pwladp/inspection.py:64-81 | Step 3 stops when there is no best buy or no segment to sell |
| PwlInspection.Step3IsCashNeutral | adp/pwladp/inspection.py:64-82 | All of step 3 is cash-neutral: (1 + θ)ΔΣx = (1 − θ)ΔΣy |
| PwlInspection.BuySteps | adp/pwladp/inspection.py:48-61 | The step-2 while loop on the caller's cash h[0] gives the purchases and cash of step 2 as written, and leaves the holdings alone |
| PwlInspection.SellToBuyPass | adp/pwladp/inspection.py:64-82 | One pass of the step-3 loop either stops, or advances the state one pass |
| PwlInspection.SellToBuySteps | adp/pwladp/inspection.py:63-82 | The step-3 loop ends in the state step 3 reaches within its pass budget |
| PwlInspection.StepSpecOf | adp/pwladp/inspection.py:84-87 | The decision is the cash after step 2 and the per-asset totals over segments of x and y, one entry per asset |
| PwlInspection.StepSpec | adp/pwladp/inspection.py:20-87 | step(h, V): the cash after steps 1 and 2, and the per-asset sums over segments of x and y after step 3 |
| PwlInspection.Step | adp/pwladp/inspection.py:20-87 | step(h, V) updates only h[0], and returns the per-asset purchases and sales of steps 1–3 |
| PwlInspection.PwlInspectionModel.constructor | adp/pwladp/inspection.py:12-14 | pi starts unset |
| PwlInspection.PwlInspectionModel.Solve | adp/pwladp/inspection.py:16-17 | Records pi, the segment of every asset of h_plus |
| ValueFunction.LinearAdditive | adp/value_function.py:25-26 | The linear value of a sum of states is the sum of the values |
| ValueFunction.LinearValue | adp/value_function.py:25-26 | The linear value Σ V ⊙ h |
| ValueFunction.LinearHomogeneous | adp/value_function.py:25-26 | Scaling the state by c scales its linear value by c |
| ValueFunction.GridMatrix | adp/value_function.py:35 | Every asset's breakpoints are M equally spaced points from 0 to init |
| ValueFunction.GridIsGridShaped | adp/value_function.py:35 | The initial grid ascends from 0 |
| ValueFunction.Idx | adp/value_function.py:46-49 | idx(x)[j][i] holds exactly when a[j][i] ≤ x_i |
| ValueFunction.IdxPrefix | adp/value_function.py:46-49 | With ascending breakpoints, every column of idx is a run of trues followed by falses |
| ValueFunction.Pi | adp/value_function.py:40 | argmin(idx) − 1 lies in −1..M − 1 for every asset |
| ValueFunction.PiIsSegment | adp/value_function.py:40 | Read as numpy reads it, pi_i is the segment of x_i |
| ValueFunction.SegmentBounds | adp/value_function.py:40 | A position at or above the first breakpoint lies in its segment [a_p, a_{p+1}), or in the unbounded last one |
| ValueFunction.SegmentBelowGrid | adp/value_function.py:40 | A position below the first breakpoint falls, as written, in the last segment |
| ValueFunction.InterceptTelescopes | adp/value_function.py:41-42 | The intercept terms up to the segment of x telescope into the areas of the full segments |
| ValueFunction.InterceptAbove | adp/value_function.py:41-42 | Breakpoints above the position add nothing to the intercepts |
| ValueFunction.ColumnTermIsArea | adp/value_function.py:37-44 | One asset's term of __call__ is the area under its step function from 0 to x_i |
| ValueFunction.Eval | adp/value_function.py:37-44 | __call__: h_0 times the cash slope, plus the intercepts of the segments below each position, plus each position times the slope of its segment pi_i |
| ValueFunction.EvalIsArea | adp/value_function.py:37-44 | V(h) = cash·h_0 + Σ_i (full segments below pi_i plus slope·(x_i − a[pi_i])) for x ≥ 0 on a grid ascending from 0 |
| ValueFunction.EvalOfConstantSlopes | adp/value_function.py:37-44 | An asset whose slopes all equal s_i contributes s_i·x_i, whatever the grid |
| ValueFunction.UpdateTouchesOneSegment | adp/value_function.py:51-53 | Only slope pi_i of asset i moves; α = 1 sets it to ΔV_{i+1}, and 0 ≤ α ≤ 1 keeps it between the old slope and ΔV_{i+1} |
| ValueFunction.UpdatedSlopes | adp/value_function.py:53 | Slope pi_i of asset i becomes (1 − α)·slope + α·ΔV_{i+1}; every other slope is unchanged |
| ValueFunction.UpdateWithZeroStep | adp/value_function.py:51-53 | α = 0 changes no slope |
| ValueFunction.UpdateMayBreakConcavity | adp/value_function.py:51-53 | The update does not keep slopes non-increasing: slopes 2, 1 become 2, 3 with α = 1 and ΔV = 3 on segment 1 |
| ValueFunction.PWLinearValueFunction.constructor | adp/value_function.py:31-35 | All slopes 1, cash slope 1, and the equally spaced grid |
| ValueFunction.PWLinearValueFunction.Indices | adp/value_function.py:46-49 | idx(x) of the function's own grid |
| ValueFunction.PWLinearValueFunction.Update | adp/value_function.py:51-53 | cash ← (1 − α)cash + αΔV_0, slope pi_i of asset i moves towards ΔV_{i+1}, the grid is kept |
| ValueFunction.InitialValue | adp/value_function.py:31-44 | A fresh function values a state at its total: V(h) = h_0 + Σ_i x_i |
| Cvar.RowSums | adp/cvar.py:11 | f_s is the total of row s |
| Cvar.CVaR | adp/cvar.py:6-14 | CVaR(h): the closed form applied to the ascending row totals of h |
| Cvar.TailMean | adp/cvar.py:13-14 | (Σ_{s<l−1} f_s − (l − 1)f_{l−1})/(S(1 − β)) + f_{l−1}, with l = ⌈S(1 − β)⌉ |
| Cvar.TailSize | adp/cvar.py:13 | l = ⌈S(1 − β)⌉ lies in 1..S |
| Cvar.TailMeanBounds | adp/cvar.py:14 | On ascending totals the result lies between f[0] and f[l − 1] |
| Cvar.LeastTotal | adp/cvar.py:11-12 | f[0] after sorting is the smallest total |
| Cvar.CVaRBounds | adp/cvar.py:6-14 | The smallest total ≤ CVaR(h) ≤ the l-th smallest total |
| Cvar.CVaROfConstant | adp/cvar.py:13-14 | If every row totals c, CVaR is c |
| Cvar.CVaRTranslation | adp/cvar.py:14 | Adding c to every total adds c to CVaR |
| Cvar.CVaRMonotone | adp/cvar.py:12-14 | If no total decreases, CVaR does not decrease |
| Cvar.CVaRShiftBounds | adp/cvar.py:6-14 | If every total moves by an amount in [lo, hi], CVaR moves by an amount in [lo, hi] |
| Cvar.TailMeanScale | adp/cvar.py:13-14 | Multiplying every total by c multiplies the closed form by c |
| Cvar.CVaRScaling | adp/cvar.py:6-14 | If every row total of g is c ≥ 0 times that of h, CVaR(g) = c·CVaR(h): CVaR is positively homogeneous |
| Cvar.CVaRPermutation | adp/cvar.py:11-12 | CVaR depends on the rows only through their totals: reordering rows changes nothing |
| Sorting.SortPermutes | adp/cvar.py:12 | The sorted totals are sorted and a permutation of the totals |
| Sorting.SortMonotone | adp/cvar.py:12 | Raising some totals never lowers any order statistic |
| Sorting.SortShift | adp/cvar.py:12 | Sorting commutes with adding the same c to every total |
| Sorting.SortMap | adp/cvar.py:12 | Sorting commutes with applying any strictly increasing map to every total |
| Sorting.SortScale | adp/cvar.py:12 | For c ≥ 0, sorting commutes with multiplying every total by c |
| Sorting.SortPermutation | adp/cvar.py:12 | Two reorderings of the same totals sort to the same vector |
| Updater.Wealth | adp/updater.py:17 | Row s of RT * h_plus is RT[s] ⊙ h_plus[s] |
| Updater.Bumped | adp/updater.py:17 | h_plus + [e_i] adds one unit of component i to every row |
| Updater.BumpedTotal | adp/updater.py:17 | One more unit of component i adds r_i to a scenario's total |
| Updater.DeltaCVaRBetween | adp/updater.py:14-18 | If column i of the stored returns lies in [lo, hi], so does ΔCVaR_i |
| Updater.DeltaCVaR | adp/updater.py:14-18 | generateΔCVaR: entry i is CVaR(RT ⊙ (h_plus + e_i)) − CVaR(RT ⊙ h_plus), one entry per component |
| Updater.DeltaCVaROfConstantColumn | adp/updater.py:14-18 | If column i of RT is the same c in every row, ΔCVaR_i = c |
| Updater.TerminalBounds | adp/updater.py:63-64 | With γ = 0.4, the target (1 − γ)RT[s]_i − γΔCVaR_i lies between 0.6·RT[s]_i − 0.4·hi and 0.6·RT[s]_i − 0.4·lo, and is 0.2·c for a constant column c |
| Updater.Terminal | adp/updater.py:63-64 | The terminal target (1 − γ)RT[s] − γΔCVaR, with ΔCVaR over the rows 0..s |
| Updater.Forward | adp/updater.py:52-56 | Stages 1..t − 1 keep the shape of the state, and every solution fits it |
| Updater.ForwardStep | adp/updater.py:52-56 | Stage t solves with the t-th draw and V[t] from the state reached, and moves to its solution |
| Updater.Targets | adp/updater.py:56-64 | ΔV holds the stages' ΔV in rows 0..T − 2 and the terminal target in row T − 1 |
| Updater.BlendRows | adp/updater.py:66 | Every row becomes (1 − α)V + αΔV |
| Updater.BlendedValue | adp/updater.py:66 | A blended linear value function values a state at the blend of the two values |
| Updater.BlendExtremes | adp/updater.py:66 | α = 0 keeps V and α = 1 replaces it by ΔV |
| Updater.InitialStates | adp/updater.py:29-30 | S rows of N + 1 components, with cash init and no assets |
| Updater.LValueFunctionUpdater.constructor | adp/updater.py:25-32 | S-row buffers: h_plus with cash init in every row, RT zero, counter 0 |
| Updater.LValueFunctionUpdater.Next | adp/updater.py:41-66 | Scenario s = counter: only rows s of h_plus and RT change; the CVaR sensitivity uses rows 0..s; V becomes (1 − α_s)V + α_s·ΔV with the stage ΔVs and the terminal target |
| Updater.Diagonal | adp/updater.py:93 | The terminal mask selects segment i for asset i |
| Updater.Masks | adp/updater.py:84-93 | The stages' pi, then the terminal mask |
| Updater.ProgressStep | adp/updater.py:84 | Updating V[t − 1] with the solution of stage t extends the views updated so far by one |
| Updater.ProgressDone | adp/updater.py:84-93 | After the terminal update, every view is updated with its target and mask |
| Updater.PWLValueFunctionUpdater.constructor | adp/updater.py:25-32 | S-row buffers: h_plus with cash init in every row, RT zero, counter 0 |
| Updater.PWLValueFunctionUpdater.UpdateStage | adp/updater.py:84 | V[u].update changes only value function u |
| Updater.PWLValueFunctionUpdater.Stage | adp/updater.py:80-84 | Stage t solves with V[t], then updates V[t − 1] with its ΔV and pi |
| Updater.PWLValueFunctionUpdater.Rollout | adp/updater.py:75-84 | Stages 0..T − 1 follow Forward, and V[t − 1] is updated after stage t |
| Updater.PWLValueFunctionUpdater.Store | adp/updater.py:83-87 | Writes row s of h_plus and RT only, and advances the counter |
| Updater.PWLValueFunctionUpdater.Next | adp/updater.py:71-93 | Scenario s = counter: only rows s change; every V[t − 1] is updated after stage t, and V[T − 1] with the terminal target on the terminal mask |
| LadpUpdater.Start | adp/ladp/updater.py:27-29 | Every scenario starts with cash init and no assets |
| LadpUpdater.TargetBounds | adp/ladp/updater.py:47-48 | With γ ≥ 0 and ΔCVaR_i in [lo, hi], the target of i lies between (1 − γ)R_i − γ·hi and (1 − γ)R_i − γ·lo |
| LadpUpdater.Target | adp/ladp/updater.py:47-48 | The terminal target (1 − γ)R_i − γΔCVaR_i, entry by entry |
| LadpUpdater.TargetOfConstantColumn | adp/ladp/updater.py:47-48 | A return that is c in every stored scenario has target (1 − 2γ)c |
| LadpUpdater.TargetExtremes | adp/ladp/updater.py:48 | γ = 0 targets R, and γ = 1 targets −ΔCVaR |
| LadpUpdater.LValueFunctionUpdater.constructor | adp/ladp/updater.py:14-20 | Both buffers start with no rows, and the counter is 0 |
| LadpUpdater.LValueFunctionUpdater.Next | adp/ladp/updater.py:22-50 | Appends exactly one row to RT and to h_plus and leaves earlier rows alone; V becomes (1 − α_s)V + α_s·ΔV, with the terminal target taken over all s + 1 stored rows |
| Trainer.StagesStep | adp/pwladp/trainer.py:49-58 | On solver failure at stage t the state becomes R ⊙ hp and no value function changes; on success the state moves to the solution and only strategy[t − 1] is updated, at the state the stage started from |
| Trainer.Stages | adp/pwladp/trainer.py:49-58 | Stages 1..t − 1: on success the state moves to the solution and V[u − 1] is updated at the state the stage started from; on failure the state becomes R ⊙ hp |
| Trainer.StagesKeepLater | adp/pwladp/trainer.py:49-58 | Stages 1..t − 1 touch no value function from t − 1 on |
| Trainer.StagesAllFail | adp/pwladp/trainer.py:52-56 | When every solve fails, nothing is updated and the state drifts with each stage's returns |
| Trainer.TerminalTargetAt | adp/pwladp/trainer.py:71 | The terminal target is γR_i − (1 − γ)ΔCVaR_i |
| Trainer.TrainingMemory.constructor | adp/pwladp/trainer.py:23-26 | The memory starts empty |
| Trainer.TrainingMemory.Record | adp/pwladp/trainer.py:65-67 | Appends exactly one entry to RT, hp and h, with h = Σ R ⊙ hp, and leaves earlier entries alone |
| Trainer.ADPStrategyTrainer.constructor | adp/pwladp/trainer.py:31-36 | Counter 0 and an empty memory |
| Trainer.ADPStrategyTrainer.Roll | adp/pwladp/trainer.py:49-58 | The stage loop with failure fallback updates the strategy in place as Stages does |
| Trainer.ADPStrategyTrainer.Train | adp/pwladp/trainer.py:38-73 | Uses alpha(counter) read before the counter grows by exactly 1; records one scenario; updates strategy[T − 1] at the final wealth R ⊙ hp towards γR − (1 − γ)ΔCVaR over all stored scenarios, the current one included |
| Parameters.Alpha | parameters.py:16-17 | 0 < alpha(s) ≤ 1 and alpha(0) = 1 |
| Parameters.AlphaDecreasing | parameters.py:17 | alpha is strictly decreasing |
| Parameters.Grid | parameters.py:20-21 | a[0] = 0, a[M − 1] = init, and the spacing is init/(M − 1) |
| Parameters.CapIsHalfInit | parameters.py:12-13 | w0 = init/2, strictly between 0 and init |
| Portfolio.Returns | entities/portfolio.py:55 | Y_s is the portfolio's return in scenario s |
| Portfolio.Deviations | entities/portfolio.py:57 | D_s = abs(Y_s − μ) |
| Portfolio.Shortfalls | entities/portfolio.py:67 | D_s = μ − Y_s when μ > Y_s, else 0 |
| Portfolio.Min | entities/portfolio.py:75 | The least entry: at most every entry and equal to one |
| Portfolio.MeanOfReturns | entities/portfolio.py:55-56 | μ = probas·scenarios·w is the probability-weighted mean of the scenario returns |
| Portfolio.Mean | entities/portfolio.py:56 | μ = probas·scenarios·w |
| Portfolio.MAD | entities/portfolio.py:48-58 | probas·abs(Y − μ), Y being the scenario returns |
| Portfolio.SemiMAD | entities/portfolio.py:60-68 | probas·((μ − Y)·[μ > Y]) |
| Portfolio.DotDeviations | entities/portfolio.py:57-67 | Σp·abs(Y − μ) = 2Σp·max(μ − Y, 0) + (Σp·Y − μΣp) |
| Portfolio.MADIsTwiceSemiMAD | entities/portfolio.py:48-68 | With probabilities summing to 1, MAD = 2·SemiMAD |
| Portfolio.RiskNonNegative | entities/portfolio.py:55-68 | With non-negative probabilities, MAD ≥ 0 and SemiMAD ≥ 0 |
| Portfolio.ConstantReturnsHaveNoDeviation | entities/portfolio.py:55-68 | Equal returns in every scenario and probabilities summing to 1 give MAD = SemiMAD = 0 |
| Portfolio.WorstReturnIsLeast | entities/portfolio.py:70-75 | The worst return is one of the scenario returns and at most every one of them |
| Portfolio.WorstReturn | entities/portfolio.py:70-75 | The least scenario return, scenarios·w then .min() |
| Portfolio.WorstReturnBelowMean | entities/portfolio.py:56-75 | With non-negative probabilities summing to 1, the worst return is at most μ |
| Kernel.KernelSign | generator.py:70-76 | For h > 0, K(h)(x) ≥ 0, and > 0 exactly when abs(x) < 1/h |
| Kernel.Kernel | generator.py:70-76 | K(h)(x) = [abs(x) < 1/h]·h·(1 − h·abs(x)), defined for h ≠ 0 |
| Kernel.KernelVanishes | generator.py:74 | K(h)(x) = 0 when abs(x) ≥ 1/h |
| Kernel.KernelInside | generator.py:74 | Inside the support K(h)(x) = h − h²·abs(x) |
| Kernel.KernelPeak | linear/scenarios.py:130-134 | For h > 0, K(h)(0) = h and K(h)(x) ≤ h |
| Kernel.KernelSymmetric | linear/scenarios.py:133 | K(h)(x) = K(h)(−x) |
| Kernel.InSupport | linear/scenarios.py:133 | For h > 0, abs(x) < 1/h exactly when h·abs(x) < 1 |
| Ecdf.Ecdf | linear/scenarios.py:104-107 | xs and ys have the length of x |
| Ecdf.EcdfSortsX | plot_test/scenarios.py:57 | xs is sorted ascending and is a permutation of x |
| Ecdf.LevelsIncrease | linear/scenarios.py:106 | ys is strictly increasing |
| Ecdf.LevelsRange | plot_test/scenarios.py:58 | Every level lies in (0, 1], and the last is 1 |
| Ecdf.LevelIsRank | linear/scenarios.py:106 | ys[i]·n = i + 1 |
| Ecdf.AtMostSort | linear/scenarios.py:105 | Sorting keeps the number of values at or below v |
| Ecdf.EcdfIsEmpiricalCdf | plot_test/scenarios.py:56-59 | ys[i] ≤ the share of x at or below xs[i], with equality at the last of ties: ys is the empirical CDF at xs |

## Left out

- External code and I/O are not modelled: the Gurobi solvers, the scenario generators and their random numbers, printing, plotting and market data. The solver is a function parameter that may fail, and the generator is the sequence of returns it would draw.
- Floating point is modelled as exact reals. numpy's `np.ceil` returns a float that `adp/cvar.py` uses as a slice bound; the model reads it as the integer it denotes.
- The step size `alpha = 1/sqrt(1..S)` of `adp/parameters.py` needs a real square root. `Updater` takes the step-size schedule as a function parameter instead.
- `LinearValueFunction.__new__` initialises at random; linear value functions are inputs to the model.
- `adp/ladp_ub/inspection.py` imports `w0` from `adp/parameters.py`, which does not define it. `LadpUb.LADPUB` takes w0 as a parameter, and `Parameters.W0` is the w0 of `parameters.py`.
- `adp/value_function.py` imports `M` from `adp/parameters.py`, which does not define it. `ValueFunction.M` is the M = 11 of `parameters.py`.
- `adp/ladp/updater.py` imports `gamma` from `parameters.py`, which defines only `gammas`. `LadpUpdater.LValueFunctionUpdater` takes γ as a constructor argument.
- `adp/ladp/updater.py` indexes `alpha[s]`, where `alpha` is a lambda; the model reads it as `Parameters.Alpha(s)`. It also reads `m.deltaV`, which the solver sets as `ΔV`; the model reads it as the solver's ΔV.
- `adp/ladp/inspection.py` calls `ft` with four arguments, but the `ft` it imports takes three. `LadpInspection` uses the return-then-trade transition of `adp.py` with θ of `adp/parameters.py`.
- `LadpInspection.LADP`, `LadpUb.LADPUB` and `LadpInspection.LadpInspectionModel.Solve`: the unused first argument `obj` of the solvers is not modelled.
- `LADPUBInspectionModel` (adp/ladp_ub/inspection.py:72-73) is `LADPInspectionModel` with `LADPUB` as its solver. It is not modelled as a separate class.
- PwlInspection.PwlInspectionModel.Solve: it records `pi` only. The inherited `solve` it then calls runs the linear rule, which indexes the value function as a vector of slopes, and a piecewise-linear value function is not one.
- PwlInspection.Step: the sell-to-buy loop is bounded by a pass budget `passes`. The source loop has no bound, and its termination is not established.
- Updater.PWLValueFunctionUpdater.Next: numpy accepts the terminal mask `zeros(N)==0` as a row index only when N = M, and then selects segment i of asset i. The model allows any n ≤ M with that diagonal reading.
- Updater.LValueFunctionUpdater.Next and Updater.PWLValueFunctionUpdater.Next require counter < S. Beyond S, the S-row buffers have no row s.
- Updater.PWLValueFunctionUpdater.Next: the source writes row s of h_plus after every stage. The model writes the last value once, which is the only value that remains.
- Trainer.ADPStrategyTrainer.Train: the in-place `update` of the dynamic piecewise-linear value function is not part of this model, because its source is not shown. It is a function parameter.
- Trainer.ADPStrategyTrainer.Train: a solver failure at stage 0 is not caught in the source. The model returns ok = false with nothing changed.
- The `generateΔCVaR` of `adp/pwladp/trainer.py` is the same computation as that of `adp/updater.py`; both are `Updater.DeltaCVaR`. It needs at least one stored scenario, as CVaR does: with no rows, `adp/cvar.py` indexes an empty vector.
- Portfolio.WorstReturnIsLeast requires at least one scenario: numpy's `.min()` raises on an empty vector.
- `Portfolio.DailyGross`, `AnnualizedReturn`, `Vol`, `MaxDrawDown` and `__call__` read global market data and are not modelled.
- Kernel: `K(h)` returns a closure; the model states it in applied form `Kernel(h, x)`. `Kernel` requires h ≠ 0, because `K(0)` divides by zero in 1/h.

## Findings

| source | as written | input that shows it | evidently intended | confidence | as-written member | corrected member |
|---|---|---|---|---|---|---|
| adp/ladp_ub/inspection.py:54 | The fill test compares w0 − h[j*] with the cash, so it reads the holding of the asset before j* (the cash itself when j* = 0), while the fill uses h[j* + 1] | One asset, w0 = 50000, cash 40000, holding 0, slopes u = (1, 2): the test passes, the asset is filled to 50000 and the cash ends at −10250 | Test w0 − h[j* + 1]: fill only when the cash covers the fill, and otherwise spend exactly the cash, keeping cash ≥ 0 and every holding ≤ w0 | not executed | LadpUb.AsWrittenOverspends | LadpUb.CorrectedDecisionWithinCap |
| adp/pwladp/inspection.py:49-61 | Step 2 never marks a filled segment full and assigns x[j*] rather than adding to it. Every pass re-selects the same segment and pays (1 + θ)·gap again; the final pass overwrites the purchase with what the cash still buys | Best segment with a gap of 1 and cash 3.006, θ = 0.002: two passes pay 1.002 each, and the third buys 1 unit with the last 1.002, so 3.006 of cash yields 1 unit | Mark the filled segment full and add the fill to x, so the next pass moves to the next best segment and cash + (1 + θ)Σx is conserved | not executed | PwlInspection.AsWrittenStep2Loses | PwlInspection.CorrectedStep2Conserves |
