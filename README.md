# Options pricing engine — a verified Dafny model

This project models the pricing core of a Python options-pricing library and
proves properties of the model:

- **the option contract** (`OptionClass`, `option_class.dfy`): the seven
  fields, the validation chain and its error order, and the `data()` report;
- **Black–Scholes** (`BlackScholes`, `black_scholes.dfy`): `d1`, `d2`, the
  closed-form price with its expiry branch, and the five Greeks with the
  greek table;
- **the binomial lattice** (`BinomialLattice`, `binomial_lattice.dfy`):
  terminal prices, payoffs, and the backward induction with and without
  early exercise, all as functions on sequences;
- **the binomial pricer** (`Binomial`, `binomial.dfy`): the constructor's
  guards, the CRR, Jarrow–Rudd and Leisen–Reimer calibrations with the
  Peizer–Pratt inversion, and `_calculate_option_price`. The class keeps its
  own state. Its arrays shrink by one node per backward step, and each array
  method is proved equal to the sequence function it implements;
- **the implied-volatility solver** (`ImpliedVolatility`, `iv_solver.dfy`):
  input validation with its defaults, and the Newton–Raphson loop. The loop
  is a `while` loop proved equal to a recursive specification. It stops on
  tolerance, gives up when vega falls below 1e-8, and clamps each step into
  the bracket. Brent's method is modelled with the root finder as a parameter;
- **finite-difference Greeks** (`FiniteDifference`, `fd_greeks.dfy`): each
  estimate rebuilds the contract with one field bumped and re-prices it with
  a fresh lattice pricer. The pricing function is a parameter;
- **the arbitrage detector** (`Detector`, `detector.dfy`): put–call parity,
  the box spread, market versus model price, and the static price bounds.

Real arithmetic is exact: `real` models the source's floating point.
`exp`, `log`, `sqrt`, the normal CDF and the normal density are uninterpreted.
They come in a `Numerics.Transcendentals` record. Each lemma lists the facts
about them that it needs: `ExpPositive`, `SqrtPositive` or `Sound`. Those are
properties the real functions have: `exp > 0`, `exp(0) = 1`, `sqrt` is
positive with `sqrt(x)² = x`, `0 ≤ Φ ≤ 1`, `Φ(x) + Φ(−x) = 1`, and `φ ≥ 0`.

## Model

| member | source | states |
|---|---|---|
| OptionClass.ValidateInputs | options_pricing_engine/src/option_class.py:26-37 | passes exactly for a valid contract; each error is raised exactly when every earlier guard passes and its own fails, in the order type, S, K, T, sigma |
| OptionClass.NewOption | options_pricing_engine/src/option_class.py:4-24 | succeeds exactly for a listed type with S, K, sigma > 0 and T ≥ 0; a constructed contract holds the seven arguments unchanged; a failure carries the first failing guard's error |
| OptionClass.DefaultDividendYield | options_pricing_engine/src/option_class.py:4 | with q left at its default the contract has q = 0, and construction succeeds or fails, with the same error, exactly as for any other q |
| OptionClass.Data | options_pricing_engine/src/option_class.py:39-50 | the `{'Value': …}` report of the seven fields; `DataRoundTrip` and `DataInjective` show it keeps every field |
| OptionClass.DataRoundTrip | options_pricing_engine/src/option_class.py:39-50 | rebuilding a valid contract from its `data()` report gives back the same contract |
| OptionClass.DataInjective | options_pricing_engine/src/option_class.py:39-50 | two contracts with the same report are equal, so the report loses no field |
| OptionClass.MaturityBoundary | options_pricing_engine/src/option_class.py:33-34 | T = 0 is accepted and every T < 0 fails with the maturity error |
| OptionClass.RatesUnconstrained | options_pricing_engine/src/option_class.py:26-37 | the rate and the dividend yield never change the outcome of construction |
| OptionClass.TypeIsCaseSensitive | options_pricing_engine/src/option_class.py:2 | "Call" and "PUT" are rejected as invalid types |
| Text.Lower | src/models/binomial.py:18 | `str.lower()` on ASCII: same length, and each character lowered on its own |
| Text.LowerIdempotent | src/models/binomial.py:18 | lowering twice is lowering once |
| BlackScholes.SigmaRootT | options_pricing_engine/src/models/black_scholes.py:17-20 | the denominator σ√T of `d1` is positive whenever T > 0 |
| BlackScholes.D1 | options_pricing_engine/src/models/black_scholes.py:17-20 | `d1`, with the denominator σ√T positive by `SigmaRootT`; `D2ClosedForm` relates it to `d2` |
| BlackScholes.D2 | options_pricing_engine/src/models/black_scholes.py:22-24 | `d1 − σ√T`; `D2ClosedForm` gives its closed form with the `(r − q − σ²/2)` drift |
| BlackScholes.D2ClosedForm | options_pricing_engine/src/models/black_scholes.py:17-24 | `d2 = d1 − σ√T` equals the standardized log-moneyness with the `(r − q − σ²/2)` drift |
| BlackScholes.Price | options_pricing_engine/src/models/black_scholes.py:26-37 | at T = 0 the price is the intrinsic value max(S − K, 0) for a call and max(K − S, 0) for anything else |
| BlackScholes.PriceUpperBounds | options_pricing_engine/src/models/black_scholes.py:26-37 | before expiry a call is worth at most S·e^{−qT} and a put at most K·e^{−rT} |
| BlackScholes.PutCallParity | options_pricing_engine/src/models/black_scholes.py:26-37 | call − put = S·e^{−qT} − K·e^{−rT} at every T ≥ 0 |
| BlackScholes.ParityAtExpiry | options_pricing_engine/src/models/black_scholes.py:28-35 | parity at T = 0 from the intrinsic branch: max(S−K,0) − max(K−S,0) = S − K |
| BlackScholes.ParityBeforeExpiry | options_pricing_engine/src/models/black_scholes.py:31-37 | parity before expiry, from Φ(x) + Φ(−x) = 1 alone |
| BlackScholes.HedgedPortfolioNonNegative | options_pricing_engine/src/models/black_scholes.py:26-37 | call + put + S·e^{−qT} + K·e^{−rT} ≥ 0, so the parity book is non-negative |
| BlackScholes.Delta | options_pricing_engine/src/models/black_scholes.py:39-44 | a call's delta lies in [0, e^{−qT}] and a put's in [−e^{−qT}, 0] |
| BlackScholes.DeltaGap | options_pricing_engine/src/models/black_scholes.py:39-44 | put delta = call delta − e^{−qT} |
| BlackScholes.Gamma | options_pricing_engine/src/models/black_scholes.py:46-48 | gamma is non-negative |
| BlackScholes.Vega | options_pricing_engine/src/models/black_scholes.py:50-52 | vega is non-negative |
| BlackScholes.GammaVegaTypeFree | options_pricing_engine/src/models/black_scholes.py:46-52 | gamma and vega do not depend on the option type |
| BlackScholes.Theta | options_pricing_engine/src/models/black_scholes.py:54-63 | the decay term plus the type-dependent carry terms; `ThetaGap` shows the decay term is shared and gives the call−put gap |
| BlackScholes.ThetaGap | options_pricing_engine/src/models/black_scholes.py:54-63 | call theta − put theta = −rK·e^{−rT} + qS·e^{−qT}: the decay term cancels |
| BlackScholes.Rho | options_pricing_engine/src/models/black_scholes.py:65-70 | a call's rho is non-negative and a put's non-positive |
| BlackScholes.RhoGap | options_pricing_engine/src/models/black_scholes.py:65-70 | call rho − put rho = K·T·e^{−rT} |
| BlackScholes.SameTermsPrice | options_pricing_engine/src/models/black_scholes.py:26-37 | the price depends on the type only through "is it exactly 'call'" |
| BlackScholes.SameTermsGreeks | options_pricing_engine/src/models/black_scholes.py:39-70 | delta, theta and rho depend on the type only through "is it exactly 'call'" |
| BlackScholes.NonCallIsPut | options_pricing_engine/src/models/black_scholes.py:28-33 | every type other than "call" is priced, and has Greeks, as a put |
| BlackScholes.Greeks | options_pricing_engine/src/models/black_scholes.py:72-80 | the table holds delta and gamma, vega/100, theta/365 and rho/100; gamma and vega entries are non-negative |
| BinomialLattice.Intrinsic | src/models/binomial.py:42-45 | a payoff is non-negative and at least the exercise value |
| BinomialLattice.TerminalPrices | src/models/binomial.py:40 | N + 1 terminal prices |
| BinomialLattice.Payoffs | src/models/binomial.py:42-45 | one payoff per terminal price |
| BinomialLattice.Continuation | src/models/binomial.py:48 | each step leaves one value fewer |
| BinomialLattice.Rollback | src/models/binomial.py:51 | each step leaves one stock price fewer |
| BinomialLattice.EarlyExercise | src/models/binomial.py:52-56 | early exercise keeps the number of nodes |
| BinomialLattice.Step | src/models/binomial.py:47-58 | one backward step drops a node; only the American branch rolls the stock prices back |
| BinomialLattice.Backward | src/models/binomial.py:47-58 | k backward steps leave N + 1 − k values, with one price per value for American options |
| BinomialLattice.LatticeValue | src/models/binomial.py:32-60 | node 0 after N backward steps from the terminal payoffs; `LatticeValueNonNegative` and `AmericanAtLeastEuropean` bound it |
| BinomialLattice.ConvexNonNegative | src/models/binomial.py:48 | a discounted convex combination of non-negative values is non-negative |
| BinomialLattice.ConvexMonotone | src/models/binomial.py:48 | the discounted expectation is monotone in both node values |
| BinomialLattice.NodesNonNegative | src/models/binomial.py:47-58 | with p in [0, 1] and a non-negative discount, every node value stays non-negative |
| BinomialLattice.TerminalNonNegative | src/models/binomial.py:42-45 | terminal payoffs are non-negative |
| BinomialLattice.AmericanAboveIntrinsic | src/models/binomial.py:50-56 | every American node is worth at least its intrinsic value at that node's stock price |
| BinomialLattice.AmericanDominatesEuropean | src/models/binomial.py:47-58 | after k steps every American node is worth at least the European one |
| BinomialLattice.ContinuationMonotone | src/models/binomial.py:48 | larger next-level values give larger continuation values |
| BinomialLattice.ExerciseRaises | src/models/binomial.py:56 | the early-exercise maximum never lowers a continuation value |
| BinomialLattice.AmericanAtLeastEuropean | src/models/binomial.py:32-60 | an American lattice price is at least the European one |
| BinomialLattice.LatticeValueNonNegative | src/models/binomial.py:32-60 | the lattice price is non-negative |
| BinomialLattice.TerminalPowerLevel | src/models/binomial.py:40 | terminal price j is S·u^j·d^{N−j} |
| BinomialLattice.RollbackLevel | src/models/binomial.py:51 | dividing by d turns level-m prices S·u^j·d^{m−j} into level-(m−1) prices |
| BinomialLattice.RepeatedRollback | src/models/binomial.py:51 | k roll-backs leave k fewer prices |
| BinomialLattice.AmericanPricesRollBack | src/models/binomial.py:47-58 | the American stock prices after k steps are the terminal prices rolled back k times |
| BinomialLattice.RepeatedRollbackLevel | src/models/binomial.py:51 | k roll-backs of a level-m price row give the level-(m−k) row |
| BinomialLattice.AmericanStockPrices | src/models/binomial.py:40-58 | at step k the American stock prices are exactly the lattice prices S·u^j·d^{N−k−j} |
| Binomial.NewBinomial | src/models/binomial.py:9-30 | N = 0 raises first, then an unknown lowered style, then a negative N; success stores the option, the lowered style, N and dt = T/N |
| Binomial.DefaultBinomial | src/models/binomial.py:9-22 | with N left at its default of 1000, construction fails only on the style, and succeeds with n = 1000 and dt = T/1000 |
| Binomial.Crr | src/models/binomial.py:62-68 | d·u = 1 and the risk-neutral drift match p·u + (1−p)·d = e^{(r−q)dt} |
| Binomial.Jr | src/models/binomial.py:70-76 | p = 1/2 and both moves are positive |
| Binomial.PrattScale | src/models/binomial.py:80 | the divisor N + 1/3 + 0.1/(N+1) is positive |
| Binomial.PeizerPratt | src/models/binomial.py:78-80 | the inversion of z = 0 is exactly 1/2 |
| Binomial.PeizerPrattSymmetric | src/models/binomial.py:78-80 | h(−z) = 1 − h(z) for every z and N > 0: the exponent is even in z and `np.sign` odd |
| Binomial.LrProbabilities | src/models/binomial.py:86-90 | p = h(d2) and p′ = h(d1), each 1/2 when its argument is 0 |
| Binomial.LrFactors | src/models/binomial.py:92-93 | the moves are u = g·p′/p and d = g·(1−p′)/(1−p), stated as u·p = g·p′ and d·(1−p) = g·(1−p′); p is kept, and p·u + (1−p)·d = g |
| Binomial.Lr | src/models/binomial.py:82-95 | with p = h(d2), p′ = h(d1) and g = e^{(r−q)dt}: the up probability is p, u·p = g·p′, d·(1−p) = g·(1−p′), and p·u + (1−p)·d = g |
| Binomial.ModelPrice | src/models/binomial.py:32-60 | the lattice price of a configuration under a calibration; `ModelPriceNonNegative` and `AmericanAtLeastEuropeanPrice` bound it, and `CalculateOptionPrice` computes it |
| Binomial.AmericanAtLeastEuropeanPrice | src/models/binomial.py:32-60 | with p in [0, 1], an American price is at least the European price of the same lattice |
| Binomial.ModelPriceNonNegative | src/models/binomial.py:32-60 | with p in [0, 1], every lattice price is non-negative |
| Binomial.JrAmericanAtLeastEuropean | src/models/binomial.py:70-76 | under Jarrow–Rudd an American price is at least the European one, unconditionally |
| Binomial.StockPrices | src/models/binomial.py:40 | the array holds the terminal prices |
| Binomial.PayoffValues | src/models/binomial.py:42-45 | the array holds the terminal payoffs |
| Binomial.ContinuationValues | src/models/binomial.py:48 | the array holds the discounted expectations of adjacent nodes |
| Binomial.RolledBack | src/models/binomial.py:51 | the array holds the prices rolled back one level |
| Binomial.ExerciseValues | src/models/binomial.py:52-56 | the array holds the maximum of exercise and continuation per node |
| Binomial.BackwardStep | src/models/binomial.py:47-58 | the new payoff and price arrays are one backward step of the old ones |
| Binomial.BackwardInduction | src/models/binomial.py:47-60 | the loop returns node 0 of N backward steps |
| Binomial.Binomial.constructor | src/models/binomial.py:9-23 | stores the configuration with no model chosen |
| Binomial.Binomial.Create | src/models/binomial.py:9-30 | a pricer exactly when the constructor's guards pass, with their error otherwise |
| Binomial.Binomial.CalculateOptionPrice | src/models/binomial.py:32-60 | returns the lattice price of the configuration for the given u, d, p |
| Binomial.Binomial.CrrModel | src/models/binomial.py:62-68 | the lattice price under the CRR calibration |
| Binomial.Binomial.JrModel | src/models/binomial.py:70-76 | the lattice price under the Jarrow–Rudd calibration |
| Binomial.Binomial.LrModel | src/models/binomial.py:82-95 | the lattice price under the Leisen–Reimer calibration |
| Binomial.Binomial.Price | src/models/binomial.py:97-108 | records the lowered model name; dispatches to CRR, JR or LR; any other name is an error |
| ImpliedVolatility.ValidateInputs | src/analysis/iv_solver.py:49-68 | passes exactly for valid inputs; each error fires exactly when its guard is the first to fail, in source order |
| ImpliedVolatility.DefaultsAccepted | src/analysis/iv_solver.py:17-21 | with the default bracket, iteration count and tolerance, only the market and contract arguments can fail |
| ImpliedVolatility.DefaultGuessAccepted | src/analysis/iv_solver.py:70-76 | the default starting guess 0.2 always passes the contract's checks, so the call without an argument never raises |
| ImpliedVolatility.Trial | src/analysis/iv_solver.py:76-80 | the trial contract carries the solver's fields and the trial volatility |
| ImpliedVolatility.TrialIsConstructed | src/analysis/iv_solver.py:76 | `Option(...)` builds the trial contract for σ > 0 and raises the volatility error otherwise |
| ImpliedVolatility.Clamp | src/analysis/iv_solver.py:94 | the clamped value lies in the bracket and is unchanged inside it |
| ImpliedVolatility.BsCurve | src/analysis/iv_solver.py:80-84 | at every σ > 0 the curve is the Black–Scholes price and vega of the trial contract |
| ImpliedVolatility.ExpiryCurve | src/analysis/iv_solver.py:80-84 | at T = 0 the curve's price is the Black–Scholes price of the trial contract and its vega is 0 |
| ImpliedVolatility.SolverCurve | src/analysis/iv_solver.py:80-84 | at every σ > 0 the curve's price is the Black–Scholes price of the trial contract; its vega is the Black–Scholes vega before expiry and 0 at expiry |
| ImpliedVolatility.NewtonUpdate | src/analysis/iv_solver.py:90-94 | each update is clamped into [lower, upper] |
| ImpliedVolatility.NewtonFrom | src/analysis/iv_solver.py:79-97 | a converged volatility is positive |
| ImpliedVolatility.NewtonConverged | src/analysis/iv_solver.py:86-88 | a returned volatility prices within the tolerance of the market price |
| ImpliedVolatility.NewtonPricesWithinTolerance | src/analysis/iv_solver.py:79-97 | on the solver's curve, the Black–Scholes price at the returned volatility is within the tolerance |
| ImpliedVolatility.NewtonStep | src/analysis/iv_solver.py:85-94 | one iteration returns the trial within tolerance, stops below the vega floor, and otherwise continues from the clamped update |
| ImpliedVolatility.ExpiryNewton | src/analysis/iv_solver.py:79-97 | at expiry the solver returns the initial guess exactly when the intrinsic value is within tolerance of the market price, and nothing otherwise |
| ImpliedVolatility.NewtonInBracket | src/analysis/iv_solver.py:93-94 | a returned volatility is the start or lies in the bracket |
| ImpliedVolatility.ZeroToleranceNeverConverges | src/analysis/iv_solver.py:86-88 | with tolerance 0 the strict test never passes, so nothing is returned |
| ImpliedVolatility.NewtonMoreFuel | src/analysis/iv_solver.py:79-97 | once the loop returns, more iterations return the same volatility |
| ImpliedVolatility.BracketSigns | src/analysis/iv_solver.py:108-113 | f(lower)·f(upper) ≤ 0 exactly when zero lies between the two values |
| ImpliedVolatility.Objective | src/analysis/iv_solver.py:104-106 | the Black–Scholes price at a trial volatility minus the market price; `IvBrent` tests its signs at the bracket ends |
| ImpliedVolatility.NewtonLoop | src/analysis/iv_solver.py:79-97 | for any price/vega curve, the `while` loop returns what the recursive Newton specification returns |
| ImpliedVolatility.ImpliedVolatilitySolver.constructor | src/analysis/iv_solver.py:9-47 | stores the inputs with no volatility found |
| ImpliedVolatility.ImpliedVolatilitySolver.Create | src/analysis/iv_solver.py:9-68 | a solver exactly when validation passes, with the first failing guard's error otherwise |
| ImpliedVolatility.ImpliedVolatilitySolver.IvNewtonRaphson | src/analysis/iv_solver.py:70-97 | a non-positive initial guess raises; otherwise the Newton result on the solver's curve, also at T = 0, stored in `sigma` only when found |
| ImpliedVolatility.ImpliedVolatilitySolver.IvBrent | src/analysis/iv_solver.py:99-118 | no root when the bracket values share a sign; otherwise a zero tolerance raises (`xtol <= 0`), a run that does not converge raises, and a root is returned and stored in `sigma`; after an error `sigma` is unchanged |
| FiniteDifference.OnlyOneFieldChanges | options_pricing_engine/src/analysis/fd_greeks.py:10-22 | a bump sets its own field and keeps every other one |
| FiniteDifference.Bumped | options_pricing_engine/src/analysis/fd_greeks.py:11-19 | the contract `_price` builds, every supplied value replacing its field; `OnlyOneFieldChanges` shows a single bump changes only its own field |
| FiniteDifference.RePrice | options_pricing_engine/src/analysis/fd_greeks.py:10-22 | re-pricing succeeds exactly when both constructors accept, returns the pricing function of the fresh pricer, reports the contract's error when the bumped contract is invalid, and the lattice's error when only the pricer rejects |
| FiniteDifference.BumpValidity | options_pricing_engine/src/analysis/fd_greeks.py:10-22 | a bumped valid contract is valid exactly when the bumped value is admissible, and otherwise fails with that field's error |
| FiniteDifference.CentralDefined | options_pricing_engine/src/analysis/fd_greeks.py:24-53 | a central difference is defined exactly when both bumped values are admissible |
| FiniteDifference.DownBumpRejected | options_pricing_engine/src/analysis/fd_greeks.py:24-53 | an admissible up bump with an inadmissible down bump raises the down contract's error |
| FiniteDifference.Central | options_pricing_engine/src/analysis/fd_greeks.py:24-53 | the shared central stencil; `CentralDefined`, `CentralSymmetric` and `CentralExactOnLines` state when it is defined, its symmetry in h and its exactness on lines |
| FiniteDifference.FdDelta | options_pricing_engine/src/analysis/fd_greeks.py:24-28 | the central difference in S; `EstimatesDefined` says it is defined exactly when S ± h > 0 |
| FiniteDifference.FdGamma | options_pricing_engine/src/analysis/fd_greeks.py:30-35 | the second difference in S; `EstimatesDefined` says it is defined exactly when S ± h > 0, and `GammaExactOnParabolas` that it is exact on quadratics |
| FiniteDifference.FdVega | options_pricing_engine/src/analysis/fd_greeks.py:37-41 | the central difference in σ; `EstimatesDefined` says it is defined exactly when σ ± h > 0 |
| FiniteDifference.FdTheta | options_pricing_engine/src/analysis/fd_greeks.py:43-47 | the central difference in T; `EstimatesDefined` says it is defined exactly when T ± h ≥ 0 |
| FiniteDifference.FdRho | options_pricing_engine/src/analysis/fd_greeks.py:49-53 | the central difference in r; `EstimatesDefined` says it is always defined |
| FiniteDifference.EstimatesDefined | options_pricing_engine/src/analysis/fd_greeks.py:24-53 | for a usable estimator: delta and gamma are defined exactly when S ± h > 0, vega when σ ± h > 0, theta when T ± h ≥ 0, and rho always |
| FiniteDifference.DefaultEstimator | options_pricing_engine/src/analysis/fd_greeks.py:5-8 | the estimator with the default N = 1000 |
| FiniteDifference.DefaultEstimatorUsable | options_pricing_engine/src/analysis/fd_greeks.py:5-8 | with the default N, an estimator is usable exactly when its contract is valid and its lowered style is known |
| FiniteDifference.CentralSymmetric | options_pricing_engine/src/analysis/fd_greeks.py:24-53 | replacing h by −h gives the same estimate, defined in the same cases |
| FiniteDifference.GammaSymmetric | options_pricing_engine/src/analysis/fd_greeks.py:30-35 | replacing h by −h gives the same gamma |
| FiniteDifference.CentralExactOnLines | options_pricing_engine/src/analysis/fd_greeks.py:24-53 | on a price linear in the bumped field, the estimate is exactly the slope |
| FiniteDifference.GammaExactOnParabolas | options_pricing_engine/src/analysis/fd_greeks.py:30-35 | on a price quadratic in S, the gamma estimate is exactly the second derivative |
| Detector.ParityDecision | options_pricing_engine/src/arbitrage/detector.py:10-48 | flags exactly when the net profit reaches the threshold; conversion exactly when calls are rich, reverse exactly when puts are, each with the positive mispricing |
| Detector.PutCallParity | options_pricing_engine/src/arbitrage/detector.py:10-48 | the parity report; `ParityDecision` states when it flags and which strategy it picks |
| Detector.ParityProfitAtMostGap | options_pricing_engine/src/arbitrage/detector.py:10-48 | with non-negative costs the profit never exceeds the mispricing |
| Detector.ModelPricesShowNoParityArbitrage | options_pricing_engine/src/arbitrage/detector.py:10-48 | Black–Scholes prices of a dividend-free contract are never flagged |
| Detector.BoxSpread | options_pricing_engine/src/arbitrage/detector.py:50-93 | K1 ≥ K2 raises first, then T ≤ 0; otherwise a report |
| Detector.BoxDecision | options_pricing_engine/src/arbitrage/detector.py:55-93 | flags exactly when the net profit reaches the threshold; buy when the box is cheap, sell when dear, with the box cost as the first cash flow |
| Detector.ParityPricedBoxIsFair | options_pricing_engine/src/arbitrage/detector.py:50-93 | if calls and puts satisfy parity at both strikes, the box is fairly priced and not flagged |
| Detector.MarketDecision | options_pricing_engine/src/arbitrage/detector.py:95-131 | flags exactly when the net mispricing reaches the threshold; sell above the model, buy below, with the delta-hedged cash flow |
| Detector.MarketReportOf | options_pricing_engine/src/arbitrage/detector.py:99-131 | the decision once the model price and delta are known; `MarketReportDecision` states it |
| Detector.MarketReportDecision | options_pricing_engine/src/arbitrage/detector.py:99-131 | for any model price and delta: flags exactly when the net mispricing reaches the threshold; sell above the model and buy below, with the delta-hedged cash flow |
| Detector.MarketPriceVsBsPrice | options_pricing_engine/src/arbitrage/detector.py:95-131 | the market-versus-model report; `MarketDecision` states when it flags and which side it takes |
| Detector.ModelQuoteIsNotArbitrage | options_pricing_engine/src/arbitrage/detector.py:95-131 | a quote equal to the model price is never flagged and has no action |
| Detector.BoundsOrdered | options_pricing_engine/src/arbitrage/detector.py:133-147 | the bounds are ordered and non-negative |
| Detector.BoundsDefined | options_pricing_engine/src/arbitrage/detector.py:133-147 | bounds are missing exactly for a non-call whose style is neither exact lower-case name |
| Detector.NonCallIsPut | options_pricing_engine/src/arbitrage/detector.py:134-147 | every type other than a lowered "call" gets the put bounds |
| Detector.CaseQuirks | options_pricing_engine/src/arbitrage/detector.py:134-147 | the type is lowered but the style is not: "CALL" always has bounds, "European" puts have none |
| Detector.Bounds | options_pricing_engine/src/arbitrage/detector.py:134-147 | the static bounds by type and style; `BoundsOrdered`, `BoundsDefined` and `NonCallIsPut` describe them |
| Detector.DefaultDividendBounds | options_pricing_engine/src/arbitrage/detector.py:133-147 | with q left at its default of 0 (and e^0 = 1), a call's bounds are [max(0, S − K·e^{−rT}), S] and an American put's [max(0, K − S), K] |
| Detector.CheckOptionBounds | options_pricing_engine/src/arbitrage/detector.py:133-174 | the bounds report; `BoundsDecision` states each violation and its profit |
| Detector.BoundsDecision | options_pricing_engine/src/arbitrage/detector.py:149-174 | reports the bounds; a violation below or above exactly under the source's tests, with the matching profit; 'arbitrage exists' stays false |
| Detector.ViolationsExclusive | options_pricing_engine/src/arbitrage/detector.py:157-172 | with ordered bounds the two violation tests cannot both hold |
| Detector.DefaultDetector | options_pricing_engine/src/arbitrage/detector.py:6-8 | the detector with no transaction cost and a 0.01 threshold |
| Detector.DefaultDetectorIsCostFree | options_pricing_engine/src/arbitrage/detector.py:6-8 | the default detector reports the whole parity or box mispricing as profit |
| Detector.DefaultDetectorSeesNoParityArbitrage | options_pricing_engine/src/arbitrage/detector.py:6-48 | the default detector finds no parity arbitrage in Black–Scholes prices of a dividend-free contract |

## Left out

- The `fetch_data.py` and `monte_carlo.py` modules are not part of this model. They do market-data I/O and random simulation.
- The numeric values of `exp`, `log`, `sqrt`, Φ and φ are left out. They are uninterpreted, and only the facts listed above are assumed about them, as lemma preconditions.
- IEEE floating point is left out: rounding, overflow, `inf` and `nan`. Where the source would divide by zero or take `log(0)`, the model asks for the case to be excluded instead: T > 0 for `d1`, the Greeks and the market check; a non-zero bump h; and a well-defined CRR or Leisen–Reimer calibration.
- `scipy.optimize.brentq` is a parameter of `IvBrent`, answering a root or no convergence. Its own root-finding is not modelled. Its error on a non-bracketing interval cannot arise, because the sign test runs first. Its refusal of `xtol <= 0` is modelled in `IvBrent` itself.
- The Black–Scholes class's own `iv_newton_raphson`, `implied_volatility_brent` and `partial_differential_equation` methods are left out (options_pricing_engine/src/models/black_scholes.py:82-127). The Newton method uses a name, `sigma_imp`, that is never bound, so it cannot run as written. The solver modelled in `iv_solver.dfy` covers both methods.
- The source imports `src/option_class.py`, `src/models/black_scholes.py` and `options_pricing_engine/src/models/binomial.py`, which are not part of this model. The model uses the `options_pricing_engine/src` option and Black–Scholes files and the `src/models/binomial.py` lattice in their place.
- A pricing function passed to the finite-difference estimator that itself raises is not modelled. The function is total, from a lattice configuration to a price.
- The messages of the raised errors and of the f-string action texts are not modelled. Each is represented by a datatype constructor that carries the numbers the text shows.
- Text.Lower: lowers ASCII letters only, because Python's Unicode case mapping is outside the model.
- FiniteDifference.FdGamma: divides by h twice rather than by h², which is the same over the reals.
- ImpliedVolatility.NewtonFrom: its lemmas are stated over an abstract price/vega curve. The solver's own curve (`SolverCurve`) is one instance of it, and `NewtonPricesWithinTolerance` makes that connection.
- ImpliedVolatility.ExpiryCurve: gives vega the value 0 at T = 0, where IEEE arithmetic gives 0 or NaN, because either value ends the loop with the same result.
- Detector.ModelQuoteIsNotArbitrage: requires the model price to be non-negative, because the transcendental axioms used here do not bound a Black–Scholes price from below.
- Detector.MarketPriceVsBsPrice: requires T > 0 because `d1` is undefined at expiry.
- Concurrency is left out; the source has none.
