/** The implied-volatility solver: input checks, the clamped Newton-Raphson
    loop over Black-Scholes price and vega, and the bracketing test in front
    of the Brent root-finder, which is an oracle parameter here. */
module ImpliedVolatility {
  import opened Wrappers
  import opened Numerics
  import OptionClass
  import BlackScholes

  /** |vega| below this stops the Newton iteration. */
  const VEGA_FLOOR: real := 0.00000001

  const DEFAULT_DIVIDEND_YIELD: real := 0.0
  const DEFAULT_LOWER_VOL: real := 0.000001
  const DEFAULT_UPPER_VOL: real := 5.0
  const DEFAULT_MAX_ITERATIONS: int := 100
  const DEFAULT_TOLERANCE: real := 0.000001
  const DEFAULT_INITIAL_SIGMA: real := 0.2

  datatype SolverError =
    | NonPositiveMarketPrice
    | InvalidOptionType
    | NonPositiveStockPrice
    | NonPositiveStrikePrice
    | NegativeMaturity
    | NonPositiveLowerVol
    | UpperNotAboveLower
    | NonPositiveIterations
    | NegativeTolerance

  /** The constructor arguments the solver stores. */
  datatype SolverInputs = SolverInputs(
    marketPrice: real, optionType: string, S: real, K: real, T: real, r: real, q: real,
    lowerVol: real, upperVol: real, maxIterations: int, tolerance: real)

  /** The constructor with every default argument left out. */
  function WithDefaults(marketPrice: real, optionType: string, S: real, K: real, T: real, r: real): SolverInputs {
    SolverInputs(marketPrice, optionType, S, K, T, r, DEFAULT_DIVIDEND_YIELD,
                 DEFAULT_LOWER_VOL, DEFAULT_UPPER_VOL, DEFAULT_MAX_ITERATIONS, DEFAULT_TOLERANCE)
  }

  predicate ValidInputs(s: SolverInputs) {
    && s.marketPrice > 0.0 && s.optionType in OptionClass.VALID_OPTION_TYPES
    && s.S > 0.0 && s.K > 0.0 && s.T >= 0.0
    && s.lowerVol > 0.0 && s.upperVol > s.lowerVol
    && s.maxIterations > 0 && s.tolerance >= 0.0
  }

  /** `_validate_inputs`: the first failing check, in source order; a zero
      tolerance passes. */
  function ValidateInputs(s: SolverInputs): (res: Outcome<SolverError>)
    ensures res.Pass? <==> ValidInputs(s)
    ensures res == Fail(NonPositiveMarketPrice) <==> s.marketPrice <= 0.0
    ensures res == Fail(InvalidOptionType) <==> s.marketPrice > 0.0 && s.optionType !in OptionClass.VALID_OPTION_TYPES
    ensures res == Fail(NonPositiveStockPrice) <==>
      s.marketPrice > 0.0 && s.optionType in OptionClass.VALID_OPTION_TYPES && s.S <= 0.0
    ensures res == Fail(NonPositiveStrikePrice) <==>
      s.marketPrice > 0.0 && s.optionType in OptionClass.VALID_OPTION_TYPES && s.S > 0.0 && s.K <= 0.0
    ensures res == Fail(NegativeMaturity) <==>
      s.marketPrice > 0.0 && s.optionType in OptionClass.VALID_OPTION_TYPES && s.S > 0.0 && s.K > 0.0 && s.T < 0.0
    ensures res == Fail(NonPositiveLowerVol) <==>
      s.marketPrice > 0.0 && s.optionType in OptionClass.VALID_OPTION_TYPES && s.S > 0.0 && s.K > 0.0 && s.T >= 0.0
      && s.lowerVol <= 0.0
    ensures res == Fail(UpperNotAboveLower) <==>
      s.marketPrice > 0.0 && s.optionType in OptionClass.VALID_OPTION_TYPES && s.S > 0.0 && s.K > 0.0 && s.T >= 0.0
      && s.lowerVol > 0.0 && s.upperVol <= s.lowerVol
    ensures res == Fail(NonPositiveIterations) <==>
      s.marketPrice > 0.0 && s.optionType in OptionClass.VALID_OPTION_TYPES && s.S > 0.0 && s.K > 0.0 && s.T >= 0.0
      && s.lowerVol > 0.0 && s.upperVol > s.lowerVol && s.maxIterations <= 0
    ensures res == Fail(NegativeTolerance) <==>
      s.marketPrice > 0.0 && s.optionType in OptionClass.VALID_OPTION_TYPES && s.S > 0.0 && s.K > 0.0 && s.T >= 0.0
      && s.lowerVol > 0.0 && s.upperVol > s.lowerVol && s.maxIterations > 0 && s.tolerance < 0.0
  {
    if s.marketPrice <= 0.0 then Fail(NonPositiveMarketPrice)
    else if s.optionType !in OptionClass.VALID_OPTION_TYPES then Fail(InvalidOptionType)
    else if s.S <= 0.0 then Fail(NonPositiveStockPrice)
    else if s.K <= 0.0 then Fail(NonPositiveStrikePrice)
    else if s.T < 0.0 then Fail(NegativeMaturity)
    else if s.lowerVol <= 0.0 then Fail(NonPositiveLowerVol)
    else if s.upperVol <= s.lowerVol then Fail(UpperNotAboveLower)
    else if s.maxIterations <= 0 then Fail(NonPositiveIterations)
    else if s.tolerance < 0.0 then Fail(NegativeTolerance)
    else Pass
  }

  /** With the default bounds, iteration count and tolerance, only the
      market and contract arguments can be rejected. */
  lemma DefaultsAccepted(marketPrice: real, optionType: string, S: real, K: real, T: real, r: real)
    ensures ValidInputs(WithDefaults(marketPrice, optionType, S, K, T, r)) <==>
      marketPrice > 0.0 && optionType in OptionClass.VALID_OPTION_TYPES && S > 0.0 && K > 0.0 && T >= 0.0
  {
  }

  /** The private contract each method prices with: the solver's fields and
      a trial volatility. */
  function Trial(s: SolverInputs, sigma: real): (o: OptionClass.OptionContract)
    ensures o.optionType == s.optionType && o.S == s.S && o.K == s.K && o.T == s.T
    ensures o.r == s.r && o.q == s.q && o.sigma == sigma
  {
    OptionClass.OptionContract(s.optionType, s.S, s.K, s.T, sigma, s.r, s.q)
  }

  /** The trial contract is exactly what `Option(...)` builds, and building
      it fails exactly when the trial volatility is not positive. */
  lemma TrialIsConstructed(s: SolverInputs, sigma: real)
    requires ValidInputs(s)
    ensures sigma > 0.0 ==> OptionClass.NewOption(s.optionType, s.S, s.K, s.T, sigma, s.r, s.q) == Success(Trial(s, sigma))
    ensures sigma <= 0.0 ==> OptionClass.NewOption(s.optionType, s.S, s.K, s.T, sigma, s.r, s.q) == Failure(OptionClass.NonPositiveVolatility)
  {
  }

  /** The default starting guess of `iv_newton_raphson`, 0.2, always passes
      the contract's checks, so with valid inputs the call with no argument
      never raises. */
  lemma DefaultGuessAccepted(s: SolverInputs)
    requires ValidInputs(s)
    ensures OptionClass.NewOption(s.optionType, s.S, s.K, s.T, DEFAULT_INITIAL_SIGMA, s.r, s.q)
         == Success(Trial(s, DEFAULT_INITIAL_SIGMA))
  {
    TrialIsConstructed(s, DEFAULT_INITIAL_SIGMA);
  }

  /** `min(max(x, lo), hi)`. */
  function Clamp(x: real, lo: real, hi: real): (r: real)
    requires lo <= hi
    ensures lo <= r <= hi
    ensures lo <= x <= hi ==> r == x
  {
    Min(Max(x, lo), hi)
  }

  /** The two quantities the Newton loop reads at a trial volatility: the
      model price and its vega. */
  datatype Curve = Curve(price: real -> real, vega: real -> real)

  /** Black-Scholes price and vega of the trial contract, as functions of
      the trial volatility (zero where the contract could not be built). */
  function BsCurve(t: Transcendentals, s: SolverInputs): (c: Curve)
    requires ValidInputs(s) && s.T > 0.0 && SqrtPositive(t)
    ensures forall x :: x > 0.0 ==> c.price(x) == BlackScholes.Price(t, Trial(s, x))
    ensures forall x :: x > 0.0 ==> c.vega(x) == BlackScholes.Vega(t, Trial(s, x))
  {
    Curve(x => if x > 0.0 then BlackScholes.Price(t, Trial(s, x)) else 0.0,
          x => if x > 0.0 then BlackScholes.Vega(t, Trial(s, x)) else 0.0)
  }

  /** The curve at expiry.  The price is the intrinsic value whatever the
      trial volatility.  In IEEE arithmetic the vega is 0 (`d1` is infinite)
      or NaN (S = K, `d1` is 0/0); a zero vega ends the loop at once, and a
      NaN vega turns every later trial into NaN, whose price is the same
      intrinsic value.  Either way only the first tolerance test can succeed,
      so the model takes the vega to be 0. */
  function ExpiryCurve(t: Transcendentals, s: SolverInputs): (c: Curve)
    requires ValidInputs(s) && s.T == 0.0 && SqrtPositive(t)
    ensures forall x :: x > 0.0 ==> c.price(x) == BlackScholes.Price(t, Trial(s, x))
    ensures forall x :: c.vega(x) == 0.0
  {
    Curve(x => if x > 0.0 then BlackScholes.Price(t, Trial(s, x)) else 0.0, x => 0.0)
  }

  /** The curve the solver's loop follows: Black-Scholes before expiry, the
      expiry curve at T = 0. */
  function SolverCurve(t: Transcendentals, s: SolverInputs): (c: Curve)
    requires ValidInputs(s) && SqrtPositive(t)
    ensures forall x :: x > 0.0 ==> c.price(x) == BlackScholes.Price(t, Trial(s, x))
    ensures s.T > 0.0 ==> forall x :: x > 0.0 ==> c.vega(x) == BlackScholes.Vega(t, Trial(s, x))
    ensures s.T == 0.0 ==> forall x :: c.vega(x) == 0.0
  {
    if s.T > 0.0 then BsCurve(t, s) else ExpiryCurve(t, s)
  }

  /** One Newton update, `sigma - diff / vega` clamped into the bracket. */
  function NewtonUpdate(c: Curve, s: SolverInputs, sigma: real): (next: real)
    requires ValidInputs(s) && c.vega(sigma) != 0.0
    ensures s.lowerVol <= next <= s.upperVol
  {
    Clamp(sigma - (c.price(sigma) - s.marketPrice) / c.vega(sigma), s.lowerVol, s.upperVol)
  }

  /** What the Newton loop returns from `sigma` with `fuel` iterations left:
      the trial volatility as soon as the price is within tolerance, nothing
      once vega falls below the floor or the iterations run out. */
  function NewtonFrom(c: Curve, s: SolverInputs, sigma: real, fuel: nat): (r: Option<real>)
    requires ValidInputs(s) && sigma > 0.0
    ensures r.Some? ==> r.value > 0.0
    decreases fuel
  {
    if fuel == 0 then None
    else if Abs(c.price(sigma) - s.marketPrice) < s.tolerance then Some(sigma)
    else if Abs(c.vega(sigma)) < VEGA_FLOOR then None
    else NewtonFrom(c, s, NewtonUpdate(c, s, sigma), fuel - 1)
  }

  /** A returned volatility prices the option within tolerance of the market. */
  lemma {:induction false} NewtonConverged(c: Curve, s: SolverInputs, sigma: real, fuel: nat)
    requires ValidInputs(s) && sigma > 0.0
    requires NewtonFrom(c, s, sigma, fuel).Some?
    ensures Abs(c.price(NewtonFrom(c, s, sigma, fuel).value) - s.marketPrice) < s.tolerance
    decreases fuel
  {
    if Abs(c.price(sigma) - s.marketPrice) >= s.tolerance {
      NewtonConverged(c, s, NewtonUpdate(c, s, sigma), fuel - 1);
    }
  }

  /** For the solver's curve: the Black-Scholes price at the returned
      volatility is within tolerance of the market price. */
  lemma NewtonPricesWithinTolerance(t: Transcendentals, s: SolverInputs, sigma: real, fuel: nat)
    requires ValidInputs(s) && SqrtPositive(t) && sigma > 0.0
    requires NewtonFrom(SolverCurve(t, s), s, sigma, fuel).Some?
    ensures var x := NewtonFrom(SolverCurve(t, s), s, sigma, fuel).value;
      x > 0.0 && Abs(BlackScholes.Price(t, Trial(s, x)) - s.marketPrice) < s.tolerance
  {
    NewtonConverged(SolverCurve(t, s), s, sigma, fuel);
  }

  /** The intrinsic value of the solver's contract: what it is worth at expiry. */
  function ExpiryValue(s: SolverInputs): real {
    if s.optionType == "call" then Max(s.S - s.K, 0.0) else Max(s.K - s.S, 0.0)
  }

  /** At expiry the solver returns the initial guess exactly when the
      intrinsic value is within tolerance of the market price, and nothing
      otherwise. */
  lemma ExpiryNewton(t: Transcendentals, s: SolverInputs, sigma: real, fuel: nat)
    requires ValidInputs(s) && s.T == 0.0 && SqrtPositive(t) && sigma > 0.0
    ensures NewtonFrom(SolverCurve(t, s), s, sigma, fuel) ==
      if fuel > 0 && Abs(ExpiryValue(s) - s.marketPrice) < s.tolerance then Some(sigma) else None
  {
    var c := SolverCurve(t, s);
    assert c.price(sigma) == BlackScholes.Price(t, Trial(s, sigma));
    assert c.vega(sigma) == 0.0;
  }

  /** A returned volatility is the initial guess (which is never clamped) or
      lies in the bracket [lower_vol, upper_vol]. */
  lemma {:induction false} NewtonInBracket(c: Curve, s: SolverInputs, sigma: real, fuel: nat)
    requires ValidInputs(s) && sigma > 0.0
    requires NewtonFrom(c, s, sigma, fuel).Some?
    ensures var x := NewtonFrom(c, s, sigma, fuel).value;
      x == sigma || s.lowerVol <= x <= s.upperVol
    decreases fuel
  {
    if Abs(c.price(sigma) - s.marketPrice) >= s.tolerance {
      NewtonInBracket(c, s, NewtonUpdate(c, s, sigma), fuel - 1);
    }
  }

  /** A zero tolerance is accepted but can never be met: Newton then always
      reports no convergence. */
  lemma {:induction false} ZeroToleranceNeverConverges(c: Curve, s: SolverInputs, sigma: real, fuel: nat)
    requires ValidInputs(s) && sigma > 0.0 && s.tolerance == 0.0
    ensures NewtonFrom(c, s, sigma, fuel) == None
    decreases fuel
  {
    if fuel > 0 && Abs(c.vega(sigma)) >= VEGA_FLOOR {
      ZeroToleranceNeverConverges(c, s, NewtonUpdate(c, s, sigma), fuel - 1);
    }
  }

  /** An extra iteration can only turn "no convergence" into a result; a
      result found within the budget stays the same. */
  lemma {:induction false} NewtonMoreFuel(c: Curve, s: SolverInputs, sigma: real, fuel: nat)
    requires ValidInputs(s) && sigma > 0.0
    requires NewtonFrom(c, s, sigma, fuel).Some?
    ensures NewtonFrom(c, s, sigma, fuel + 1) == NewtonFrom(c, s, sigma, fuel)
    decreases fuel
  {
    if Abs(c.price(sigma) - s.marketPrice) >= s.tolerance {
      NewtonMoreFuel(c, s, NewtonUpdate(c, s, sigma), fuel - 1);
    }
  }

  /** The Brent objective: Black-Scholes price at a trial volatility minus
      the market price. */
  function Objective(t: Transcendentals, s: SolverInputs, sigma: real): real
    requires ValidInputs(s) && SqrtPositive(t) && sigma > 0.0
  {
    BlackScholes.Price(t, Trial(s, sigma)) - s.marketPrice
  }

  /** The objective as the function value `brentq` receives. */
  function ObjectiveOf(t: Transcendentals, s: SolverInputs): real --> real
    requires ValidInputs(s) && SqrtPositive(t)
  {
    x requires x > 0.0 => Objective(t, s, x)
  }

  /** What `brentq` raises once it is called: `xtol <= 0` is refused before
      any evaluation, and a run that has not converged within `maxiter`
      iterations raises instead of returning. */
  datatype BrentError = XtolTooSmall | NotConverged

  /** `lower * upper > 0` is the "no root in the bracket" test; the
      opposite case is exactly a sign change or a root at an end. */
  lemma BracketSigns(lower: real, upper: real)
    ensures lower * upper <= 0.0 <==> (lower <= 0.0 <= upper || upper <= 0.0 <= lower)
  {
    if lower > 0.0 && upper > 0.0 {
      assert lower * upper > 0.0;
    } else if lower < 0.0 && upper < 0.0 {
      assert (-lower) * (-upper) > 0.0;
    } else if lower <= 0.0 <= upper {
      assert (-lower) * upper >= 0.0;
    } else {
      assert lower * (-upper) >= 0.0;
    }
  }

  /** One unfolding of `NewtonFrom`, in terms of the price and vega read
      at the trial volatility. */
  lemma NewtonStep(c: Curve, s: SolverInputs, sigma: real, fuel: nat, price: real, vega: real)
    requires ValidInputs(s) && sigma > 0.0 && fuel > 0
    requires price == c.price(sigma) && vega == c.vega(sigma)
    ensures Abs(price - s.marketPrice) < s.tolerance ==> NewtonFrom(c, s, sigma, fuel) == Some(sigma)
    ensures Abs(price - s.marketPrice) >= s.tolerance && Abs(vega) < VEGA_FLOOR ==>
      NewtonFrom(c, s, sigma, fuel) == None
    ensures Abs(price - s.marketPrice) >= s.tolerance && Abs(vega) >= VEGA_FLOOR ==>
      && vega != 0.0
      && NewtonFrom(c, s, sigma, fuel)
         == NewtonFrom(c, s, Clamp(sigma - (price - s.marketPrice) / vega, s.lowerVol, s.upperVol), fuel - 1)
  {
  }

  /** The Newton loop of `iv_newton_raphson`: at most `max_iterations`
      evaluations of price and vega at the trial volatility (`bs.price()` and
      `bs.vega()` after `bs.option.sigma = sigma`), each update clamped into
      the bracket. */
  method NewtonLoop(c: Curve, s: SolverInputs, initial: real) returns (r: Option<real>)
    requires ValidInputs(s) && initial > 0.0
    ensures r == NewtonFrom(c, s, initial, s.maxIterations)
  {
    var vol := initial;
    var i := 0;
    while i < s.maxIterations
      invariant 0 <= i <= s.maxIterations && vol > 0.0
      invariant NewtonFrom(c, s, vol, s.maxIterations - i) == NewtonFrom(c, s, initial, s.maxIterations)
    {
      var price := c.price(vol);
      var vega := c.vega(vol);
      ghost var fuel: nat := s.maxIterations - i;
      NewtonStep(c, s, vol, fuel, price, vega);
      var diff := price - s.marketPrice;
      if Abs(diff) < s.tolerance {
        return Some(vol);
      }
      if Abs(vega) < VEGA_FLOOR {
        break;
      }
      ghost var previous := vol;
      vol := vol - diff / vega;
      vol := Min(Max(vol, s.lowerVol), s.upperVol);
      assert vol == Clamp(previous - diff / vega, s.lowerVol, s.upperVol);
      i := i + 1;
      assert s.maxIterations - i == fuel - 1;
    }
    r := None;
  }

  class ImpliedVolatilitySolver {
    const inputs: SolverInputs
    /** `self.sigma`: absent until a method succeeds. */
    var sigma: Option<real>

    constructor (inputs: SolverInputs)
      ensures this.inputs == inputs && sigma == None
    {
      this.inputs := inputs;
      sigma := None;
    }

    /** `ImpliedVolatilitySolver(...)`: a solver, or the error
        `_validate_inputs` raises. */
    static method Create(inputs: SolverInputs) returns (res: Result<ImpliedVolatilitySolver, SolverError>)
      ensures res.Failure? <==> ValidateInputs(inputs).Fail?
      ensures res.Failure? ==> ValidateInputs(inputs) == Fail(res.error)
      ensures res.Success? ==> fresh(res.value) && res.value.inputs == inputs && res.value.sigma == None
    {
      var check := ValidateInputs(inputs);
      if check.Fail? {
        res := Failure(check.error);
      } else {
        var solver := new ImpliedVolatilitySolver(inputs);
        res := Success(solver);
      }
    }

    /** `iv_newton_raphson(sigma)`: building the private contract rejects a
        non-positive guess; otherwise the loop's result, stored on success. */
    method IvNewtonRaphson(t: Transcendentals, initial: real) returns (res: Result<Option<real>, OptionClass.ContractError>)
      requires ValidInputs(inputs) && SqrtPositive(t)
      modifies this`sigma
      ensures initial <= 0.0 ==> res == Failure(OptionClass.NonPositiveVolatility)
      ensures initial > 0.0 ==> res == Success(NewtonFrom(SolverCurve(t, inputs), inputs, initial, inputs.maxIterations))
      ensures (res.Success? && res.value.Some?) ==> sigma == res.value
      ensures (res.Failure? || res.value.None?) ==> sigma == old(sigma)
    {
      var s := inputs;
      var _ :- OptionClass.NewOption(s.optionType, s.S, s.K, s.T, initial, s.r, s.q);
      var found := NewtonLoop(SolverCurve(t, s), s, initial);
      if found.Some? {
        sigma := found;
      }
      res := Success(found);
    }

    /** `iv_brent()`: no root-finding when the objective has the same strict
        sign at both ends of the bracket.  Otherwise `brentq` runs with
        `xtol` set to the tolerance.  It raises at once for `xtol <= 0`, which
        validation lets through as a zero tolerance.  The oracle answers
        `None` when it has not converged within `max_iterations`, where
        `brentq` raises.  A root is stored in `sigma`, and an error leaves
        `sigma` unchanged. */
    method IvBrent(t: Transcendentals, brentq: (real --> real, real, real, int, real) -> Option<real>)
      returns (res: Result<Option<real>, BrentError>)
      requires ValidInputs(inputs) && SqrtPositive(t)
      modifies this`sigma
      ensures var lo, hi := Objective(t, inputs, inputs.lowerVol), Objective(t, inputs, inputs.upperVol);
        var run := brentq(ObjectiveOf(t, inputs), inputs.lowerVol, inputs.upperVol, inputs.maxIterations, inputs.tolerance);
        && (lo * hi > 0.0 ==> res == Success(None))
        && (lo * hi <= 0.0 && inputs.tolerance <= 0.0 ==> res == Failure(XtolTooSmall))
        && (lo * hi <= 0.0 && inputs.tolerance > 0.0 && run.None? ==> res == Failure(NotConverged))
        && (lo * hi <= 0.0 && inputs.tolerance > 0.0 && run.Some? ==> res == Success(run))
      ensures res.Success? && res.value.Some? ==> sigma == res.value
      ensures res.Failure? || res.value.None? ==> sigma == old(sigma)
    {
      var s := inputs;
      var lower := Objective(t, s, s.lowerVol);
      var upper := Objective(t, s, s.upperVol);
      if lower * upper > 0.0 {
        return Success(None);
      }
      if s.tolerance <= 0.0 {
        return Failure(XtolTooSmall);
      }
      var run := brentq(ObjectiveOf(t, s), s.lowerVol, s.upperVol, s.maxIterations, s.tolerance);
      if run.None? {
        return Failure(NotConverged);
      }
      sigma := run;
      res := Success(run);
    }
  }
}
