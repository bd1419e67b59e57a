/** Finite-difference Greeks: each estimate re-prices freshly built contracts
    that differ from the estimator's own in exactly one field, through a
    lattice pricer with the estimator's style and step count. */
module FiniteDifference {
  import opened Wrappers
  import opened OptionClass
  import opened Binomial
  import opened Text

  const DEFAULT_STEPS: int := 1000

  /** The estimator's three fields. */
  datatype FiniteDifferenceGreeks = FiniteDifferenceGreeks(option: OptionContract, optionStyle: string, n: int)

  /** What re-pricing can raise: the contract constructor or the lattice
      constructor rejecting its arguments. */
  datatype FdError = ContractRejected(contractError: ContractError) | LatticeRejected(latticeError: BinomialError)

  /** The four keyword arguments of `_price`; `None` keeps the field. */
  datatype Overrides = Overrides(S: Option<real>, T: Option<real>, sigma: Option<real>, r: Option<real>)

  /** The field a Greek bumps. */
  datatype Field = Spot | Maturity | Volatility | Rate

  function Value(o: OptionContract, f: Field): real {
    match f
    case Spot => o.S
    case Maturity => o.T
    case Volatility => o.sigma
    case Rate => o.r
  }

  /** Overrides that supply exactly one field. */
  function Only(f: Field, x: real): Overrides {
    match f
    case Spot => Overrides(Some(x), None, None, None)
    case Maturity => Overrides(None, Some(x), None, None)
    case Volatility => Overrides(None, None, Some(x), None)
    case Rate => Overrides(None, None, None, Some(x))
  }

  function Pick(given: Option<real>, current: real): real {
    if given.Some? then given.value else current
  }

  /** The fields `_price` hands to `Option(...)`: type, strike and dividend
      yield copied, every supplied value (0.0 included) replacing its field. */
  function Bumped(o: OptionContract, ov: Overrides): OptionContract {
    OptionContract(o.optionType, Pick(ov.S, o.S), o.K, Pick(ov.T, o.T), Pick(ov.sigma, o.sigma), Pick(ov.r, o.r), o.q)
  }

  /** Bumping one field sets that field and keeps every other one. */
  lemma OnlyOneFieldChanges(o: OptionContract, f: Field, x: real)
    ensures Value(Bumped(o, Only(f, x)), f) == x
    ensures forall g: Field :: g != f ==> Value(Bumped(o, Only(f, x)), g) == Value(o, g)
    ensures Bumped(o, Only(f, x)).optionType == o.optionType
    ensures Bumped(o, Only(f, x)).K == o.K && Bumped(o, Only(f, x)).q == o.q
  {
  }

  /** `_price`: a fresh contract from the overrides, a fresh lattice pricer
      with the estimator's own style and step count, and the pricing
      function applied to it. */
  function RePrice(g: FiniteDifferenceGreeks, priceFunc: BinomialConfig -> real, ov: Overrides)
    : (res: Result<real, FdError>)
    ensures var o := Bumped(g.option, ov);
      res.Success? <==> ValidContract(o) && NewBinomial(o, g.optionStyle, g.n).Success?
    ensures var o := Bumped(g.option, ov);
      res.Success? ==> res.value == priceFunc(BinomialConfig(o, Lower(g.optionStyle), g.n, o.T / (g.n as real)))
    ensures var o := Bumped(g.option, ov);
      !ValidContract(o) ==> res == Failure(ContractRejected(ValidateInputs(o).error))
    ensures var o := Bumped(g.option, ov);
      ValidContract(o) && NewBinomial(o, g.optionStyle, g.n).Failure? ==>
        res == Failure(LatticeRejected(NewBinomial(o, g.optionStyle, g.n).error))
  {
    var o := Bumped(g.option, ov);
    match NewOption(o.optionType, o.S, o.K, o.T, o.sigma, o.r, o.q)
    case Failure(e) => Failure(ContractRejected(e))
    case Success(option) =>
      match NewBinomial(option, g.optionStyle, g.n)
      case Failure(e) => Failure(LatticeRejected(e))
      case Success(model) => Success(priceFunc(model))
  }

  /** `(P(x + h) − P(x − h)) / (2h)` in one field, the up price first. */
  function Central(g: FiniteDifferenceGreeks, priceFunc: BinomialConfig -> real, f: Field, h: real)
    : Result<real, FdError>
    requires h != 0.0
  {
    var x := Value(g.option, f);
    var up :- RePrice(g, priceFunc, Only(f, x + h));
    var down :- RePrice(g, priceFunc, Only(f, x - h));
    Success((up - down) / (2.0 * h))
  }

  function FdDelta(g: FiniteDifferenceGreeks, priceFunc: BinomialConfig -> real, h: real): Result<real, FdError>
    requires h != 0.0
  {
    Central(g, priceFunc, Spot, h)
  }

  /** `(P(S + h) − 2·P(S) + P(S − h)) / h²`, written as two divisions by h
      (equal over the reals); the middle price passes S explicitly, which
      rebuilds the same contract. */
  function FdGamma(g: FiniteDifferenceGreeks, priceFunc: BinomialConfig -> real, h: real): Result<real, FdError>
    requires h != 0.0
  {
    var S := g.option.S;
    var up :- RePrice(g, priceFunc, Only(Spot, S + h));
    var mid :- RePrice(g, priceFunc, Only(Spot, S));
    var down :- RePrice(g, priceFunc, Only(Spot, S - h));
    Success((up - 2.0 * mid + down) / h / h)
  }

  function FdVega(g: FiniteDifferenceGreeks, priceFunc: BinomialConfig -> real, h: real): Result<real, FdError>
    requires h != 0.0
  {
    Central(g, priceFunc, Volatility, h)
  }

  function FdTheta(g: FiniteDifferenceGreeks, priceFunc: BinomialConfig -> real, h: real): Result<real, FdError>
    requires h != 0.0
  {
    Central(g, priceFunc, Maturity, h)
  }

  function FdRho(g: FiniteDifferenceGreeks, priceFunc: BinomialConfig -> real, h: real): Result<real, FdError>
    requires h != 0.0
  {
    Central(g, priceFunc, Rate, h)
  }

  /** The values a field may take in a valid contract. */
  predicate Admissible(f: Field, x: real) {
    match f
    case Spot => x > 0.0
    case Maturity => x >= 0.0
    case Volatility => x > 0.0
    case Rate => true
  }

  /** The constructor error for an inadmissible value of a field. */
  function FieldError(f: Field): ContractError
    requires f != Rate
  {
    match f
    case Spot => NonPositiveStockPrice
    case Maturity => NegativeMaturity
    case Volatility => NonPositiveVolatility
  }

  /** For a valid estimator, a bumped contract is valid exactly when the
      bumped value is admissible, and otherwise fails with that field's error. */
  lemma BumpValidity(g: FiniteDifferenceGreeks, f: Field, x: real)
    requires ValidContract(g.option)
    ensures ValidContract(Bumped(g.option, Only(f, x))) <==> Admissible(f, x)
    ensures !Admissible(f, x) ==> f != Rate && ValidateInputs(Bumped(g.option, Only(f, x))).error == FieldError(f)
  {
  }

  /** An estimator whose style and step count the lattice pricer accepts. */
  predicate Usable(g: FiniteDifferenceGreeks) {
    ValidContract(g.option) && g.n > 0 && Lower(g.optionStyle) in VALID_OPTION_STYLES
  }

  /** A central difference is defined exactly when both bumped values are
      admissible; the rate can always be bumped. */
  lemma CentralDefined(g: FiniteDifferenceGreeks, priceFunc: BinomialConfig -> real, f: Field, h: real)
    requires h != 0.0 && Usable(g)
    ensures var x := Value(g.option, f);
      Central(g, priceFunc, f, h).Success? <==> Admissible(f, x + h) && Admissible(f, x - h)
  {
    var x := Value(g.option, f);
    BumpValidity(g, f, x + h);
    BumpValidity(g, f, x - h);
  }

  /** An estimator built with the default step count, N = 1000. */
  function DefaultEstimator(option: OptionContract, optionStyle: string): FiniteDifferenceGreeks {
    FiniteDifferenceGreeks(option, optionStyle, DEFAULT_STEPS)
  }

  /** With the default step count, a valid contract and a style the lattice
      pricer knows are all an estimator needs to be usable. */
  lemma DefaultEstimatorUsable(option: OptionContract, optionStyle: string)
    ensures Usable(DefaultEstimator(option, optionStyle)) <==>
      ValidContract(option) && Lower(optionStyle) in VALID_OPTION_STYLES
  {
  }

  /** When each of the five estimates is defined.  Delta and gamma need both
      S + h and S − h positive, vega both σ ± h positive, and theta both
      T ± h non-negative.  Rho is always defined, since the rate is never
      checked. */
  lemma EstimatesDefined(g: FiniteDifferenceGreeks, priceFunc: BinomialConfig -> real, h: real)
    requires h != 0.0 && Usable(g)
    ensures FdDelta(g, priceFunc, h).Success? <==> g.option.S + h > 0.0 && g.option.S - h > 0.0
    ensures FdGamma(g, priceFunc, h).Success? <==> g.option.S + h > 0.0 && g.option.S - h > 0.0
    ensures FdVega(g, priceFunc, h).Success? <==> g.option.sigma + h > 0.0 && g.option.sigma - h > 0.0
    ensures FdTheta(g, priceFunc, h).Success? <==> g.option.T + h >= 0.0 && g.option.T - h >= 0.0
    ensures FdRho(g, priceFunc, h).Success?
  {
    CentralDefined(g, priceFunc, Spot, h);
    CentralDefined(g, priceFunc, Volatility, h);
    CentralDefined(g, priceFunc, Maturity, h);
    CentralDefined(g, priceFunc, Rate, h);
    var S := g.option.S;
    BumpValidity(g, Spot, S + h);
    BumpValidity(g, Spot, S);
    BumpValidity(g, Spot, S - h);
  }

  /** A valid up bump and an invalid down bump report the down contract's
      error: S − h ≤ 0, σ − h ≤ 0 or T − h < 0 raise rather than return. */
  lemma DownBumpRejected(g: FiniteDifferenceGreeks, priceFunc: BinomialConfig -> real, f: Field, h: real)
    requires h != 0.0 && Usable(g)
    requires Admissible(f, Value(g.option, f) + h) && !Admissible(f, Value(g.option, f) - h)
    ensures f != Rate && Central(g, priceFunc, f, h) == Failure(ContractRejected(FieldError(f)))
  {
    var x := Value(g.option, f);
    BumpValidity(g, f, x + h);
    BumpValidity(g, f, x - h);
  }

  /** Replacing h by −h swaps the two prices and the sign of the divisor,
      so the estimate is the same (and defined in the same cases). */
  lemma CentralSymmetric(g: FiniteDifferenceGreeks, priceFunc: BinomialConfig -> real, f: Field, h: real)
    requires h != 0.0
    ensures Central(g, priceFunc, f, h).Success? <==> Central(g, priceFunc, f, -h).Success?
    ensures Central(g, priceFunc, f, h).Success? ==>
      Central(g, priceFunc, f, h).value == Central(g, priceFunc, f, -h).value
  {
    var x := Value(g.option, f);
    assert Only(f, x + -h) == Only(f, x - h) && Only(f, x - -h) == Only(f, x + h);
    var up := RePrice(g, priceFunc, Only(f, x + h));
    var down := RePrice(g, priceFunc, Only(f, x - h));
    if up.Success? && down.Success? {
      assert Central(g, priceFunc, f, h).value == (up.value - down.value) / (2.0 * h);
      assert Central(g, priceFunc, f, -h).value == (down.value - up.value) / (2.0 * -h);
      SwapDifference(up.value, down.value, h);
    }
  }

  lemma SwapDifference(a: real, b: real, h: real)
    requires h != 0.0
    ensures (a - b) / (2.0 * h) == (b - a) / (2.0 * -h)
  {
    assert (b - a) == -(a - b);
    assert 2.0 * -h == -(2.0 * h);
  }

  lemma GammaSymmetric(g: FiniteDifferenceGreeks, priceFunc: BinomialConfig -> real, h: real)
    requires h != 0.0
    ensures FdGamma(g, priceFunc, h).Success? <==> FdGamma(g, priceFunc, -h).Success?
    ensures FdGamma(g, priceFunc, h).Success? ==> FdGamma(g, priceFunc, h).value == FdGamma(g, priceFunc, -h).value
  {
    var S := g.option.S;
    assert S + -h == S - h && S - -h == S + h;
    var up := RePrice(g, priceFunc, Only(Spot, S + h));
    var mid := RePrice(g, priceFunc, Only(Spot, S));
    var down := RePrice(g, priceFunc, Only(Spot, S - h));
    if up.Success? && mid.Success? && down.Success? {
      var x := up.value - 2.0 * mid.value + down.value;
      assert down.value - 2.0 * mid.value + up.value == x;
      TwiceOverNeg(x, h);
    }
  }

  lemma DivNegate(x: real, h: real)
    requires h != 0.0
    ensures x / (-h) == -(x / h)
  {
  }

  lemma NegOverNeg(x: real, h: real)
    requires h != 0.0
    ensures (-x) / (-h) == x / h
  {
  }

  lemma TwiceOverNeg(x: real, h: real)
    requires h != 0.0
    ensures x / (-h) / (-h) == x / h / h
  {
    DivNegate(x, h);
    NegOverNeg(x / h, h);
  }

  /** The central difference of a straight line is its slope. */
  lemma LineSlope(a: real, b: real, x: real, h: real)
    requires h != 0.0
    ensures ((a + b * (x + h)) - (a + b * (x - h))) / (2.0 * h) == b
  {
    assert (a + b * (x + h)) - (a + b * (x - h)) == b * (2.0 * h);
    DivideOut(b, 2.0 * h);
  }

  lemma DivideOut(b: real, c: real)
    requires c != 0.0
    ensures (b * c) / c == b
  {
  }

  /** When the pricing function is linear in the bumped field, the estimate
      is exactly the slope. */
  lemma CentralExactOnLines(g: FiniteDifferenceGreeks, priceFunc: BinomialConfig -> real, f: Field, h: real,
                            a: real, b: real)
    requires h != 0.0
    requires forall c :: priceFunc(c) == a + b * Value(c.option, f)
    requires Central(g, priceFunc, f, h).Success?
    ensures Central(g, priceFunc, f, h).value == b
  {
    var x := Value(g.option, f);
    var up, down := Bumped(g.option, Only(f, x + h)), Bumped(g.option, Only(f, x - h));
    OnlyOneFieldChanges(g.option, f, x + h);
    OnlyOneFieldChanges(g.option, f, x - h);
    var cu := BinomialConfig(up, Lower(g.optionStyle), g.n, up.T / (g.n as real));
    var cd := BinomialConfig(down, Lower(g.optionStyle), g.n, down.T / (g.n as real));
    assert RePrice(g, priceFunc, Only(f, x + h)).value == priceFunc(cu) == a + b * (x + h);
    assert RePrice(g, priceFunc, Only(f, x - h)).value == priceFunc(cd) == a + b * (x - h);
    LineSlope(a, b, x, h);
  }

  /** The numerator of the second difference of a + b·S + k·S². */
  lemma SecondDifference(a: real, b: real, k: real, x: real, h: real)
    ensures (a + b * (x + h) + k * ((x + h) * (x + h))) - 2.0 * (a + b * x + k * (x * x))
            + (a + b * (x - h) + k * ((x - h) * (x - h))) == ((2.0 * k) * h) * h
  {
    assert (x + h) * (x + h) == x * x + 2.0 * (x * h) + h * h;
    assert (x - h) * (x - h) == x * x - 2.0 * (x * h) + h * h;
  }

  /** The second difference of a parabola a + b·S + k·S² is 2k. */
  lemma ParabolaCurvature(a: real, b: real, k: real, x: real, h: real)
    requires h != 0.0
    ensures ((a + b * (x + h) + k * ((x + h) * (x + h))) - 2.0 * (a + b * x + k * (x * x))
             + (a + b * (x - h) + k * ((x - h) * (x - h)))) / h / h == 2.0 * k
  {
    SecondDifference(a, b, k, x, h);
    CancelTwice((a + b * (x + h) + k * ((x + h) * (x + h))) - 2.0 * (a + b * x + k * (x * x))
                + (a + b * (x - h) + k * ((x - h) * (x - h))), 2.0 * k, h);
  }

  lemma CancelOnce(n: real, c: real, h: real)
    requires h != 0.0 && n == c * h
    ensures n / h == c
  {
  }

  lemma CancelTwice(n: real, c: real, h: real)
    requires h != 0.0 && n == (c * h) * h
    ensures n / h / h == c
  {
    CancelOnce(n, c * h, h);
    CancelOnce(n / h, c, h);
  }

  /** When the pricing function is quadratic in the spot, gamma is exactly
      its second derivative. */
  lemma GammaExactOnParabolas(g: FiniteDifferenceGreeks, priceFunc: BinomialConfig -> real, h: real,
                              a: real, b: real, k: real)
    requires h != 0.0
    requires forall c :: priceFunc(c) == a + b * c.option.S + k * (c.option.S * c.option.S)
    requires FdGamma(g, priceFunc, h).Success?
    ensures FdGamma(g, priceFunc, h).value == 2.0 * k
  {
    var S := g.option.S;
    var up, mid, down := Bumped(g.option, Only(Spot, S + h)), Bumped(g.option, Only(Spot, S)),
                         Bumped(g.option, Only(Spot, S - h));
    var style := Lower(g.optionStyle);
    var cu := BinomialConfig(up, style, g.n, up.T / (g.n as real));
    var cm := BinomialConfig(mid, style, g.n, mid.T / (g.n as real));
    var cd := BinomialConfig(down, style, g.n, down.T / (g.n as real));
    assert up.S == S + h && mid.S == S && down.S == S - h;
    var pu, pm, pd := priceFunc(cu), priceFunc(cm), priceFunc(cd);
    assert pu == a + b * (S + h) + k * ((S + h) * (S + h));
    assert pm == a + b * S + k * (S * S);
    assert pd == a + b * (S - h) + k * ((S - h) * (S - h));
    assert FdGamma(g, priceFunc, h).value == (pu - 2.0 * pm + pd) / h / h;
    ParabolaCurvature(a, b, k, S, h);
  }
}
