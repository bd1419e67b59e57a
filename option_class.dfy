/** The option contract: seven fields stored by the constructor and a guard
    chain that decides whether construction succeeds. */
module OptionClass {
  import opened Wrappers

  const VALID_OPTION_TYPES: seq<string> := ["call", "put"]

  datatype OptionContract = OptionContract(
    optionType: string,
    S: real,      // current stock price
    K: real,      // strike price
    T: real,      // time to maturity in years
    sigma: real,  // volatility
    r: real,      // risk-free rate
    q: real       // dividend yield rate
  )

  /** The `ValueError` raised by each guard of `_validate_inputs`. */
  datatype ContractError =
    | InvalidOptionType
    | NonPositiveStockPrice
    | NonPositiveStrikePrice
    | NegativeMaturity
    | NonPositiveVolatility

  /** What a contract must satisfy to be constructed at all. */
  predicate ValidContract(o: OptionContract) {
    && o.optionType in VALID_OPTION_TYPES
    && o.S > 0.0
    && o.K > 0.0
    && o.T >= 0.0
    && o.sigma > 0.0
  }

  /** `_validate_inputs`: the guards run in the order type, S, K, T, sigma, so
      the first one that fails names the error. */
  function ValidateInputs(o: OptionContract): (res: Outcome<ContractError>)
    ensures res.Pass? <==> ValidContract(o)
    ensures res == Fail(InvalidOptionType) <==> o.optionType !in VALID_OPTION_TYPES
    ensures res == Fail(NonPositiveStockPrice) <==>
      o.optionType in VALID_OPTION_TYPES && o.S <= 0.0
    ensures res == Fail(NonPositiveStrikePrice) <==>
      o.optionType in VALID_OPTION_TYPES && o.S > 0.0 && o.K <= 0.0
    ensures res == Fail(NegativeMaturity) <==>
      o.optionType in VALID_OPTION_TYPES && o.S > 0.0 && o.K > 0.0 && o.T < 0.0
    ensures res == Fail(NonPositiveVolatility) <==>
      o.optionType in VALID_OPTION_TYPES && o.S > 0.0 && o.K > 0.0 && o.T >= 0.0 && o.sigma <= 0.0
  {
    if o.optionType !in VALID_OPTION_TYPES then Fail(InvalidOptionType)
    else if o.S <= 0.0 then Fail(NonPositiveStockPrice)
    else if o.K <= 0.0 then Fail(NonPositiveStrikePrice)
    else if o.T < 0.0 then Fail(NegativeMaturity)
    else if o.sigma <= 0.0 then Fail(NonPositiveVolatility)
    else Pass
  }

  /** `Option.__init__`: store the seven fields, then validate. */
  function NewOption(optionType: string, S: real, K: real, T: real, sigma: real, r: real, q: real)
    : (res: Result<OptionContract, ContractError>)
    ensures res.Success? <==>
      optionType in VALID_OPTION_TYPES && S > 0.0 && K > 0.0 && T >= 0.0 && sigma > 0.0
    ensures res.Success? ==>
      && res.value.optionType == optionType && res.value.S == S && res.value.K == K
      && res.value.T == T && res.value.sigma == sigma && res.value.r == r && res.value.q == q
    ensures res.Failure? ==>
      res.error == ValidateInputs(OptionContract(optionType, S, K, T, sigma, r, q)).error
  {
    var o := OptionContract(optionType, S, K, T, sigma, r, q);
    match ValidateInputs(o)
    case Pass => Success(o)
    case Fail(e) => Failure(e)
  }

  const DEFAULT_DIVIDEND_YIELD: real := 0.0

  /** `Option(...)` with q left at its default: the contract pays no
      dividend, and construction succeeds or fails exactly as it would for
      any other yield. */
  lemma DefaultDividendYield(optionType: string, S: real, K: real, T: real, sigma: real, r: real, q: real)
    ensures var d := NewOption(optionType, S, K, T, sigma, r, DEFAULT_DIVIDEND_YIELD);
      && (d.Success? ==> d.value.q == 0.0)
      && (d.Success? <==> NewOption(optionType, S, K, T, sigma, r, q).Success?)
      && (d.Failure? ==> d.error == NewOption(optionType, S, K, T, sigma, r, q).error)
  {
  }

  /** The `{'Value': {...}}` dictionary returned by `data()`: one key whose
      entries are the seven fields. */
  datatype OptionData = Value(
    optionType: string,
    stockPrice: real,
    strikePrice: real,
    timeToMaturity: real,
    volatility: real,
    riskFreeRate: real,
    dividendYield: real
  )

  function Data(o: OptionContract): OptionData {
    Value(o.optionType, o.S, o.K, o.T, o.sigma, o.r, o.q)
  }

  /** `data()` loses nothing: rebuilding a contract from its report gives back
      the same contract, and the report of a constructed contract is
      constructible again. */
  lemma DataRoundTrip(o: OptionContract)
    requires ValidContract(o)
    ensures var d := Data(o);
      NewOption(d.optionType, d.stockPrice, d.strikePrice, d.timeToMaturity,
                d.volatility, d.riskFreeRate, d.dividendYield) == Success(o)
  {
  }

  /** Two contracts with the same report are the same contract. */
  lemma DataInjective(o1: OptionContract, o2: OptionContract)
    requires Data(o1) == Data(o2)
    ensures o1 == o2
  {
  }

  /** Only the sign of T matters: T = 0 is accepted and every T < 0 rejected. */
  lemma MaturityBoundary(optionType: string, S: real, K: real, sigma: real, r: real, q: real)
    requires optionType in VALID_OPTION_TYPES && S > 0.0 && K > 0.0 && sigma > 0.0
    ensures NewOption(optionType, S, K, 0.0, sigma, r, q).Success?
    ensures forall T :: T < 0.0 ==>
      NewOption(optionType, S, K, T, sigma, r, q) == Failure(NegativeMaturity)
  {
  }

  /** The risk-free rate and the dividend yield are never checked: changing
      them (to a negative yield, say) never changes the outcome of construction. */
  lemma RatesUnconstrained(optionType: string, S: real, K: real, T: real, sigma: real,
                           r: real, q: real, r': real, q': real)
    ensures NewOption(optionType, S, K, T, sigma, r, q).Success?
        <==> NewOption(optionType, S, K, T, sigma, r', q').Success?
    ensures NewOption(optionType, S, K, T, sigma, r, q).Failure? ==>
      NewOption(optionType, S, K, T, sigma, r', q') == NewOption(optionType, S, K, T, sigma, r, q)
  {
  }

  /** The type test is exact: only the two lower-case names are accepted. */
  lemma TypeIsCaseSensitive(S: real, K: real, T: real, sigma: real, r: real, q: real)
    ensures NewOption("Call", S, K, T, sigma, r, q) == Failure(InvalidOptionType)
    ensures NewOption("PUT", S, K, T, sigma, r, q) == Failure(InvalidOptionType)
  {
    assert "Call" != "call" && "Call" != "put" by { assert "Call"[0] != "call"[0]; }
    assert "PUT" != "call" && "PUT" != "put" by { assert "PUT"[0] != "put"[0]; }
  }
}
