/** The arbitrage detector: put-call parity, box spreads, the model-versus-
    market comparison and the static no-arbitrage price bounds, each as a
    report value built from a transaction-cost rate and a minimum profit. */
module Detector {
  import opened Wrappers
  import opened Numerics
  import opened Text
  import opened OptionClass
  import BlackScholes

  const DEFAULT_TRANSACTION_COST: real := 0.0
  const DEFAULT_MIN_THRESHOLD: real := 0.01
  const DEFAULT_DIVIDEND_YIELD: real := 0.0

  /** The two settings fixed at construction. */
  datatype ArbitrageDetector = ArbitrageDetector(transactionCost: real, minThreshold: real)

  function DefaultDetector(): ArbitrageDetector {
    ArbitrageDetector(DEFAULT_TRANSACTION_COST, DEFAULT_MIN_THRESHOLD)
  }

  // ---------------------------------------------------------------- parity

  /** A conversion sells the overpriced call (and lends the discounted
      strike); a reverse conversion sells the overpriced put (and borrows it). */
  datatype ParityStrategy =
    | Conversion(lend: real, initialInflow: real)
    | ReverseConversion(borrow: real, initialOutflow: real)

  /** The `put_call_parity` result dictionary. */
  datatype ParityReport = ParityReport(
    callPrice: real, putPrice: real, arbitrageExists: bool, profit: real,
    strategy: Option<ParityStrategy>)

  /** C + K·e^{-rT} − (P + S). */
  function ParityGap(t: Transcendentals, C: real, P: real, S: real, K: real, T: real, r: real): real {
    C + K * Discount(t, r, T) - (P + S)
  }

  /** |gap| less the cost of trading all four legs. */
  function ParityProfit(det: ArbitrageDetector, t: Transcendentals, C: real, P: real, S: real, K: real, T: real, r: real): real {
    Abs(ParityGap(t, C, P, S, K, T, r)) - det.transactionCost * (C + P + S + K * Discount(t, r, T))
  }

  function PutCallParity(det: ArbitrageDetector, t: Transcendentals, C: real, P: real, S: real, K: real, T: real, r: real)
    : ParityReport
  {
    var diff := ParityGap(t, C, P, S, K, T, r);
    var profit := ParityProfit(det, t, C, P, S, K, T, r);
    var exists_ := profit >= det.minThreshold;
    var strategy :=
      if exists_ && diff > 0.0 then Some(Conversion(K * Discount(t, r, T), diff))
      else if exists_ && diff < 0.0 then Some(ReverseConversion(K * Discount(t, r, T), -diff))
      else None;
    ParityReport(C, P, exists_, profit, strategy)
  }

  /** The report's flag and strategy, in both directions: a conversion
      exactly when the call side is rich, a reverse conversion exactly when
      the put side is, each carrying the strictly positive mispricing. */
  lemma ParityDecision(det: ArbitrageDetector, t: Transcendentals, C: real, P: real, S: real, K: real, T: real, r: real)
    ensures var rep := PutCallParity(det, t, C, P, S, K, T, r);
      var diff := ParityGap(t, C, P, S, K, T, r);
      && rep.callPrice == C && rep.putPrice == P
      && (rep.arbitrageExists <==> rep.profit >= det.minThreshold)
      && rep.profit == Abs(diff) - det.transactionCost * (C + P + S + K * Discount(t, r, T))
      && (rep.strategy.Some? && rep.strategy.value.Conversion? <==> rep.arbitrageExists && diff > 0.0)
      && (rep.strategy.Some? && rep.strategy.value.ReverseConversion? <==> rep.arbitrageExists && diff < 0.0)
      && (rep.strategy.Some? && rep.strategy.value.Conversion? ==> rep.strategy.value.initialInflow == diff > 0.0)
      && (rep.strategy.Some? && rep.strategy.value.ReverseConversion? ==> rep.strategy.value.initialOutflow == -diff > 0.0)
      && (rep.strategy.None? <==> !rep.arbitrageExists || diff == 0.0)
  {
  }

  /** Costs only eat into the mispricing: with a non-negative cost rate and
      a non-negative book, the profit never exceeds |gap|. */
  lemma ParityProfitAtMostGap(det: ArbitrageDetector, t: Transcendentals, C: real, P: real, S: real, K: real, T: real, r: real)
    requires det.transactionCost >= 0.0 && C + P + S + K * Discount(t, r, T) >= 0.0
    ensures PutCallParity(det, t, C, P, S, K, T, r).profit <= Abs(ParityGap(t, C, P, S, K, T, r))
  {
    ScaleBetween(det.transactionCost, C + P + S + K * Discount(t, r, T), 0.0, C + P + S + K * Discount(t, r, T));
  }

  /** Black-Scholes prices of a dividend-free contract satisfy parity
      exactly, so a detector with a positive threshold and a non-negative
      cost rate finds no parity arbitrage in them. */
  lemma ModelPricesShowNoParityArbitrage(det: ArbitrageDetector, t: Transcendentals, o: OptionContract)
    requires BlackScholes.Priceable(o) && Sound(t) && o.q == 0.0
    requires det.minThreshold > 0.0 && det.transactionCost >= 0.0
    ensures var C := BlackScholes.Price(t, o.(optionType := "call"));
      var P := BlackScholes.Price(t, o.(optionType := "put"));
      !PutCallParity(det, t, C, P, o.S, o.K, o.T, o.r).arbitrageExists
  {
    var C := BlackScholes.Price(t, o.(optionType := "call"));
    var P := BlackScholes.Price(t, o.(optionType := "put"));
    BlackScholes.PutCallParity(t, o);
    BlackScholes.HedgedPortfolioNonNegative(t, o);
    assert -o.q * o.T == 0.0;
    assert BlackScholes.DivDiscount(t, o) == 1.0;
    assert BlackScholes.RateDiscount(t, o) == Discount(t, o.r, o.T);
    assert ParityGap(t, C, P, o.S, o.K, o.T, o.r) == 0.0;
    var book := C + P + o.S + o.K * Discount(t, o.r, o.T);
    ScaleBetween(det.transactionCost, book, 0.0, book);
  }

  // ------------------------------------------------------------ box spread

  datatype BoxError = StrikesNotIncreasing | NonPositiveMaturity

  /** Buying the box pays its cost now for K2 − K1 at expiry; selling it is
      the reverse.  As in the source, the sell side reports the (negative)
      cost itself as its inflow. */
  datatype BoxStrategy =
    | BuyTheBox(initialOutflow: real, payoffAtMaturity: real)
    | SellTheBox(initialInflow: real, payoffAtMaturity: real)

  datatype BoxReport = BoxReport(arbitrageExists: bool, profit: real, strategy: Option<BoxStrategy>)

  /** (C1 − C2) + (P2 − P1): a long call spread and a long put spread. */
  function BoxCost(C1: real, C2: real, P1: real, P2: real): real {
    (C1 - C2) + (P2 - P1)
  }

  /** e^{-rT}·(K2 − K1) less the cost of the box. */
  function BoxGap(t: Transcendentals, C1: real, C2: real, P1: real, P2: real, K1: real, K2: real, T: real, r: real): real {
    Discount(t, r, T) * (K2 - K1) - BoxCost(C1, C2, P1, P2)
  }

  function BoxSpread(det: ArbitrageDetector, t: Transcendentals, C1: real, C2: real, P1: real, P2: real,
                     K1: real, K2: real, T: real, r: real): (res: Result<BoxReport, BoxError>)
    ensures res == Failure(StrikesNotIncreasing) <==> K1 >= K2
    ensures res == Failure(NonPositiveMaturity) <==> K1 < K2 && T <= 0.0
    ensures res.Success? <==> K1 < K2 && T > 0.0
  {
    if K1 >= K2 then Failure(StrikesNotIncreasing)
    else if T <= 0.0 then Failure(NonPositiveMaturity)
    else
      var cost := BoxCost(C1, C2, P1, P2);
      var payoff := K2 - K1;
      var diff := BoxGap(t, C1, C2, P1, P2, K1, K2, T, r);
      var profit := Abs(diff) - det.transactionCost * (C1 + C2 + P1 + P2);
      var exists_ := profit >= det.minThreshold;
      var strategy :=
        if exists_ && diff > 0.0 then Some(BuyTheBox(cost, payoff))
        else if exists_ && diff < 0.0 then Some(SellTheBox(cost, -payoff))
        else None;
      Success(BoxReport(exists_, profit, strategy))
  }

  /** Buy the box exactly when it is cheap, sell it exactly when it is rich;
      the payoff at maturity is K2 − K1 for a buyer and its negation for a
      seller. */
  lemma BoxDecision(det: ArbitrageDetector, t: Transcendentals, C1: real, C2: real, P1: real, P2: real,
                    K1: real, K2: real, T: real, r: real)
    requires K1 < K2 && T > 0.0
    ensures var rep := BoxSpread(det, t, C1, C2, P1, P2, K1, K2, T, r).value;
      var diff := BoxGap(t, C1, C2, P1, P2, K1, K2, T, r);
      && (rep.arbitrageExists <==> Abs(diff) - det.transactionCost * (C1 + C2 + P1 + P2) >= det.minThreshold)
      && rep.profit == Abs(diff) - det.transactionCost * (C1 + C2 + P1 + P2)
      && (rep.strategy.Some? && rep.strategy.value.BuyTheBox? <==> rep.arbitrageExists && diff > 0.0)
      && (rep.strategy.Some? && rep.strategy.value.SellTheBox? <==> rep.arbitrageExists && diff < 0.0)
      && (rep.strategy.Some? && rep.strategy.value.BuyTheBox? ==>
            rep.strategy.value.initialOutflow == BoxCost(C1, C2, P1, P2) && rep.strategy.value.payoffAtMaturity > 0.0)
      && (rep.strategy.Some? && rep.strategy.value.SellTheBox? ==>
            rep.strategy.value.initialInflow == BoxCost(C1, C2, P1, P2) && rep.strategy.value.payoffAtMaturity < 0.0)
  {
  }

  /** When call and put at both strikes satisfy parity, C − P = S − K·e^{-rT},
      the box costs exactly the discounted strike spread, and a detector with
      a positive threshold and a non-negative cost rate on a non-negative book
      reports nothing. */
  lemma ParityPricedBoxIsFair(det: ArbitrageDetector, t: Transcendentals, S: real, C1: real, C2: real,
                              P1: real, P2: real, K1: real, K2: real, T: real, r: real)
    requires K1 < K2 && T > 0.0
    requires C1 - P1 == S - K1 * Discount(t, r, T) && C2 - P2 == S - K2 * Discount(t, r, T)
    requires det.minThreshold > 0.0 && det.transactionCost >= 0.0 && C1 + C2 + P1 + P2 >= 0.0
    ensures BoxGap(t, C1, C2, P1, P2, K1, K2, T, r) == 0.0
    ensures !BoxSpread(det, t, C1, C2, P1, P2, K1, K2, T, r).value.arbitrageExists
  {
    var dr := Discount(t, r, T);
    assert BoxCost(C1, C2, P1, P2) == (C1 - P1) - (C2 - P2);
    assert dr * (K2 - K1) == K2 * dr - K1 * dr;
    var book := C1 + C2 + P1 + P2;
    ScaleBetween(det.transactionCost, book, 0.0, book);
  }

  // ------------------------------------------------------- model vs market

  /** Sell a rich option and buy delta shares, or buy a cheap one and sell
      delta shares. */
  datatype MarketAction = SellOption(initialCashflow: real) | BuyOption(initialCashflow: real)

  datatype MarketReport = MarketReport(
    marketPrice: real, bsPrice: real, delta: real, arbitrageExists: bool, profit: real,
    action: Option<MarketAction>)

  /** `market_price_vs_bs_price` on a constructed contract; delta divides by
      σ√T, so T > 0. */
  function MarketPriceVsBsPrice(det: ArbitrageDetector, t: Transcendentals, marketPrice: real, o: OptionContract)
    : MarketReport
    requires ValidContract(o) && o.T > 0.0 && SqrtPositive(t)
  {
    MarketReportOf(det, marketPrice, BlackScholes.Price(t, o), BlackScholes.Delta(t, o), o.S)
  }

  /** The decision of `market_price_vs_bs_price` once the model price and
      delta are known. */
  function MarketReportOf(det: ArbitrageDetector, marketPrice: real, bsPrice: real, delta: real, S: real)
    : MarketReport
  {
    var diff := marketPrice - bsPrice;
    var profit := Abs(diff) - det.transactionCost * (marketPrice + Abs(delta) * S);
    var cashflow := delta * S - marketPrice;
    var exists_ := profit >= det.minThreshold;
    var action :=
      if exists_ && diff > 0.0 then Some(SellOption(-cashflow))
      else if exists_ && diff < 0.0 then Some(BuyOption(cashflow))
      else None;
    MarketReport(marketPrice, bsPrice, delta, exists_, profit, action)
  }

  /** Sell exactly when the market is above the model, buy exactly when it
      is below, with the delta-hedge cash flow of the chosen side. */
  lemma MarketReportDecision(det: ArbitrageDetector, marketPrice: real, bsPrice: real, delta: real, S: real)
    ensures var rep := MarketReportOf(det, marketPrice, bsPrice, delta, S);
      var diff := marketPrice - bsPrice;
      && rep.bsPrice == bsPrice && rep.delta == delta && rep.marketPrice == marketPrice
      && (rep.arbitrageExists <==> Abs(diff) - det.transactionCost * (marketPrice + Abs(delta) * S) >= det.minThreshold)
      && (rep.action.Some? && rep.action.value.SellOption? <==> rep.arbitrageExists && diff > 0.0)
      && (rep.action.Some? && rep.action.value.BuyOption? <==> rep.arbitrageExists && diff < 0.0)
      && (rep.action.Some? && rep.action.value.SellOption? ==> rep.action.value.initialCashflow == marketPrice - delta * S)
      && (rep.action.Some? && rep.action.value.BuyOption? ==> rep.action.value.initialCashflow == delta * S - marketPrice)
  {
  }

  /** The same decision with the Black-Scholes price and delta of the
      contract. */
  lemma MarketDecision(det: ArbitrageDetector, t: Transcendentals, marketPrice: real, o: OptionContract)
    requires ValidContract(o) && o.T > 0.0 && SqrtPositive(t)
    ensures var rep := MarketPriceVsBsPrice(det, t, marketPrice, o);
      var diff := marketPrice - BlackScholes.Price(t, o);
      var delta := BlackScholes.Delta(t, o);
      && rep.bsPrice == BlackScholes.Price(t, o) && rep.delta == delta && rep.marketPrice == marketPrice
      && (rep.arbitrageExists <==> Abs(diff) - det.transactionCost * (marketPrice + Abs(delta) * o.S) >= det.minThreshold)
      && (rep.action.Some? && rep.action.value.SellOption? <==> rep.arbitrageExists && diff > 0.0)
      && (rep.action.Some? && rep.action.value.BuyOption? <==> rep.arbitrageExists && diff < 0.0)
      && (rep.action.Some? && rep.action.value.SellOption? ==> rep.action.value.initialCashflow == marketPrice - delta * o.S)
      && (rep.action.Some? && rep.action.value.BuyOption? ==> rep.action.value.initialCashflow == delta * o.S - marketPrice)
  {
    MarketReportDecision(det, marketPrice, BlackScholes.Price(t, o), BlackScholes.Delta(t, o), o.S);
  }

  /** A market quote equal to the model price is never flagged by a
      detector with a positive threshold and a non-negative cost rate. */
  lemma ModelQuoteIsNotArbitrage(det: ArbitrageDetector, t: Transcendentals, o: OptionContract)
    requires ValidContract(o) && o.T > 0.0 && SqrtPositive(t)
    requires BlackScholes.Price(t, o) >= 0.0
    requires det.minThreshold > 0.0 && det.transactionCost >= 0.0
    ensures MarketPriceVsBsPrice(det, t, BlackScholes.Price(t, o), o).action == None
    ensures !MarketPriceVsBsPrice(det, t, BlackScholes.Price(t, o), o).arbitrageExists
  {
    var m := BlackScholes.Price(t, o);
    var delta := BlackScholes.Delta(t, o);
    ScaleBetween(Abs(delta), o.S, 0.0, o.S);
    var book := m + Abs(delta) * o.S;
    ScaleBetween(det.transactionCost, book, 0.0, book);
  }

  // ---------------------------------------------------------- price bounds

  datatype BoundsError = UndefinedBounds

  datatype Violation = BelowLowerBound | AboveUpperBound

  /** The `check_option_bounds` result.  `arbitrageExists` is the
      `'arbitrage exists'` entry, which is never updated; `existsFlag` is the
      separate `'exists'` entry, present only on a violation. */
  datatype BoundsReport = BoundsReport(
    marketPrice: real, lowerBound: real, upperBound: real, arbitrageExists: bool, profit: real,
    existsFlag: Option<bool>, violation: Option<Violation>)

  /** The static bounds: a call in [max(0, S·Dq − K·Dr), S·Dq], a European
      put in [max(0, K·Dr − S·Dq), K·Dr], an American put in
      [max(0, K − S·Dq), K].  The type is lower-cased and anything but a call
      is a put; the style is compared as given, and a put of any other style
      has no bounds. */
  function Bounds(t: Transcendentals, optionStyle: string, optionType: string, S: real, K: real, T: real, r: real, q: real)
    : Result<(real, real), BoundsError>
  {
    var dq, dr := Discount(t, q, T), Discount(t, r, T);
    if Lower(optionType) == "call" then Success((Max(0.0, S * dq - K * dr), S * dq))
    else if optionStyle == "european" then Success((Max(0.0, K * dr - S * dq), K * dr))
    else if optionStyle == "american" then Success((Max(0.0, K - S * dq), K))
    else Failure(UndefinedBounds)
  }

  /** With positive prices and a positive exponential the bounds are
      ordered, and both are non-negative. */
  lemma BoundsOrdered(t: Transcendentals, optionStyle: string, optionType: string, S: real, K: real, T: real, r: real, q: real)
    requires ExpPositive(t) && S > 0.0 && K > 0.0
    requires Bounds(t, optionStyle, optionType, S, K, T, r, q).Success?
    ensures var (lo, hi) := Bounds(t, optionStyle, optionType, S, K, T, r, q).value;
      0.0 <= lo <= hi
  {
    var dq, dr := Discount(t, q, T), Discount(t, r, T);
    ScaleBetween(S, dq, 0.0, dq);
    ScaleBetween(K, dr, 0.0, dr);
  }

  /** Only the put side can lack bounds, and only for a style other than the
      two exact lower-case names. */
  lemma BoundsDefined(t: Transcendentals, optionStyle: string, optionType: string, S: real, K: real, T: real, r: real, q: real)
    ensures Bounds(t, optionStyle, optionType, S, K, T, r, q).Failure? <==>
      Lower(optionType) != "call" && optionStyle != "european" && optionStyle != "american"
  {
  }

  /** Every non-call type is priced as a put. */
  lemma NonCallIsPut(t: Transcendentals, optionStyle: string, optionType: string, S: real, K: real, T: real, r: real, q: real)
    requires Lower(optionType) != "call"
    ensures Bounds(t, optionStyle, optionType, S, K, T, r, q) == Bounds(t, optionStyle, "put", S, K, T, r, q)
  {
    assert Lower("put") == "put";
  }

  /** The type is case-insensitive but the style is not: "CALL" has bounds
      for any style, while a put styled "European" has none. */
  lemma CaseQuirks(t: Transcendentals, S: real, K: real, T: real, r: real, q: real)
    ensures Bounds(t, "anything", "CALL", S, K, T, r, q).Success?
    ensures Bounds(t, "European", "put", S, K, T, r, q) == Failure(UndefinedBounds)
  {
    assert Lower("CALL") == "call";
    assert Lower("put") == "put";
  }

  function CheckOptionBounds(det: ArbitrageDetector, t: Transcendentals, optionPrice: real, optionStyle: string,
                             optionType: string, S: real, K: real, T: real, r: real, q: real)
    : Result<BoundsReport, BoundsError>
  {
    var (lo, hi) :- Bounds(t, optionStyle, optionType, S, K, T, r, q);
    var tc := det.transactionCost * optionPrice;
    if optionPrice < lo - tc - det.minThreshold then
      Success(BoundsReport(optionPrice, lo, hi, false, lo - optionPrice - tc, Some(true), Some(BelowLowerBound)))
    else if optionPrice > hi + tc + det.minThreshold then
      Success(BoundsReport(optionPrice, lo, hi, false, optionPrice - hi - tc, Some(true), Some(AboveUpperBound)))
    else
      Success(BoundsReport(optionPrice, lo, hi, false, 0.0, None, None))
  }

  /** The report's decision, in both directions: below the lower bound net
      of costs and threshold is tested first, above the upper bound only
      otherwise; `'arbitrage exists'` stays false and `'exists'` marks a
      violation; a reported profit always exceeds the threshold. */
  lemma BoundsDecision(det: ArbitrageDetector, t: Transcendentals, optionPrice: real, optionStyle: string,
                       optionType: string, S: real, K: real, T: real, r: real, q: real)
    requires Bounds(t, optionStyle, optionType, S, K, T, r, q).Success?
    ensures var (lo, hi) := Bounds(t, optionStyle, optionType, S, K, T, r, q).value;
      var rep := CheckOptionBounds(det, t, optionPrice, optionStyle, optionType, S, K, T, r, q).value;
      var tc := det.transactionCost * optionPrice;
      && rep.lowerBound == lo && rep.upperBound == hi && rep.marketPrice == optionPrice
      && !rep.arbitrageExists
      && (rep.existsFlag == Some(true) <==> rep.violation.Some?)
      && (rep.existsFlag.None? <==> rep.violation.None?)
      && (rep.violation == Some(BelowLowerBound) <==> optionPrice < lo - tc - det.minThreshold)
      && (rep.violation == Some(AboveUpperBound) <==>
            !(optionPrice < lo - tc - det.minThreshold) && optionPrice > hi + tc + det.minThreshold)
      && (rep.violation == Some(BelowLowerBound) ==> rep.profit == lo - optionPrice - tc)
      && (rep.violation == Some(AboveUpperBound) ==> rep.profit == optionPrice - hi - tc)
      && (rep.violation.Some? ==> rep.profit > det.minThreshold)
      && (rep.violation.None? ==> rep.profit == 0.0)
  {
  }

  /** With ordered bounds, a non-negative cost and a non-negative threshold
      the two violation tests exclude each other, so their order in the
      source does not decide anything. */
  lemma ViolationsExclusive(det: ArbitrageDetector, optionPrice: real, lo: real, hi: real)
    requires lo <= hi && det.transactionCost * optionPrice >= 0.0 && det.minThreshold >= 0.0
    ensures !(optionPrice < lo - det.transactionCost * optionPrice - det.minThreshold
              && optionPrice > hi + det.transactionCost * optionPrice + det.minThreshold)
  {
  }

  // -------------------------------------------------------------- defaults

  /** The default detector charges nothing, so every reported profit is the
      whole mispricing. */
  lemma DefaultDetectorIsCostFree(t: Transcendentals, C: real, P: real, S: real, K: real, T: real, r: real,
                                  C1: real, C2: real, P1: real, P2: real, K1: real, K2: real)
    ensures PutCallParity(DefaultDetector(), t, C, P, S, K, T, r).profit == Abs(ParityGap(t, C, P, S, K, T, r))
    ensures K1 < K2 && T > 0.0 ==>
      BoxSpread(DefaultDetector(), t, C1, C2, P1, P2, K1, K2, T, r).value.profit
        == Abs(BoxGap(t, C1, C2, P1, P2, K1, K2, T, r))
  {
    if K1 < K2 && T > 0.0 {
      BoxDecision(DefaultDetector(), t, C1, C2, P1, P2, K1, K2, T, r);
    }
  }

  /** The default threshold is positive, so the default detector finds no
      parity arbitrage in Black-Scholes prices of a dividend-free contract. */
  lemma DefaultDetectorSeesNoParityArbitrage(t: Transcendentals, o: OptionContract)
    requires BlackScholes.Priceable(o) && Sound(t) && o.q == 0.0
    ensures var C := BlackScholes.Price(t, o.(optionType := "call"));
      var P := BlackScholes.Price(t, o.(optionType := "put"));
      !PutCallParity(DefaultDetector(), t, C, P, o.S, o.K, o.T, o.r).arbitrageExists
  {
    ModelPricesShowNoParityArbitrage(DefaultDetector(), t, o);
  }

  /** `check_option_bounds` with q left at its default: the stock side is
      undiscounted, so a call lies in [max(0, S − K·e^{−rT}), S] and an
      American put in [max(0, K − S), K]. */
  lemma DefaultDividendBounds(t: Transcendentals, optionStyle: string, optionType: string,
                              S: real, K: real, T: real, r: real)
    requires t.exp(0.0) == 1.0
    ensures var b := Bounds(t, optionStyle, optionType, S, K, T, r, DEFAULT_DIVIDEND_YIELD);
      Lower(optionType) == "call" ==> b.Success? && b.value == (Max(0.0, S - K * Discount(t, r, T)), S)
    ensures var b := Bounds(t, optionStyle, optionType, S, K, T, r, DEFAULT_DIVIDEND_YIELD);
      Lower(optionType) != "call" && optionStyle == "american" ==> b.Success? && b.value == (Max(0.0, K - S), K)
  {
    var dq, dr := Discount(t, DEFAULT_DIVIDEND_YIELD, T), Discount(t, r, T);
    assert -DEFAULT_DIVIDEND_YIELD * T == 0.0;
    assert S * dq == S;
    var b := Bounds(t, optionStyle, optionType, S, K, T, r, DEFAULT_DIVIDEND_YIELD);
    if Lower(optionType) == "call" {
      assert b.value.0 == Max(0.0, S * dq - K * dr) == Max(0.0, S - K * dr);
      assert Max(0.0, S - K * dr) == Max(0.0, S - K * Discount(t, r, T));
    } else if optionStyle == "american" {
      assert b.value.0 == Max(0.0, K - S * dq) == Max(0.0, K - S);
    }
  }
}
