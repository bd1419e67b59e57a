/** The analytic (Black-Scholes) pricer: d1/d2, the price with its T = 0
    short-circuit, the five Greeks and the scaled Greek table.  Every formula
    branches on the option type with "call" against everything else. */
module BlackScholes {
  import opened Numerics
  import opened OptionClass

  /** What the formulas need of the contract they are given: the numeric part
      of a validated contract.  The type is not checked again; anything other
      than "call" is priced as a put. */
  predicate Priceable(o: OptionContract) {
    o.S > 0.0 && o.K > 0.0 && o.T >= 0.0 && o.sigma > 0.0
  }

  predicate IsCall(o: OptionContract) {
    o.optionType == "call"
  }

  /** e^{-qT}, the dividend discount factor. */
  function DivDiscount(t: Transcendentals, o: OptionContract): real {
    Discount(t, o.q, o.T)
  }

  /** e^{-rT}, the risk-free discount factor. */
  function RateDiscount(t: Transcendentals, o: OptionContract): real {
    Discount(t, o.r, o.T)
  }

  /** σ√T, the denominator of d1; positive once T > 0. */
  function SigmaRootT(t: Transcendentals, o: OptionContract): (r: real)
    requires Priceable(o) && o.T > 0.0 && SqrtPositive(t)
    ensures r > 0.0
  {
    VolatilityOverHorizon(t, o.sigma, o.T)
  }

  function VolatilityOverHorizon(t: Transcendentals, sigma: real, T: real): (r: real)
    requires sigma > 0.0 && T > 0.0 && SqrtPositive(t)
    ensures r > 0.0
  {
    assert t.sqrt(T) > 0.0;
    sigma * t.sqrt(T)
  }

  /** `_d1`, written over the scalar fields it reads. */
  function D1(t: Transcendentals, o: OptionContract): real
    requires Priceable(o) && o.T > 0.0 && SqrtPositive(t)
  {
    StandardizedMoneyness(t, o.S, o.K, o.T, o.sigma, o.r, o.q)
  }

  function StandardizedMoneyness(t: Transcendentals, S: real, K: real, T: real, sigma: real, r: real, q: real): real
    requires S > 0.0 && K > 0.0 && T > 0.0 && sigma > 0.0 && SqrtPositive(t)
  {
    (t.log(S / K) + (r - q + 0.5 * sigma * sigma) * T) / VolatilityOverHorizon(t, sigma, T)
  }

  /** `_d2`. */
  function D2(t: Transcendentals, o: OptionContract): real
    requires Priceable(o) && o.T > 0.0 && SqrtPositive(t)
  {
    D1(t, o) - SigmaRootT(t, o)
  }

  /** d2 = d1 − σ√T agrees with the textbook closed form
      (ln(S/K) + (r − q − σ²/2)T) / (σ√T), because √T·√T = T. */
  lemma D2ClosedForm(t: Transcendentals, o: OptionContract)
    requires Priceable(o) && o.T > 0.0 && Sound(t)
    ensures D2(t, o) ==
      (t.log(o.S / o.K) + (o.r - o.q - 0.5 * o.sigma * o.sigma) * o.T) / SigmaRootT(t, o)
  {
    var den := SigmaRootT(t, o);
    var a := t.log(o.S / o.K) + (o.r - o.q + 0.5 * o.sigma * o.sigma) * o.T;
    var root := t.sqrt(o.T);
    assert root * root == o.T;
    assert den * den == o.sigma * o.sigma * o.T by {
      assert den * den == (o.sigma * o.sigma) * (root * root);
    }
    SubOverDen(a, den, den);
    assert a - den * den == t.log(o.S / o.K) + (o.r - o.q - 0.5 * o.sigma * o.sigma) * o.T;
  }

  /** `price`: the intrinsic value when T == 0, else the discounted-CDF formula. */
  function Price(t: Transcendentals, o: OptionContract): (p: real)
    requires Priceable(o) && SqrtPositive(t)
    ensures o.T == 0.0 && IsCall(o) ==> p == Max(o.S - o.K, 0.0)
    ensures o.T == 0.0 && !IsCall(o) ==> p == Max(o.K - o.S, 0.0)
    ensures o.T == 0.0 ==> p >= 0.0
  {
    if IsCall(o) then
      if o.T == 0.0 then Max(o.S - o.K, 0.0)
      else o.S * DivDiscount(t, o) * t.cdf(D1(t, o)) - o.K * RateDiscount(t, o) * t.cdf(D2(t, o))
    else
      if o.T == 0.0 then Max(o.K - o.S, 0.0)
      else o.K * RateDiscount(t, o) * t.cdf(-D2(t, o)) - o.S * DivDiscount(t, o) * t.cdf(-D1(t, o))
  }

  /** A call is worth at most the discounted stock, a put at most the
      discounted strike (T > 0), given 0 ≤ Φ ≤ 1 and e^x > 0. */
  lemma PriceUpperBounds(t: Transcendentals, o: OptionContract)
    requires Priceable(o) && o.T > 0.0 && Sound(t)
    ensures IsCall(o) ==> Price(t, o) <= o.S * DivDiscount(t, o)
    ensures !IsCall(o) ==> Price(t, o) <= o.K * RateDiscount(t, o)
  {
    var dq, dr := DivDiscount(t, o), RateDiscount(t, o);
    var d1, d2 := D1(t, o), D2(t, o);
    assert dq > 0.0 && dr > 0.0;
    assert o.S * dq > 0.0 && o.K * dr > 0.0;
    if IsCall(o) {
      DifferenceBelowFirst(o.S * dq, t.cdf(d1), o.K * dr, t.cdf(d2));
    } else {
      DifferenceBelowFirst(o.K * dr, t.cdf(-d2), o.S * dq, t.cdf(-d1));
    }
  }

  /** x·c − y·e ≤ x for non-negative x, y and weights c, e in [0, 1]. */
  lemma DifferenceBelowFirst(x: real, c: real, y: real, e: real)
    requires x >= 0.0 && y >= 0.0 && 0.0 <= c <= 1.0 && 0.0 <= e <= 1.0
    ensures x * c - y * e <= x
  {
    ScaleBetween(x, c, 0.0, 1.0);
    ScaleBetween(y, e, 0.0, 1.0);
  }

  /** Put-call parity, C − P = S·e^{-qT} − K·e^{-rT}, for every T ≥ 0: from
      Φ(x) + Φ(−x) = 1 when T > 0, and from e^0 = 1 at the short-circuit. */
  lemma PutCallParity(t: Transcendentals, o: OptionContract)
    requires Priceable(o) && Sound(t)
    ensures Price(t, o.(optionType := "call")) - Price(t, o.(optionType := "put"))
         == o.S * DivDiscount(t, o) - o.K * RateDiscount(t, o)
  {
    if o.T == 0.0 {
      ParityAtExpiry(t, o);
    } else {
      ParityBeforeExpiry(t, o);
    }
  }

  lemma ParityAtExpiry(t: Transcendentals, o: OptionContract)
    requires Priceable(o) && o.T == 0.0 && t.exp(0.0) == 1.0 && SqrtPositive(t)
    ensures Price(t, o.(optionType := "call")) - Price(t, o.(optionType := "put"))
         == o.S * DivDiscount(t, o) - o.K * RateDiscount(t, o)
  {
    assert -o.q * o.T == 0.0 && -o.r * o.T == 0.0;
    assert DivDiscount(t, o) == 1.0 && RateDiscount(t, o) == 1.0;
  }

  lemma ParityBeforeExpiry(t: Transcendentals, o: OptionContract)
    requires Priceable(o) && o.T > 0.0 && SqrtPositive(t)
    requires forall x :: t.cdf(x) + t.cdf(-x) == 1.0
    ensures Price(t, o.(optionType := "call")) - Price(t, o.(optionType := "put"))
         == o.S * DivDiscount(t, o) - o.K * RateDiscount(t, o)
  {
    var c, p := o.(optionType := "call"), o.(optionType := "put");
    var d1, d2 := D1(t, o), D2(t, o);
    var a, b := o.S * DivDiscount(t, o), o.K * RateDiscount(t, o);
    assert Price(t, c) == a * t.cdf(d1) - b * t.cdf(d2) by {
      assert D1(t, c) == d1 && D2(t, c) == d2;
      assert DivDiscount(t, c) == DivDiscount(t, o) && RateDiscount(t, c) == RateDiscount(t, o);
    }
    assert Price(t, p) == b * t.cdf(-d2) - a * t.cdf(-d1) by {
      assert D1(t, p) == d1 && D2(t, p) == d2;
      assert DivDiscount(t, p) == DivDiscount(t, o) && RateDiscount(t, p) == RateDiscount(t, o);
    }
    CdfPairs(a, t.cdf(d1), t.cdf(-d1), b, t.cdf(d2), t.cdf(-d2));
  }

  /** A long call, a long put, the discounted stock and the discounted
      strike together are never worth less than nothing:
      C + P + S·e^{-qT} + K·e^{-rT} ≥ 0. */
  lemma HedgedPortfolioNonNegative(t: Transcendentals, o: OptionContract)
    requires Priceable(o) && Sound(t)
    ensures Price(t, o.(optionType := "call")) + Price(t, o.(optionType := "put"))
            + o.S * DivDiscount(t, o) + o.K * RateDiscount(t, o) >= 0.0
  {
    var dq, dr := DivDiscount(t, o), RateDiscount(t, o);
    assert dq > 0.0 && dr > 0.0;
    ScaleBetween(o.S, dq, 0.0, dq);
    ScaleBetween(o.K, dr, 0.0, dr);
    if o.T > 0.0 {
      PortfolioBeforeExpiry(t, o);
    }
  }

  lemma PortfolioBeforeExpiry(t: Transcendentals, o: OptionContract)
    requires Priceable(o) && o.T > 0.0 && SqrtPositive(t)
    requires o.S * DivDiscount(t, o) >= 0.0 && o.K * RateDiscount(t, o) >= 0.0
    requires forall x :: 0.0 <= t.cdf(x) <= 1.0
    ensures Price(t, o.(optionType := "call")) + Price(t, o.(optionType := "put"))
            + o.S * DivDiscount(t, o) + o.K * RateDiscount(t, o) >= 0.0
  {
    var c, p := o.(optionType := "call"), o.(optionType := "put");
    var d1, d2 := D1(t, o), D2(t, o);
    var a, b := o.S * DivDiscount(t, o), o.K * RateDiscount(t, o);
    assert Price(t, c) == a * t.cdf(d1) - b * t.cdf(d2) by {
      assert D1(t, c) == d1 && D2(t, c) == d2;
      assert DivDiscount(t, c) == DivDiscount(t, o) && RateDiscount(t, c) == RateDiscount(t, o);
    }
    assert Price(t, p) == b * t.cdf(-d2) - a * t.cdf(-d1) by {
      assert D1(t, p) == d1 && D2(t, p) == d2;
      assert DivDiscount(t, p) == DivDiscount(t, o) && RateDiscount(t, p) == RateDiscount(t, o);
    }
    CdfPortfolio(a, t.cdf(d1), t.cdf(-d1), b, t.cdf(d2), t.cdf(-d2));
  }

  /** (a·x − b·y) + (b·y' − a·x') + a + b ≥ 0 for non-negative a, b and
      x, x', y, y' in [0, 1]. */
  lemma CdfPortfolio(a: real, x: real, x': real, b: real, y: real, y': real)
    requires a >= 0.0 && b >= 0.0
    requires 0.0 <= x <= 1.0 && 0.0 <= x' <= 1.0 && 0.0 <= y <= 1.0 && 0.0 <= y' <= 1.0
    ensures (a * x - b * y) + (b * y' - a * x') + a + b >= 0.0
  {
    ScaleBetween(a, x - x' + 1.0, 0.0, 2.0);
    ScaleBetween(b, y' - y + 1.0, 0.0, 2.0);
    assert (a * x - b * y) + (b * y' - a * x') + a + b == a * (x - x' + 1.0) + b * (y' - y + 1.0);
  }

  /** The algebra behind parity and the Greek gaps: with x + x' = 1 and
      y + y' = 1, (a·x − b·y) − (b·y' − a·x') = a − b. */
  lemma CdfPairs(a: real, x: real, x': real, b: real, y: real, y': real)
    requires x + x' == 1.0 && y + y' == 1.0
    ensures (a * x - b * y) - (b * y' - a * x') == a - b
  {
    assert a * x + a * x' == a * (x + x');
    assert b * y + b * y' == b * (y + y');
  }

  function Delta(t: Transcendentals, o: OptionContract): (r: real)
    requires Priceable(o) && o.T > 0.0 && SqrtPositive(t)
    ensures Sound(t) && IsCall(o) ==> 0.0 <= r <= DivDiscount(t, o)
    ensures Sound(t) && !IsCall(o) ==> -DivDiscount(t, o) <= r <= 0.0
  {
    var dq, c := DivDiscount(t, o), t.cdf(D1(t, o));
    if IsCall(o) then
      assert Sound(t) ==> 0.0 <= dq * c <= dq by {
        if Sound(t) {
          assert dq > 0.0 && 0.0 <= c <= 1.0;
          ScaleBetween(dq, c, 0.0, 1.0);
        }
      }
      dq * c
    else
      assert Sound(t) ==> -dq <= dq * (c - 1.0) <= 0.0 by {
        if Sound(t) {
          assert dq > 0.0 && 0.0 <= c <= 1.0;
          ScaleBetween(dq, c - 1.0, -1.0, 0.0);
          assert dq * -1.0 == -dq && dq * 0.0 == 0.0;
        }
      }
      dq * (c - 1.0)
  }

  function Gamma(t: Transcendentals, o: OptionContract): (r: real)
    requires Priceable(o) && o.T > 0.0 && SqrtPositive(t)
    ensures Sound(t) ==> r >= 0.0
  {
    var num := DivDiscount(t, o) * t.pdf(D1(t, o));
    var den := o.S * SigmaRootT(t, o);
    assert den > 0.0;
    assert Sound(t) ==> num >= 0.0;
    num / den
  }

  function Vega(t: Transcendentals, o: OptionContract): (r: real)
    requires Priceable(o) && o.T > 0.0 && SqrtPositive(t)
    ensures Sound(t) ==> r >= 0.0
  {
    var a := o.S * DivDiscount(t, o);
    var b := t.pdf(D1(t, o)) * t.sqrt(o.T);
    assert t.sqrt(o.T) > 0.0;
    assert Sound(t) ==> a > 0.0 && b >= 0.0;
    a * b
  }

  /** The time-decay term that the call and put thetas share. */
  function ThetaDecay(t: Transcendentals, o: OptionContract): real
    requires Priceable(o) && o.T > 0.0 && SqrtPositive(t)
  {
    DecayOf(t, o.S, DivDiscount(t, o), D1(t, o), o.sigma, o.T)
  }

  /** −S·e^{-qT}·φ(d1)·σ / (2√T). */
  function DecayOf(t: Transcendentals, S: real, dq: real, d1: real, sigma: real, T: real): real
    requires T > 0.0 && SqrtPositive(t)
  {
    assert t.sqrt(T) > 0.0;
    -(S * dq * t.pdf(d1) * sigma) / (2.0 * t.sqrt(T))
  }

  /** x·y·z as one term, so that equal factors give equal products. */
  function Product(x: real, y: real, z: real): real {
    x * y * z
  }

  /** r·K·e^{-rT}, the interest carried on the strike. */
  function RateCarry(t: Transcendentals, o: OptionContract): real {
    Product(o.r, o.K, RateDiscount(t, o))
  }

  /** q·S·e^{-qT}, the dividend carried on the stock. */
  function DividendCarry(t: Transcendentals, o: OptionContract): real {
    Product(o.q, o.S, DivDiscount(t, o))
  }

  function Theta(t: Transcendentals, o: OptionContract): real
    requires Priceable(o) && o.T > 0.0 && SqrtPositive(t)
  {
    ThetaOf(t, IsCall(o), ThetaDecay(t, o), RateCarry(t, o), DividendCarry(t, o), D1(t, o), D2(t, o))
  }

  /** Theta from its shared decay term, the two carries and d1, d2. */
  function ThetaOf(t: Transcendentals, isCall: bool, decay: real, a: real, b: real, d1: real, d2: real): real {
    if isCall then decay - a * t.cdf(d2) + b * t.cdf(d1)
    else decay + a * t.cdf(-d2) - b * t.cdf(-d1)
  }

  function Rho(t: Transcendentals, o: OptionContract): (r: real)
    requires Priceable(o) && o.T > 0.0 && SqrtPositive(t)
    ensures Sound(t) && IsCall(o) ==> r >= 0.0
    ensures Sound(t) && !IsCall(o) ==> r <= 0.0
  {
    var a := Product(o.K, o.T, RateDiscount(t, o));
    assert Sound(t) ==> a > 0.0;
    if IsCall(o) then
      assert Sound(t) ==> t.cdf(D2(t, o)) >= 0.0 && a * t.cdf(D2(t, o)) >= 0.0;
      a * t.cdf(D2(t, o))
    else
      assert Sound(t) ==> t.cdf(-D2(t, o)) >= 0.0 && -a * t.cdf(-D2(t, o)) <= 0.0;
      -a * t.cdf(-D2(t, o))
  }

  /** Two contracts that differ at most in a non-call type name. */
  predicate SameTerms(o: OptionContract, p: OptionContract) {
    && o.S == p.S && o.K == p.K && o.T == p.T && o.sigma == p.sigma && o.r == p.r && o.q == p.q
    && IsCall(o) == IsCall(p)
  }

  lemma SameTermsPrice(t: Transcendentals, o: OptionContract, p: OptionContract)
    requires Priceable(o) && SqrtPositive(t) && SameTerms(o, p)
    ensures Price(t, o) == Price(t, p)
  {
    if o.T > 0.0 {
      assert D1(t, o) == D1(t, p) && D2(t, o) == D2(t, p);
    }
  }

  lemma SameTermsGreeks(t: Transcendentals, o: OptionContract, p: OptionContract)
    requires Priceable(o) && o.T > 0.0 && SqrtPositive(t) && SameTerms(o, p)
    ensures Delta(t, o) == Delta(t, p) && Theta(t, o) == Theta(t, p) && Rho(t, o) == Rho(t, p)
  {
    assert D1(t, o) == D1(t, p) && D2(t, o) == D2(t, p);
    assert ThetaDecay(t, o) == ThetaDecay(t, p);
  }

  /** Any type other than "call" is priced, and has the Greeks, of a put. */
  lemma NonCallIsPut(t: Transcendentals, o: OptionContract)
    requires Priceable(o) && SqrtPositive(t) && !IsCall(o)
    ensures Price(t, o) == Price(t, o.(optionType := "put"))
    ensures o.T > 0.0 ==>
      && Delta(t, o) == Delta(t, o.(optionType := "put"))
      && Theta(t, o) == Theta(t, o.(optionType := "put"))
      && Rho(t, o) == Rho(t, o.(optionType := "put"))
  {
    var p := o.(optionType := "put");
    assert SameTerms(o, p);
    SameTermsPrice(t, o, p);
    if o.T > 0.0 {
      SameTermsGreeks(t, o, p);
    }
  }

  /** The put delta is the call delta shifted down by e^{-qT}. */
  lemma DeltaGap(t: Transcendentals, o: OptionContract)
    requires Priceable(o) && o.T > 0.0 && SqrtPositive(t)
    ensures Delta(t, o.(optionType := "put")) == Delta(t, o.(optionType := "call")) - DivDiscount(t, o)
  {
    var c, p := o.(optionType := "call"), o.(optionType := "put");
    assert D1(t, c) == D1(t, o) && D1(t, p) == D1(t, o);
  }

  /** Gamma and vega do not depend on the option type. */
  lemma GammaVegaTypeFree(t: Transcendentals, o: OptionContract, optionType: string)
    requires Priceable(o) && o.T > 0.0 && SqrtPositive(t)
    ensures Gamma(t, o.(optionType := optionType)) == Gamma(t, o)
    ensures Vega(t, o.(optionType := optionType)) == Vega(t, o)
  {
    assert D1(t, o.(optionType := optionType)) == D1(t, o);
  }

  /** ρ_call − ρ_put = K·T·e^{-rT}. */
  lemma RhoGap(t: Transcendentals, o: OptionContract)
    requires Priceable(o) && o.T > 0.0 && Sound(t)
    ensures Rho(t, o.(optionType := "call")) - Rho(t, o.(optionType := "put"))
         == o.K * o.T * RateDiscount(t, o)
  {
    var c, p := o.(optionType := "call"), o.(optionType := "put");
    var d2, a := D2(t, o), Product(o.K, o.T, RateDiscount(t, o));
    assert D2(t, c) == d2 && D2(t, p) == d2;
    assert Product(c.K, c.T, RateDiscount(t, c)) == a == Product(p.K, p.T, RateDiscount(t, p));
    assert t.cdf(d2) + t.cdf(-d2) == 1.0;
    CdfPairs(0.0, 0.0, 1.0, -a, t.cdf(d2), t.cdf(-d2));
  }

  /** θ_call − θ_put = −r·K·e^{-rT} + q·S·e^{-qT}: the decay terms cancel and
      the CDF pairs sum to one. */
  lemma ThetaGap(t: Transcendentals, o: OptionContract)
    requires Priceable(o) && o.T > 0.0 && Sound(t)
    ensures Theta(t, o.(optionType := "call")) - Theta(t, o.(optionType := "put"))
         == -RateCarry(t, o) + DividendCarry(t, o)
  {
    var c, p := o.(optionType := "call"), o.(optionType := "put");
    var d1, d2 := D1(t, o), D2(t, o);
    var decay, a, b := ThetaDecay(t, o), RateCarry(t, o), DividendCarry(t, o);
    assert Theta(t, c) == ThetaOf(t, true, decay, a, b, d1, d2);
    assert Theta(t, p) == ThetaOf(t, false, decay, a, b, d1, d2);
    assert t.cdf(d1) + t.cdf(-d1) == 1.0 && t.cdf(d2) + t.cdf(-d2) == 1.0;
    ThetaOfGap(t, decay, a, b, d1, d2);
  }

  lemma ThetaOfGap(t: Transcendentals, decay: real, a: real, b: real, d1: real, d2: real)
    requires t.cdf(d1) + t.cdf(-d1) == 1.0 && t.cdf(d2) + t.cdf(-d2) == 1.0
    ensures ThetaOf(t, true, decay, a, b, d1, d2) - ThetaOf(t, false, decay, a, b, d1, d2) == b - a
  {
    CdfPairs(b, t.cdf(d1), t.cdf(-d1), a, t.cdf(d2), t.cdf(-d2));
  }

  /** The table returned by `greeks()`. */
  datatype GreekTable = GreekTable(delta: real, gamma: real, vega: real, theta: real, rho: real)

  /** `greeks()`: delta and gamma as computed, vega and rho per 1% move,
      theta per calendar day. */
  function Greeks(t: Transcendentals, o: OptionContract): (g: GreekTable)
    requires Priceable(o) && o.T > 0.0 && SqrtPositive(t)
    ensures g.delta == Delta(t, o) && g.gamma == Gamma(t, o)
    ensures 100.0 * g.vega == Vega(t, o)
    ensures 365.0 * g.theta == Theta(t, o)
    ensures 100.0 * g.rho == Rho(t, o)
    ensures Sound(t) ==> g.gamma >= 0.0 && g.vega >= 0.0
  {
    GreekTable(Delta(t, o), Gamma(t, o), Vega(t, o) / 100.0, Theta(t, o) / 365.0, Rho(t, o) / 100.0)
  }
}
