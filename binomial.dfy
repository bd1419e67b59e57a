/** The lattice pricer object: construction checks, the three calibrations
    (CRR, Jarrow-Rudd, Leisen-Reimer), the backward induction over arrays, and
    `price`, which records the model name and dispatches on it. */
module Binomial {
  import opened Wrappers
  import opened Numerics
  import opened Text
  import opened OptionClass
  import opened BinomialLattice
  import BlackScholes

  const VALID_MODELS: seq<string> := ["crr", "jr", "lr"]
  const VALID_OPTION_STYLES: seq<string> := ["american", "european"]
  const DEFAULT_STEPS: int := 1000

  datatype BinomialError =
    | ZeroSteps           // `T / N` with N = 0 raises before validation runs
    | InvalidOptionStyle
    | NonPositiveSteps
    | InvalidModel

  /** The fields `__init__` stores: the contract, the lower-cased style, the
      step count and the step width. */
  datatype BinomialConfig = BinomialConfig(option: OptionContract, optionStyle: string, n: int, dt: real)

  /** `Binomial.__init__` with `_validate_inputs`: the step width is computed
      first, so N = 0 fails by division before the style is looked at. */
  function NewBinomial(option: OptionContract, optionStyle: string, n: int)
    : (res: Result<BinomialConfig, BinomialError>)
    ensures res.Success? <==> n > 0 && Lower(optionStyle) in VALID_OPTION_STYLES
    ensures res == Failure(ZeroSteps) <==> n == 0
    ensures res == Failure(InvalidOptionStyle) <==> n != 0 && Lower(optionStyle) !in VALID_OPTION_STYLES
    ensures res == Failure(NonPositiveSteps) <==> n < 0 && Lower(optionStyle) in VALID_OPTION_STYLES
    ensures res.Success? ==>
      res.value == BinomialConfig(option, Lower(optionStyle), n, option.T / (n as real))
  {
    if n == 0 then Failure(ZeroSteps)
    else
      var style := Lower(optionStyle);
      if style !in VALID_OPTION_STYLES then Failure(InvalidOptionStyle)
      else if n <= 0 then Failure(NonPositiveSteps)
      else Success(BinomialConfig(option, style, n, option.T / (n as real)))
  }

  /** The constructor with N left at its default: the step count can no
      longer fail, so only the style decides, and dt is T/1000. */
  function DefaultBinomial(option: OptionContract, optionStyle: string)
    : (res: Result<BinomialConfig, BinomialError>)
    ensures res.Success? <==> Lower(optionStyle) in VALID_OPTION_STYLES
    ensures res.Failure? ==> res.error == InvalidOptionStyle
    ensures res.Success? ==> res.value.n == 1000 && res.value.dt == option.T / 1000.0
  {
    NewBinomial(option, optionStyle, DEFAULT_STEPS)
  }

  /** A constructed pricer around a constructed contract. */
  predicate ValidConfig(c: BinomialConfig) {
    && ValidContract(c.option)
    && c.n > 0
    && c.optionStyle in VALID_OPTION_STYLES
    && c.dt == c.option.T / (c.n as real)
  }

  /** Up factor, down factor and up probability of one calibration. */
  datatype Calibration = Calibration(u: real, d: real, p: real)

  /** e^{(r−q)·dt}, the one-step risk-neutral growth of the stock. */
  function Growth(t: Transcendentals, c: BinomialConfig): real {
    GrowthFactor(t, c.option.r, c.option.q, c.dt)
  }

  function GrowthFactor(t: Transcendentals, r: real, q: real, dt: real): real {
    t.exp((r - q) * dt)
  }

  function CrrUp(t: Transcendentals, sigma: real, dt: real): real {
    t.exp(sigma * t.sqrt(dt))
  }

  /** The CRR probability divides by u − d, so u = d (which happens when
      T = 0) is excluded. */
  predicate CrrDefined(t: Transcendentals, c: BinomialConfig) {
    var u := CrrUp(t, c.option.sigma, c.dt);
    u != 0.0 && u != 1.0 / u
  }

  /** `_crr_model`: u = e^{σ√dt}, d = 1/u, p = (e^{(r−q)dt} − d)/(u − d).  The
      tree recombines (d·u = 1) and matches the risk-neutral drift. */
  function Crr(t: Transcendentals, c: BinomialConfig): (cal: Calibration)
    requires CrrDefined(t, c)
    ensures cal.d * cal.u == 1.0 && cal.d != 0.0
    ensures cal.p * cal.u + (1.0 - cal.p) * cal.d == Growth(t, c)
  {
    var u := CrrUp(t, c.option.sigma, c.dt);
    var d := 1.0 / u;
    var g := Growth(t, c);
    var p := (g - d) / (u - d);
    assert p * (u - d) == g - d;
    assert p * u + (1.0 - p) * d == d + p * (u - d);
    Calibration(u, d, p)
  }

  /** e^{(r − q − σ²/2)·dt ± σ√dt}. */
  function JrFactor(t: Transcendentals, r: real, q: real, sigma: real, dt: real, up: bool): real {
    var drift := (r - q - 0.5 * sigma * sigma) * dt;
    var shock := sigma * t.sqrt(dt);
    t.exp(if up then drift + shock else drift - shock)
  }

  /** `_jr_model`: equal probabilities, factors around the drift; both
      factors are positive. */
  function Jr(t: Transcendentals, c: BinomialConfig): (cal: Calibration)
    ensures cal.p == 0.5
    ensures ExpPositive(t) ==> cal.u > 0.0 && cal.d > 0.0
  {
    var o := c.option;
    Calibration(JrFactor(t, o.r, o.q, o.sigma, c.dt, true), JrFactor(t, o.r, o.q, o.sigma, c.dt, false), 0.5)
  }

  /** N + 1/3 + 0.1/(N + 1). */
  function PrattScale(n: int): (s: real)
    requires n > 0
    ensures s > 0.0
  {
    (n as real) + 1.0 / 3.0 + 0.1 / ((n as real) + 1.0)
  }

  /** (z / (N + 1/3 + 0.1/(N + 1)))² · (N + 1/6). */
  function PrattExponent(n: int, z: real): real
    requires n > 0
  {
    var w := z / PrattScale(n);
    w * w * ((n as real) + 1.0 / 6.0)
  }

  function PrattRoot(t: Transcendentals, w: real): real {
    t.sqrt(1.0 - t.exp(-w))
  }

  /** `_peizer_pratt_inversion`: 0.5 + 0.5·sign(z)·√(1 − e^{−w}); its numeric
      value is left to the primitives, but at z = 0 it is exactly 1/2. */
  function PeizerPratt(t: Transcendentals, n: int, z: real): (r: real)
    requires n > 0
    ensures z == 0.0 ==> r == 0.5
  {
    0.5 + 0.5 * Sign(z) * PrattRoot(t, PrattExponent(n, z))
  }

  /** The exponent is even in z and the sign odd, so the inversion is
      symmetric about 1/2: h(−z) = 1 − h(z) for every z. */
  lemma PeizerPrattSymmetric(t: Transcendentals, n: int, z: real)
    requires n > 0
    ensures PeizerPratt(t, n, -z) == 1.0 - PeizerPratt(t, n, z)
  {
    var s := PrattScale(n);
    assert -z / s == -(z / s);
    assert (-(z / s)) * (-(z / s)) == (z / s) * (z / s);
    assert PrattExponent(n, -z) == PrattExponent(n, z);
    assert Sign(-z) == -Sign(z);
  }

  /** The Leisen-Reimer probabilities, p at d2 and p' at d1. */
  function LrProbabilities(t: Transcendentals, c: BinomialConfig): (r: (real, real))
    requires ValidConfig(c) && c.option.T > 0.0 && SqrtPositive(t)
    ensures BlackScholes.D2(t, c.option) == 0.0 ==> r.0 == 0.5
    ensures BlackScholes.D1(t, c.option) == 0.0 ==> r.1 == 0.5
  {
    (PeizerPratt(t, c.n, BlackScholes.D2(t, c.option)), PeizerPratt(t, c.n, BlackScholes.D1(t, c.option)))
  }

  /** d1 divides by σ√T, and u, d divide by p and 1 − p. */
  ghost predicate LrProbabilitiesDefined(t: Transcendentals, c: BinomialConfig) {
    && ValidConfig(c) && c.option.T > 0.0 && SqrtPositive(t)
    && LrProbabilities(t, c).0 != 0.0 && LrProbabilities(t, c).0 != 1.0
  }

  /** u = g·p'/p and d = g·(1−p')/(1−p): built so that p·u + (1−p)·d = g. */
  function LrFactors(g: real, p: real, p': real): (cal: Calibration)
    requires p != 0.0 && p != 1.0
    ensures cal.p == p
    ensures cal.u * p == g * p'
    ensures cal.d * (1.0 - p) == g * (1.0 - p')
    ensures cal.p * cal.u + (1.0 - cal.p) * cal.d == g
  {
    var u := g * p' / p;
    var d := g * (1.0 - p') / (1.0 - p);
    assert p * u == g * p';
    assert (1.0 - p) * d == g * (1.0 - p');
    Calibration(u, d, p)
  }

  /** `_lr_model`: the Leisen-Reimer factors around the risk-neutral growth
      e^{(r−q)dt}, at p = h(d2) and p' = h(d1). */
  function Lr(t: Transcendentals, c: BinomialConfig): (cal: Calibration)
    requires LrProbabilitiesDefined(t, c)
    ensures var (p, p') := LrProbabilities(t, c);
      && cal.p == p
      && cal.u * p == Growth(t, c) * p'
      && cal.d * (1.0 - p) == Growth(t, c) * (1.0 - p')
    ensures cal.p * cal.u + (1.0 - cal.p) * cal.d == Growth(t, c)
  {
    var pp := LrProbabilities(t, c);
    LrFactors(Growth(t, c), pp.0, pp.1)
  }

  predicate IsAmerican(c: BinomialConfig) {
    c.optionStyle == "american"
  }

  /** The step rule a configuration and a calibration give the tree. */
  function RuleFor(t: Transcendentals, c: BinomialConfig, cal: Calibration): StepRule {
    StepRule(IsAmerican(c), c.option.optionType == "call", c.option.K, cal.p, cal.d, Discount(t, c.option.r, c.dt))
  }

  /** The price `_calculate_option_price(u, d, p)` specifies. */
  function ModelPrice(t: Transcendentals, c: BinomialConfig, cal: Calibration): real
    requires ValidConfig(c) && (IsAmerican(c) ==> cal.d != 0.0)
  {
    LatticeValue(RuleFor(t, c, cal), TerminalPrices(c.option.S, cal.u, cal.d, c.n), c.n)
  }

  /** Early exercise never lowers the lattice price for the same u, d, p. */
  lemma AmericanAtLeastEuropeanPrice(t: Transcendentals, c: BinomialConfig, cal: Calibration)
    requires ValidConfig(c) && IsAmerican(c) && cal.d != 0.0
    requires 0.0 <= cal.p <= 1.0 && Discount(t, c.option.r, c.dt) >= 0.0
    ensures ModelPrice(t, c, cal) >= ModelPrice(t, c.(optionStyle := "european"), cal)
  {
    var rule := RuleFor(t, c, cal);
    assert RuleFor(t, c.(optionStyle := "european"), cal) == rule.(american := false);
    AmericanAtLeastEuropean(rule, TerminalPrices(c.option.S, cal.u, cal.d, c.n), c.n);
  }

  /** A risk-neutral calibration gives a non-negative price in either style. */
  lemma ModelPriceNonNegative(t: Transcendentals, c: BinomialConfig, cal: Calibration)
    requires ValidConfig(c) && (IsAmerican(c) ==> cal.d != 0.0)
    requires 0.0 <= cal.p <= 1.0 && Discount(t, c.option.r, c.dt) >= 0.0
    ensures ModelPrice(t, c, cal) >= 0.0
  {
    LatticeValueNonNegative(RuleFor(t, c, cal), TerminalPrices(c.option.S, cal.u, cal.d, c.n), c.n);
  }

  /** Jarrow-Rudd always weighs the two branches equally, so with a positive
      exponential its American price dominates its European one. */
  lemma JrAmericanAtLeastEuropean(t: Transcendentals, c: BinomialConfig)
    requires ValidConfig(c) && IsAmerican(c) && ExpPositive(t)
    ensures ModelPrice(t, c, Jr(t, c)) >= ModelPrice(t, c.(optionStyle := "european"), Jr(t, c))
  {
    assert Jr(t, c.(optionStyle := "european")) == Jr(t, c);
    AmericanAtLeastEuropeanPrice(t, c, Jr(t, c));
  }

  /** What each model name needs so that its arithmetic is defined. */
  ghost predicate ModelDefined(t: Transcendentals, c: BinomialConfig, model: string) {
    && (model == "crr" ==> CrrDefined(t, c))
    && (model == "jr" ==> (IsAmerican(c) ==> JrFactor(t, c.option.r, c.option.q, c.option.sigma, c.dt, false) != 0.0))
    && (model == "lr" ==> LrProbabilitiesDefined(t, c) && (IsAmerican(c) ==> Lr(t, c).d != 0.0))
  }

  /** `S * u ** j * d ** (N - j)` filled into a new array. */
  method StockPrices(S: real, u: real, d: real, n: nat) returns (st: array<real>)
    ensures fresh(st) && st[..] == TerminalPrices(S, u, d, n)
  {
    st := new real[n + 1];
    for j := 0 to n + 1
      modifies st
      invariant forall i :: 0 <= i < j ==> st[i] == NodePrice(S, u, d, n, i)
    {
      st[j] := NodePrice(S, u, d, n, j);
    }
  }

  /** `np.maximum(ST - K, 0)` (or `K - ST` for a put). */
  method PayoffValues(isCall: bool, K: real, st: array<real>) returns (v: array<real>)
    ensures fresh(v) && v[..] == Payoffs(isCall, K, st[..])
  {
    v := new real[st.Length];
    for j := 0 to st.Length
      modifies v
      invariant forall i :: 0 <= i < j ==> v[i] == Intrinsic(isCall, K, st[i])
    {
      v[j] := Intrinsic(isCall, K, st[j]);
    }
  }

  /** `disc * (p * payoffs[1:] + (1 - p) * payoffs[:-1])`. */
  method ContinuationValues(vals: array<real>, p: real, disc: real) returns (cont: array<real>)
    requires vals.Length >= 1
    ensures fresh(cont) && cont[..] == Continuation(vals[..], p, disc)
  {
    cont := new real[vals.Length - 1];
    for j := 0 to cont.Length
      modifies cont
      invariant forall i :: 0 <= i < j ==> cont[i] == Expected(p, disc, vals[i + 1], vals[i])
    {
      cont[j] := Expected(p, disc, vals[j + 1], vals[j]);
    }
  }

  /** `ST[:-1] / d`. */
  method RolledBack(st: array<real>, d: real) returns (r: array<real>)
    requires st.Length >= 1 && d != 0.0
    ensures fresh(r) && r[..] == Rollback(st[..], d)
  {
    r := new real[st.Length - 1];
    for j := 0 to r.Length
      modifies r
      invariant forall i :: 0 <= i < j ==> r[i] == st[i] / d
    {
      r[j] := st[j] / d;
    }
  }

  /** `np.maximum(ST - K, continuation)` (or `K - ST` for a put). */
  method ExerciseValues(isCall: bool, K: real, st: array<real>, cont: array<real>) returns (v: array<real>)
    requires st.Length == cont.Length
    ensures fresh(v) && v[..] == EarlyExercise(isCall, K, st[..], cont[..])
  {
    v := new real[cont.Length];
    for j := 0 to v.Length
      modifies v
      invariant forall i :: 0 <= i < j ==> v[i] == Max(Exercise(isCall, K, st[i]), cont[i])
    {
      v[j] := Max(Exercise(isCall, K, st[j]), cont[j]);
    }
  }

  /** One pass of the backward loop: the continuation values and, for an
      American option, the rolled-back stock prices and early exercise. */
  method BackwardStep(rule: StepRule, payoffs: array<real>, st: array<real>)
    returns (payoffs': array<real>, st': array<real>)
    requires Steppable(rule, Level(payoffs[..], st[..]))
    ensures Level(payoffs'[..], st'[..]) == Step(rule, Level(payoffs[..], st[..]))
  {
    var cont := ContinuationValues(payoffs, rule.p, rule.disc);
    if rule.american {
      st' := RolledBack(st, rule.d);
      payoffs' := ExerciseValues(rule.isCall, rule.K, st', cont);
    } else {
      payoffs' := cont;
      st' := st;
    }
  }

  /** The backward loop: `n` steps from the terminal level leave one node,
      the option's value. */
  method BackwardInduction(rule: StepRule, payoffs: array<real>, st: array<real>, n: nat) returns (value: real)
    requires payoffs.Length == n + 1 && Steppable(rule, Level(payoffs[..], st[..]))
    ensures value == Backward(rule, Level(payoffs[..], st[..]), n).values[0]
  {
    ghost var start := Level(payoffs[..], st[..]);
    var vals, prices := payoffs, st;
    for k := 0 to n
      invariant vals.Length == n + 1 - k
      invariant Level(vals[..], prices[..]) == Backward(rule, start, k)
    {
      vals, prices := BackwardStep(rule, vals, prices);
    }
    value := vals[0];
  }

  class Binomial {
    const config: BinomialConfig
    /** `self.model`: absent until `price` is first called. */
    var model: Option<string>

    constructor (config: BinomialConfig)
      ensures this.config == config && model == None
    {
      this.config := config;
      model := None;
    }

    /** `Binomial(option, option_style, N)`: a new pricer, or the error
        `__init__` raises. */
    static method Create(option: OptionContract, optionStyle: string, n: int)
      returns (res: Result<Binomial, BinomialError>)
      ensures res.Failure? ==> NewBinomial(option, optionStyle, n) == Failure(res.error)
      ensures res.Success? ==>
        && NewBinomial(option, optionStyle, n) == Success(res.value.config)
        && fresh(res.value) && res.value.model == None
    {
      match NewBinomial(option, optionStyle, n)
      case Failure(e) => res := Failure(e);
      case Success(c) =>
        var b := new Binomial(c);
        res := Success(b);
    }

    /** `_calculate_option_price`: terminal prices and payoffs, then N
        backward steps over arrays that shrink by one node each. */
    method CalculateOptionPrice(t: Transcendentals, u: real, d: real, p: real) returns (price: real)
      requires ValidConfig(config) && (IsAmerican(config) ==> d != 0.0)
      ensures price == ModelPrice(t, config, Calibration(u, d, p))
    {
      var n: nat := config.n;
      var o := config.option;
      var rule := RuleFor(t, config, Calibration(u, d, p));
      var st := StockPrices(o.S, u, d, n);
      var payoffs := PayoffValues(rule.isCall, o.K, st);
      price := BackwardInduction(rule, payoffs, st, n);
    }

    method CrrModel(t: Transcendentals) returns (price: real)
      requires ValidConfig(config) && CrrDefined(t, config)
      ensures price == ModelPrice(t, config, Crr(t, config))
    {
      var cal := Crr(t, config);
      price := CalculateOptionPrice(t, cal.u, cal.d, cal.p);
    }

    method JrModel(t: Transcendentals) returns (price: real)
      requires ValidConfig(config)
      requires IsAmerican(config) ==> Jr(t, config).d != 0.0
      ensures price == ModelPrice(t, config, Jr(t, config))
    {
      var cal := Jr(t, config);
      price := CalculateOptionPrice(t, cal.u, cal.d, cal.p);
    }

    method LrModel(t: Transcendentals) returns (price: real)
      requires LrProbabilitiesDefined(t, config)
      requires IsAmerican(config) ==> Lr(t, config).d != 0.0
      ensures price == ModelPrice(t, config, Lr(t, config))
    {
      var cal := Lr(t, config);
      price := CalculateOptionPrice(t, cal.u, cal.d, cal.p);
    }

    /** `price(model)`: records the lower-cased name, then dispatches on it;
        any other name is an error. */
    method Price(t: Transcendentals, name: string) returns (res: Result<real, BinomialError>)
      requires ValidConfig(config) && ModelDefined(t, config, Lower(name))
      modifies this`model
      ensures model == Some(Lower(name))
      ensures res.Success? <==> Lower(name) in VALID_MODELS
      ensures Lower(name) == "crr" ==> res == Success(ModelPrice(t, config, Crr(t, config)))
      ensures Lower(name) == "jr" ==> res == Success(ModelPrice(t, config, Jr(t, config)))
      ensures Lower(name) == "lr" ==> res == Success(ModelPrice(t, config, Lr(t, config)))
      ensures Lower(name) !in VALID_MODELS ==> res == Failure(InvalidModel)
    {
      var m := Lower(name);
      model := Some(m);
      if m == "crr" {
        var v := CrrModel(t);
        res := Success(v);
      } else if m == "jr" {
        var v := JrModel(t);
        res := Success(v);
      } else if m == "lr" {
        var v := LrModel(t);
        res := Success(v);
      } else {
        res := Failure(InvalidModel);
      }
    }
  }
}
