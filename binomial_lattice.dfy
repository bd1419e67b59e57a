/** The backward induction of the lattice pricer, as functions on sequences:
    the terminal stock prices and payoffs, one backward step for each exercise
    style, and the properties of the tree those steps preserve. */
module BinomialLattice {
  import opened Numerics

  /** Exercise value of the claim at stock price s, before flooring at 0. */
  function Exercise(isCall: bool, K: real, s: real): real {
    if isCall then s - K else K - s
  }

  /** The terminal payoff `np.maximum(ST - K, 0)` / `np.maximum(K - ST, 0)`. */
  function Intrinsic(isCall: bool, K: real, s: real): (v: real)
    ensures v >= 0.0 && v >= Exercise(isCall, K, s)
  {
    Max(Exercise(isCall, K, s), 0.0)
  }

  /** The stock price after j up moves and top − j down moves. */
  function NodePrice(S: real, u: real, d: real, top: nat, j: nat): real
    requires j <= top
  {
    S * Pow(u, j) * Pow(d, top - j)
  }

  /** `S * u**j * d**(N - j)` for j = 0..N. */
  function TerminalPrices(S: real, u: real, d: real, n: nat): (st: seq<real>)
    ensures |st| == n + 1
  {
    seq(n + 1, j requires 0 <= j <= n => NodePrice(S, u, d, n, j))
  }

  function Payoffs(isCall: bool, K: real, st: seq<real>): (v: seq<real>)
    ensures |v| == |st|
  {
    seq(|st|, j requires 0 <= j < |st| => Intrinsic(isCall, K, st[j]))
  }

  /** One step of the tree: the node values and, for early exercise, the stock
      prices at the current time. */
  datatype Level = Level(values: seq<real>, prices: seq<real>)

  /** What a backward step needs: the style, the claim, the probability p of
      an up move, the down factor d and the one-step discount e^{-r·dt}. */
  datatype StepRule = StepRule(american: bool, isCall: bool, K: real, p: real, d: real, disc: real)

  /** A level the rule can step back from: at least one node, and, for early
      exercise, one stock price per node and a down factor to divide by. */
  predicate Steppable(rule: StepRule, lv: Level) {
    |lv.values| >= 1 && (rule.american ==> |lv.prices| == |lv.values| && rule.d != 0.0)
  }

  /** One node's discounted risk-neutral expectation of its two children. */
  function Expected(p: real, disc: real, up: real, down: real): real {
    disc * (p * up + (1.0 - p) * down)
  }

  /** `disc * (p * payoffs[1:] + (1 - p) * payoffs[:-1])`. */
  function Continuation(vals: seq<real>, p: real, disc: real): (c: seq<real>)
    requires |vals| >= 1
    ensures |c| == |vals| - 1
  {
    seq(|vals| - 1, j requires 0 <= j < |vals| - 1 => Expected(p, disc, vals[j + 1], vals[j]))
  }

  /** `ST[:-1] / d`: the stock prices one step earlier. */
  function Rollback(st: seq<real>, d: real): (r: seq<real>)
    requires |st| >= 1 && d != 0.0
    ensures |r| == |st| - 1
  {
    seq(|st| - 1, j requires 0 <= j < |st| - 1 => st[j] / d)
  }

  /** `np.maximum(ST - K, continuation)` (or `K - ST` for a put). */
  function EarlyExercise(isCall: bool, K: real, st: seq<real>, cont: seq<real>): (v: seq<real>)
    requires |st| == |cont|
    ensures |v| == |cont|
  {
    seq(|cont|, j requires 0 <= j < |cont| => Max(Exercise(isCall, K, st[j]), cont[j]))
  }

  /** One pass of the loop body: the continuation values, and for American
      style the stock prices rolled back and the early-exercise maximum. */
  function Step(rule: StepRule, lv: Level): (r: Level)
    requires Steppable(rule, lv)
    ensures |r.values| == |lv.values| - 1
    ensures rule.american ==> |r.prices| == |r.values|
    ensures !rule.american ==> r.prices == lv.prices
  {
    var cont := Continuation(lv.values, rule.p, rule.disc);
    if rule.american then
      var st := Rollback(lv.prices, rule.d);
      Level(EarlyExercise(rule.isCall, rule.K, st, cont), st)
    else
      Level(cont, lv.prices)
  }

  /** The level after k backward steps; values shrink by one node per step. */
  function Backward(rule: StepRule, lv: Level, k: nat): (r: Level)
    requires Steppable(rule, lv) && k < |lv.values|
    ensures |r.values| == |lv.values| - k
    ensures rule.american ==> |r.prices| == |r.values|
    ensures !rule.american ==> r.prices == lv.prices
    ensures Steppable(rule, r)
    decreases k
  {
    if k == 0 then lv else Step(rule, Backward(rule, lv, k - 1))
  }

  /** The tree at expiry: terminal prices and payoffs. */
  function Terminal(rule: StepRule, st: seq<real>): Level {
    Level(Payoffs(rule.isCall, rule.K, st), st)
  }

  /** `_calculate_option_price`: N backward steps from the terminal level leave
      exactly one node, whose value is the price. */
  function LatticeValue(rule: StepRule, st: seq<real>, n: nat): real
    requires |st| == n + 1 && (rule.american ==> rule.d != 0.0)
  {
    Backward(rule, Terminal(rule, st), n).values[0]
  }

  /** A risk-neutral weighting: 0 ≤ p ≤ 1 and a non-negative discount. */
  predicate Weighting(rule: StepRule) {
    0.0 <= rule.p <= 1.0 && rule.disc >= 0.0
  }

  predicate AllNonNegative(s: seq<real>) {
    forall j :: 0 <= j < |s| ==> s[j] >= 0.0
  }

  lemma ConvexNonNegative(p: real, disc: real, a: real, b: real)
    requires 0.0 <= p <= 1.0 && disc >= 0.0 && a >= 0.0 && b >= 0.0
    ensures Expected(p, disc, a, b) >= 0.0
  {
    assert p * a >= 0.0 && (1.0 - p) * b >= 0.0;
  }

  /** The complement weight is a parameter of its own, so that the products
      stay atoms of a linear sum. */
  lemma WeightedMonotone(p: real, q: real, a: real, a': real, b: real, b': real)
    requires p >= 0.0 && q >= 0.0 && a >= a' && b >= b'
    ensures p * a' + q * b' <= p * a + q * b
  {
    ScaleBetween(q, b', b', b);
    ScaleBetween(p, a', a', a);
  }

  lemma ConvexMonotone(p: real, disc: real, a: real, b: real, a': real, b': real)
    requires 0.0 <= p <= 1.0 && disc >= 0.0 && a >= a' && b >= b'
    ensures Expected(p, disc, a, b) >= Expected(p, disc, a', b')
  {
    WeightedMonotone(p, 1.0 - p, a, a', b, b');
    ScaleBetween(disc, p * a' + (1.0 - p) * b', p * a' + (1.0 - p) * b', p * a + (1.0 - p) * b);
  }

  /** Every node stays non-negative: terminal payoffs are floored at 0, and a
      convex combination of non-negative values, discounted by a non-negative
      factor, is non-negative (the early-exercise maximum only raises it). */
  lemma {:induction false} NodesNonNegative(rule: StepRule, lv: Level, k: nat)
    requires Steppable(rule, lv) && k < |lv.values|
    requires Weighting(rule) && AllNonNegative(lv.values)
    ensures AllNonNegative(Backward(rule, lv, k).values)
  {
    if k > 0 {
      NodesNonNegative(rule, lv, k - 1);
      var prev := Backward(rule, lv, k - 1);
      var cont := Continuation(prev.values, rule.p, rule.disc);
      forall j | 0 <= j < |cont| ensures cont[j] >= 0.0 {
        ConvexNonNegative(rule.p, rule.disc, prev.values[j + 1], prev.values[j]);
      }
    }
  }

  lemma TerminalNonNegative(rule: StepRule, st: seq<real>)
    ensures AllNonNegative(Terminal(rule, st).values)
  {
  }

  /** Every American node is at least what exercising there pays, and at
      least its floored intrinsic value once the weighting is risk-neutral. */
  lemma AmericanAboveIntrinsic(rule: StepRule, st: seq<real>, k: nat)
    requires rule.american && rule.d != 0.0 && 1 <= |st| && k < |st|
    requires Weighting(rule)
    ensures var lv := Backward(rule, Terminal(rule, st), k);
      forall j :: 0 <= j < |lv.values| ==>
        lv.values[j] >= Intrinsic(rule.isCall, rule.K, lv.prices[j])
  {
    var lv := Backward(rule, Terminal(rule, st), k);
    TerminalNonNegative(rule, st);
    NodesNonNegative(rule, Terminal(rule, st), k);
    if k > 0 {
      var prev := Backward(rule, Terminal(rule, st), k - 1);
      assert lv == Step(rule, prev);
      forall j | 0 <= j < |lv.values|
        ensures lv.values[j] >= Intrinsic(rule.isCall, rule.K, lv.prices[j])
      {
        assert lv.values[j] >= Exercise(rule.isCall, rule.K, lv.prices[j]);
      }
    }
  }

  predicate Dominates(a: seq<real>, b: seq<real>) {
    |a| == |b| && forall j :: 0 <= j < |a| ==> a[j] >= b[j]
  }

  /** Early exercise never lowers a node: run from the same level with the
      same u, d, p and discount, the American tree dominates the European one
      node by node. */
  lemma {:induction false} AmericanDominatesEuropean(rule: StepRule, lv: Level, k: nat)
    requires rule.american && Steppable(rule, lv) && k < |lv.values| && Weighting(rule)
    ensures Dominates(Backward(rule, lv, k).values,
                      Backward(rule.(american := false), lv, k).values)
  {
    var eu := rule.(american := false);
    if k > 0 {
      AmericanDominatesEuropean(rule, lv, k - 1);
      var a, e := Backward(rule, lv, k - 1), Backward(eu, lv, k - 1);
      var ca := Continuation(a.values, rule.p, rule.disc);
      var ce := Continuation(e.values, rule.p, rule.disc);
      ContinuationMonotone(rule.p, rule.disc, a.values, e.values);
      ExerciseRaises(rule.isCall, rule.K, Rollback(a.prices, rule.d), ca);
      DominatesTransitive(Backward(rule, lv, k).values, ca, ce);
    }
  }

  lemma DominatesTransitive(a: seq<real>, b: seq<real>, c: seq<real>)
    requires Dominates(a, b) && Dominates(b, c)
    ensures Dominates(a, c)
  {
  }

  /** The continuation is monotone in the node values under a risk-neutral
      weighting. */
  lemma ContinuationMonotone(p: real, disc: real, a: seq<real>, e: seq<real>)
    requires 0.0 <= p <= 1.0 && disc >= 0.0 && |a| >= 1 && Dominates(a, e)
    ensures Dominates(Continuation(a, p, disc), Continuation(e, p, disc))
  {
    forall j | 0 <= j < |a| - 1
      ensures Continuation(a, p, disc)[j] >= Continuation(e, p, disc)[j]
    {
      ConvexMonotone(p, disc, a[j + 1], a[j], e[j + 1], e[j]);
    }
  }

  /** The early-exercise maximum never lowers the continuation value. */
  lemma ExerciseRaises(isCall: bool, K: real, st: seq<real>, cont: seq<real>)
    requires |st| == |cont|
    ensures Dominates(EarlyExercise(isCall, K, st, cont), cont)
  {
  }

  /** The lattice price with early exercise is at least the European one. */
  lemma AmericanAtLeastEuropean(rule: StepRule, st: seq<real>, n: nat)
    requires rule.american && rule.d != 0.0 && |st| == n + 1 && Weighting(rule)
    ensures LatticeValue(rule, st, n) >= LatticeValue(rule.(american := false), st, n)
  {
    assert Terminal(rule, st) == Terminal(rule.(american := false), st);
    AmericanDominatesEuropean(rule, Terminal(rule, st), n);
  }

  /** With non-negative terminal payoffs and a risk-neutral weighting, the
      lattice price is non-negative in either style. */
  lemma LatticeValueNonNegative(rule: StepRule, st: seq<real>, n: nat)
    requires |st| == n + 1 && (rule.american ==> rule.d != 0.0) && Weighting(rule)
    ensures LatticeValue(rule, st, n) >= 0.0
  {
    TerminalNonNegative(rule, st);
    NodesNonNegative(rule, Terminal(rule, st), n);
  }

  /** Node j of s holds S·u^j·d^(top−j). */
  predicate PowerLevel(s: seq<real>, S: real, u: real, d: real, top: nat) {
    |s| <= top + 1 && forall j :: 0 <= j < |s| ==> s[j] == NodePrice(S, u, d, top, j)
  }

  lemma RollbackPower(x: real, d: real, m: nat)
    requires d != 0.0
    ensures (x * Pow(d, m + 1)) / d == x * Pow(d, m)
  {
    assert Pow(d, m + 1) == d * Pow(d, m);
  }

  /** Rolling back a power level divides out one down factor. */
  lemma RollbackLevel(s: seq<real>, S: real, u: real, d: real, top: nat)
    requires d != 0.0 && |s| >= 1 && top >= 1 && PowerLevel(s, S, u, d, top)
    ensures PowerLevel(Rollback(s, d), S, u, d, top - 1)
  {
    var r := Rollback(s, d);
    forall j | 0 <= j < |r| ensures r[j] == NodePrice(S, u, d, top - 1, j) {
      var m: nat := top - 1 - j;
      assert top - j == m + 1;
      assert s[j] == (S * Pow(u, j)) * Pow(d, m + 1);
      RollbackPower(S * Pow(u, j), d, m);
    }
  }

  /** The terminal prices are the power level of the last row. */
  lemma TerminalPowerLevel(S: real, u: real, d: real, n: nat)
    ensures PowerLevel(TerminalPrices(S, u, d, n), S, u, d, n)
  {
  }

  /** `ST[:-1] / d` applied k times. */
  function RepeatedRollback(s: seq<real>, d: real, k: nat): (r: seq<real>)
    requires d != 0.0 && k < |s|
    ensures |r| == |s| - k
    decreases k
  {
    if k == 0 then s else Rollback(RepeatedRollback(s, d, k - 1), d)
  }

  /** The American stock prices only ever roll back, whatever the values do. */
  lemma {:induction false} AmericanPricesRollBack(rule: StepRule, lv: Level, k: nat)
    requires rule.american && Steppable(rule, lv) && k < |lv.values|
    ensures Backward(rule, lv, k).prices == RepeatedRollback(lv.prices, rule.d, k)
  {
    if k > 0 {
      AmericanPricesRollBack(rule, lv, k - 1);
      assert Backward(rule, lv, k) == Step(rule, Backward(rule, lv, k - 1));
    }
  }

  /** k roll-backs of a power level leave the power level k rows lower. */
  lemma {:induction false} RepeatedRollbackLevel(s: seq<real>, S: real, u: real, d: real, top: nat, k: nat)
    requires d != 0.0 && k < |s| && k <= top && PowerLevel(s, S, u, d, top)
    ensures PowerLevel(RepeatedRollback(s, d, k), S, u, d, top - k)
  {
    if k > 0 {
      RepeatedRollbackLevel(s, S, u, d, top, k - 1);
      RollbackLevel(RepeatedRollback(s, d, k - 1), S, u, d, top - (k - 1));
    }
  }

  /** After k American steps from the terminal prices, node j holds
      S·u^j·d^(N−k−j): each roll-back divides out one down factor. */
  lemma AmericanStockPrices(rule: StepRule, S: real, u: real, n: nat, k: nat)
    requires rule.american && rule.d != 0.0 && k <= n
    ensures PowerLevel(Backward(rule, Terminal(rule, TerminalPrices(S, u, rule.d, n)), k).prices,
                       S, u, rule.d, n - k)
  {
    var lv := Terminal(rule, TerminalPrices(S, u, rule.d, n));
    TerminalPowerLevel(S, u, rule.d, n);
    AmericanPricesRollBack(rule, lv, k);
    RepeatedRollbackLevel(lv.prices, S, u, rule.d, n, k);
  }
}
