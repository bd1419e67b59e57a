/** The numerical primitives the pricing code calls.  The transcendental
    functions (numpy's `exp`, `log`, `sqrt` and scipy's `norm.cdf`,
    `norm.pdf`) are uninterpreted: they are values of a record handed to
    every operation that needs them, and the only facts known about them are
    the axioms collected in `Sound`. */
module Numerics {

  datatype Transcendentals = Transcendentals(
    exp: real -> real,
    log: real -> real,
    sqrt: real -> real,
    cdf: real -> real,   // standard normal cumulative distribution, Φ
    pdf: real -> real    // standard normal density, φ
  )

  ghost predicate ExpPositive(t: Transcendentals) {
    forall x :: t.exp(x) > 0.0
  }

  ghost predicate SqrtPositive(t: Transcendentals) {
    forall x :: x > 0.0 ==> t.sqrt(x) > 0.0
  }

  /** The axioms the lemmas of this project rest on; the real functions
      satisfy every one of them. */
  ghost predicate Sound(t: Transcendentals) {
    && ExpPositive(t)
    && t.exp(0.0) == 1.0
    && SqrtPositive(t)
    && (forall x :: x >= 0.0 ==> t.sqrt(x) * t.sqrt(x) == x)
    && (forall x :: 0.0 <= t.cdf(x) <= 1.0)
    && (forall x :: t.cdf(x) + t.cdf(-x) == 1.0)
    && (forall x :: t.pdf(x) >= 0.0)
  }

  /** e^{-rate·time}.  Discount factors are built through this function of
      scalars so that equal rates and times give provably equal factors. */
  function Discount(t: Transcendentals, rate: real, time: real): real {
    t.exp(-rate * time)
  }

  function Abs(x: real): (r: real)
    ensures r >= 0.0 && (r == x || r == -x)
  {
    if x < 0.0 then -x else x
  }

  function Max(a: real, b: real): (r: real)
    ensures r >= a && r >= b && (r == a || r == b)
  {
    if a >= b then a else b
  }

  function Min(a: real, b: real): (r: real)
    ensures r <= a && r <= b && (r == a || r == b)
  {
    if a <= b then a else b
  }

  /** numpy's `sign`: -1, 0 or 1. */
  function Sign(x: real): (r: real)
    ensures r * x == Abs(x)
  {
    if x > 0.0 then 1.0 else if x < 0.0 then -1.0 else 0.0
  }

  /** Multiplying an interval by a non-negative factor keeps its order. */
  lemma ScaleBetween(a: real, x: real, lo: real, hi: real)
    requires a >= 0.0 && lo <= x <= hi
    ensures a * lo <= a * x <= a * hi
  {
  }

  /** Subtracting after a division is the division of the difference. */
  lemma SubOverDen(a: real, b: real, c: real)
    requires c != 0.0
    ensures a / c - b == (a - b * c) / c
  {
    assert (a / c) * c == a;
    assert ((a - b * c) / c) * c == a - b * c;
    assert (a / c - b) * c == a - b * c;
  }

  /** `x ** n` for a non-negative integer exponent (`0.0 ** 0 == 1.0`). */
  function Pow(x: real, n: nat): real
  {
    if n == 0 then 1.0 else x * Pow(x, n - 1)
  }
}

/** Python's `str.lower()`, restricted to the ASCII letters. */
module Text {

  function LowerChar(c: char): (r: char)
    ensures 'A' <= c <= 'Z' ==> r as int == c as int + 32
    ensures !('A' <= c <= 'Z') ==> r == c
  {
    if 'A' <= c <= 'Z' then (c as int + 32) as char else c
  }

  function Lower(s: string): (r: string)
    ensures |r| == |s|
    ensures forall i :: 0 <= i < |s| ==> r[i] == LowerChar(s[i])
  {
    if s == [] then [] else [LowerChar(s[0])] + Lower(s[1..])
  }

  /** Lowering is idempotent, so a name that is already lower-case is its
      own lowered form. */
  lemma {:induction false} LowerIdempotent(s: string)
    ensures Lower(Lower(s)) == Lower(s)
  {
    if s != [] {
      LowerIdempotent(s[1..]);
    }
  }
}
