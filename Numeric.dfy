/** Numeric helpers shared by the scoring code: Python's `max(lo, min(hi, x))`,
    `round` (half to even), `round(x, n)` and the truncating `int(a / b)`.
    Floats are modelled as exact reals. */
module Numeric {

  function Max(a: int, b: int): (m: int)
    ensures m >= a && m >= b && (m == a || m == b)
  {
    if a >= b then a else b
  }

  function Abs(x: real): (a: real)
    ensures a >= 0.0 && (a == x || a == -x)
  {
    if x < 0.0 then -x else x
  }

  /** `max(lo, min(hi, x))`, which is also `np.clip(x, lo, hi)`. */
  function Clamp(x: real, lo: real, hi: real): (r: real)
    requires lo <= hi
    ensures lo <= r <= hi
    ensures lo <= x <= hi ==> r == x
    ensures x < lo ==> r == lo
    ensures x > hi ==> r == hi
  {
    if x > hi then hi else if x < lo then lo else x
  }

  lemma ClampMonotone(x: real, y: real, lo: real, hi: real)
    requires lo <= hi && x <= y
    ensures Clamp(x, lo, hi) <= Clamp(y, lo, hi)
  {
  }

  /** Python's `round(x)` on a number: the nearest integer, ties to the even one. */
  function RoundHalfEven(x: real): (n: int)
    ensures x - 0.5 <= n as real <= x + 0.5
  {
    var f := x.Floor;
    var d := x - f as real;
    if d < 0.5 then f
    else if d > 0.5 then f + 1
    else if f % 2 == 0 then f
    else f + 1
  }

  /** On a tie, `round` picks the even neighbour. */
  lemma RoundHalfEvenTie(x: real)
    requires RoundHalfEven(x) as real == x - 0.5 || RoundHalfEven(x) as real == x + 0.5
    ensures RoundHalfEven(x) % 2 == 0
  {
  }

  /** Rounding is monotone: a larger number never rounds to a smaller integer. */
  lemma RoundHalfEvenMonotone(x: real, y: real)
    requires x <= y
    ensures RoundHalfEven(x) <= RoundHalfEven(y)
  {
  }

  /** Integers round to themselves. */
  lemma RoundHalfEvenOfInt(k: int)
    ensures RoundHalfEven(k as real) == k
  {
  }

  function Pow10(n: nat): (p: nat)
    ensures p >= 1
  {
    if n == 0 then 1 else 10 * Pow10(n - 1)
  }

  /** The factor `10^digits` by which `round(x, digits)` scales its argument. */
  function Scale(digits: nat): (p: real)
    ensures p >= 1.0
  {
    Pow10(digits) as real
  }

  /** `x` rounded to a multiple of `1 / s`, ties to even. */
  function ScaledRound(x: real, s: real): real
    requires s > 0.0
  {
    RoundHalfEven(x * s) as real / s
  }

  /** Python's `round(x, digits)`. */
  function RoundTo(x: real, digits: nat): real
  {
    ScaledRound(x, Scale(digits))
  }

  lemma MulMonotone(a: real, b: real, p: real)
    requires a <= b && p >= 0.0
    ensures a * p <= b * p
  {
    assert (b - a) * p >= 0.0;
  }

  lemma DivMonotone(a: real, b: real, p: real)
    requires a <= b && p > 0.0
    ensures a / p <= b / p
  {
    var q1, q2 := a / p, b / p;
    assert q1 * p == a && q2 * p == b;
    if q1 > q2 {
      MulMonotone(q2, q1, p);
    }
  }

  /** Rounding to any number of decimals keeps a value of [0, 1] inside [0, 1]. */
  lemma RoundToUnit(x: real, digits: nat)
    requires 0.0 <= x <= 1.0
    ensures 0.0 <= RoundTo(x, digits) <= 1.0
  {
    RoundToMonotone(0.0, x, digits);
    RoundToMonotone(x, 1.0, digits);
    RoundToScaled(0.0, digits);
    RoundToScaled(1.0, digits);
    ScaledRoundZero(Scale(digits));
    ScaledRoundOne(Pow10(digits));
  }

  lemma ScaledRoundZero(s: real)
    requires s > 0.0
    ensures ScaledRound(0.0, s) == 0.0
  {
    assert 0.0 * s == 0.0;
    RoundHalfEvenOfInt(0);
  }

  lemma ScaledRoundOne(p: nat)
    requires p >= 1
    ensures ScaledRound(1.0, p as real) == 1.0
  {
    assert 1.0 * p as real == p as real;
    RoundHalfEvenOfInt(p);
  }

  lemma DivUnit(n: real, p: real)
    requires 0.0 <= n <= p && p > 0.0
    ensures 0.0 <= n / p <= 1.0
  {
    DivMonotone(0.0, n, p);
    DivMonotone(n, p, p);
  }

  /** Rounding to `digits` decimals moves a number by at most half a unit of the last digit. */
  lemma RoundToError(x: real, digits: nat)
    ensures x - 0.5 / Scale(digits) <= RoundTo(x, digits) <= x + 0.5 / Scale(digits)
  {
    RoundToScaled(x, digits);
    ScaledRoundError(x, Scale(digits));
  }

  lemma ScaledRoundError(x: real, s: real)
    requires s > 0.0
    ensures x - 0.5 / s <= ScaledRound(x, s) <= x + 0.5 / s
  {
    var n := RoundHalfEven(x * s) as real;
    assert x * s - 0.5 <= n <= x * s + 0.5;
    DivMonotone(n, x * s + 0.5, s);
    DivMonotone(x * s - 0.5, n, s);
    assert (x * s + 0.5) / s == x + 0.5 / s;
    assert (x * s - 0.5) / s == x - 0.5 / s;
  }

  lemma RoundToScaled(x: real, digits: nat)
    ensures RoundTo(x, digits) == ScaledRound(x, Scale(digits))
  {
  }

  /** Rounding to `digits` decimals is monotone. */
  lemma RoundToMonotone(x: real, y: real, digits: nat)
    requires x <= y
    ensures RoundTo(x, digits) <= RoundTo(y, digits)
  {
    RoundToScaled(x, digits);
    RoundToScaled(y, digits);
    ScaledRoundMonotone(x, y, Scale(digits));
  }

  lemma ScaledRoundMonotone(x: real, y: real, s: real)
    requires x <= y && s > 0.0
    ensures ScaledRound(x, s) <= ScaledRound(y, s)
  {
    var a, b := x * s, y * s;
    MulMonotone(x, y, s);
    RoundHalfEvenMonotone(a, b);
    var m, n := RoundHalfEven(a), RoundHalfEven(b);
    assert m as real <= n as real;
    DivMonotone(m as real, n as real, s);
  }

  /** Python's `int(a / b)` for integers: the quotient truncated toward zero. */
  function TruncDiv(a: int, b: int): (q: int)
    requires b != 0
    ensures a >= 0 && b > 0 ==> q == a / b
  {
    var m := (if a < 0 then -a else a) / (if b < 0 then -b else b);
    if (a < 0) == (b < 0) then m else -m
  }
}
