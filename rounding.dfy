/**
 * JavaScript's `Math.round(x * k) / k` over exact reals.
 *
 * `Math.round` rounds to the nearest integer and sends halves towards
 * positive infinity (`Math.round(-0.5) == -0`), which is `Floor(x + 1/2)`.
 */
module Rounding {

  /** `Math.round(x)`. */
  function RoundHalfUp(x: real): (n: int)
    ensures x - 0.5 < n as real <= x + 0.5
  {
    (x + 0.5).Floor
  }

  /** `Math.round(x * 10) / 10`. */
  function Round1(x: real): (r: real)
    ensures IsTenth(r)
    ensures -0.05 < r - x <= 0.05
  {
    var n := RoundHalfUp(x * 10.0);
    assert (n as real / 10.0) * 10.0 == n as real;
    n as real / 10.0
  }

  /** `Math.round(x * 100) / 100`. */
  function Round2(x: real): (r: real)
    ensures IsHundredth(r)
    ensures -0.005 < r - x <= 0.005
  {
    var n := RoundHalfUp(x * 100.0);
    assert (n as real / 100.0) * 100.0 == n as real;
    n as real / 100.0
  }

  /** `x` is a whole number of tenths. */
  predicate IsTenth(x: real) {
    (x * 10.0).Floor as real == x * 10.0
  }

  /** `x` is a whole number of hundredths. */
  predicate IsHundredth(x: real) {
    (x * 100.0).Floor as real == x * 100.0
  }

  /** A whole number of tenths is left alone by `Round1`. */
  lemma TenthIsFixed(x: real)
    requires IsTenth(x)
    ensures Round1(x) == x
  {
    var n := (x * 10.0).Floor;
    assert x * 10.0 + 0.5 == n as real + 0.5;
    assert (x * 10.0 + 0.5).Floor == n;
    assert n as real / 10.0 == x;
  }

  /** Tenths are closed under addition. */
  lemma TenthSum(x: real, y: real)
    requires IsTenth(x) && IsTenth(y)
    ensures IsTenth(x + y)
  {
    var a, b := (x * 10.0).Floor, (y * 10.0).Floor;
    assert (x + y) * 10.0 == (a + b) as real;
  }

  /** `Round2` leaves 1 alone. */
  lemma Round2One()
    ensures Round2(1.0) == 1.0
  {
    assert 1.0 * 100.0 + 0.5 == 100.5;
    assert RoundHalfUp(100.0) == 100;
  }
}
