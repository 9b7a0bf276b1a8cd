/** Rounding of CDF values to four decimal places: `Math.round(v * 10000) / 10000`. */
module Rounding {

  /** `Math.round` rounds half-way cases up, so over the reals it is
      `floor(w + 1/2)`. The result lies on the grid of multiples of 1/10000,
      within half a grid step of `v`, and stays in [0, 1] when `v` does. */
  function Round4(v: real): (r: real)
    ensures (r * 10000.0).Floor as real == r * 10000.0
    ensures v - 1.0 / 20000.0 < r <= v + 1.0 / 20000.0
    ensures 0.0 <= v <= 1.0 ==> 0.0 <= r <= 1.0
  {
    ((v * 10000.0 + 0.5).Floor as real) / 10000.0
  }

  /** Rounding never reverses the order of two values. */
  lemma Round4Monotone(v: real, w: real)
    requires v <= w
    ensures Round4(v) <= Round4(w)
  {
    var a, b := (v * 10000.0 + 0.5).Floor, (w * 10000.0 + 0.5).Floor;
    assert a as real <= w * 10000.0 + 0.5;
    assert a <= b;
  }

  /** A value already on the grid is left alone, so rounding twice is rounding once. */
  lemma Round4Idempotent(v: real)
    ensures Round4(Round4(v)) == Round4(v)
  {
    var n := (v * 10000.0 + 0.5).Floor;
    assert Round4(v) * 10000.0 == n as real;
    assert (n as real + 0.5).Floor == n;
  }
}
