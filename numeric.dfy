/** Number rules of the two languages on exact reals: truncation toward zero
    (Python's int() of a float, the sign rule of JavaScript's %), and
    JavaScript's Math.floor and % on numbers. */
module Numeric {

  /** Truncation toward zero. */
  function Truncate(x: real): (i: int)
    ensures x >= 0.0 ==> i as real <= x < i as real + 1.0
    ensures x < 0.0 ==> i as real - 1.0 < x <= i as real
  {
    if x >= 0.0 then x.Floor else -((-x).Floor)
  }

  /** JavaScript's `x % m` for m > 0: the remainder takes the sign of x. */
  function JsRemainder(x: real, m: real): (r: real)
    requires m > 0.0
    ensures x >= 0.0 ==> 0.0 <= r < m
    ensures x < 0.0 ==> -m < r <= 0.0
  {
    var t := Truncate(x / m) as real;
    assert x >= 0.0 <==> x / m >= 0.0;
    if x >= 0.0 then
      QuotientBounds(x, m, t, t + 1.0);
      x - m * t
    else
      QuotientBounds(x, m, t - 1.0, t);
      x - m * t
  }

  /** Bounds on a quotient scale back to bounds on the dividend. */
  lemma QuotientBounds(x: real, m: real, lo: real, hi: real)
    requires m > 0.0
    ensures lo <= x / m ==> m * lo <= x
    ensures x / m < hi ==> x < m * hi
    ensures lo < x / m ==> m * lo < x
    ensures x / m <= hi ==> x <= m * hi
  {
    var q := x / m;
    assert m * q == x;
    if lo <= q { assert m * lo <= m * q; }
    if lo < q { assert m * lo < m * q; }
    if q < hi { assert m * q < m * hi; }
    if q <= hi { assert m * q <= m * hi; }
  }
}
