/** The few facts of nonlinear integer arithmetic the protocol's rounding rests on. */
module Arithmetic {

  lemma MulMono(a: int, b: int, c: int)
    requires a <= b && 0 <= c
    ensures a * c <= b * c
  {}

  /** A floored quotient: the divisor times it stays within one divisor below. */
  lemma FloorDiv(x: int, d: int)
    requires 0 < d
    ensures d * (x / d) + x % d == x
    ensures 0 <= x % d < d
    ensures 0 <= x ==> 0 <= x / d
  {}

  /** The floored quotient is the largest multiplier that fits. */
  lemma FloorIsLargest(x: int, d: int, q: int)
    requires 0 < d
    ensures q <= x / d <==> d * q <= x
  {
    FloorDiv(x, d);
    if q <= x / d {
      MulMono(q, x / d, d);
    } else {
      MulMono(x / d + 1, q, d);
    }
  }
}
