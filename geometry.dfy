/**
 * The screen-space quantities the UI framework hands to the core
 * (CGFloat, CGPoint, CGSize/CGOffset), abstracted as mathematical reals,
 * and the conversion `Int(_: CGFloat)`, which truncates toward zero.
 * IEEE rounding, NaN and infinities are not modelled.
 */
module Geometry {

  /** A CGPoint: a location on screen. */
  datatype Point = Point(x: real, y: real)

  /** A CGSize used as a translation (CGOffset). */
  datatype Offset = Offset(width: real, height: real)
  {
    /** Componentwise sum, as in `pan += value.translation`. */
    function Plus(other: Offset): Offset {
      Offset(width + other.width, height + other.height)
    }

    function Negated(): Offset {
      Offset(-width, -height)
    }
  }

  const ZeroOffset: Offset := Offset(0.0, 0.0)

  /** `Int(r)` for a finite CGFloat `r`: the integer part, rounding toward zero. */
  function Trunc(r: real): (n: int)
    ensures 0.0 <= r ==> n as real <= r < n as real + 1.0
    ensures r < 0.0 ==> n as real - 1.0 < r <= n as real
  {
    if r >= 0.0 then r.Floor else -((-r).Floor)
  }

  /** Converting an integer to CGFloat and back gives it unchanged. */
  lemma TruncOfInt(n: int)
    ensures Trunc(n as real) == n
  {
  }

  /** Truncation toward zero is symmetric about zero. */
  lemma TruncNegated(r: real)
    ensures Trunc(-r) == -Trunc(r)
  {
  }

  /** Truncation is monotone. */
  lemma TruncMonotone(a: real, b: real)
    requires a <= b
    ensures Trunc(a) <= Trunc(b)
  {
  }

  /** The product of two non-negative reals is non-negative. */
  lemma MulNonNegative(a: real, b: real)
    requires 0.0 <= a && 0.0 <= b
    ensures 0.0 <= a * b
  {
  }

  /** The product of two positive reals is positive. */
  lemma MulPositive(a: real, b: real)
    requires 0.0 < a && 0.0 < b
    ensures 0.0 < a * b
  {
  }
}
