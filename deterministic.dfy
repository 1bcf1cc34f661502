/**
 * The deterministic-arithmetic vocabulary the projectile code is written in:
 * fixed-point numbers (modelled as reals, rounding left out), two-component
 * fixed-point vectors, C#'s byte, and the two fixed-point constants the
 * projectile system uses.
 */
module Deterministic {

  /** A fixed-point number. Fixed-point rounding is not modelled. */
  type FP = real

  /** C#'s unsigned 8-bit integer. */
  newtype byte = x: int | 0 <= x < 256

  /** byte.MaxValue */
  const ByteMaxValue: byte := 255

  /** The game-wide constant 0.85, used as the default ricochet damping and as the hit damping. */
  const EightyFivePercent: FP := 0.85

  /** The fixed-point constant 1.25 that scales the slope boost of a bounce. */
  const FiveQuarters: FP := 1.25

  /** A two-component fixed-point vector. */
  datatype FPVector2 = FPVector2(x: FP, y: FP) {
    /** Component-wise scaling, as `vector * scalar`. */
    function Scale(k: FP): (r: FPVector2)
      ensures r.x == x * k && r.y == y * k
    {
      FPVector2(x * k, y * k)
    }
  }

  /** Absolute value of a fixed-point number. */
  function Abs(x: FP): (r: FP)
    ensures 0.0 <= r
    ensures r == x || r == -x
  {
    if x < 0.0 then -x else x
  }
}
