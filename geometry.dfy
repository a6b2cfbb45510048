/** Three-component vectors and the numeric helpers the components use. */
module Geometry {

  /** An index into a `[number, number, number]` tuple. */
  type Axis = i: int | 0 <= i < 3

  /** A position, an Euler rotation (three angles, radians) or a scale. */
  datatype Vec3 = Vec3(x: real, y: real, z: real) {

    /** `v[axis]` */
    function At(axis: Axis): real {
      if axis == 0 then x else if axis == 1 then y else z
    }

    /** The tuple with index `axis` replaced by `v` (copy, then assign one index). */
    function With(axis: Axis, v: real): (r: Vec3)
      ensures r.At(axis) == v
      ensures forall other: Axis :: other != axis ==> r.At(other) == At(other)
    {
      if axis == 0 then this.(x := v) else if axis == 1 then this.(y := v) else this.(z := v)
    }

    /** Every coordinate multiplied by `f`. */
    function ScaledBy(f: real): Vec3 {
      Vec3(x * f, y * f, z * f)
    }
  }

  const Origin: Vec3 := Vec3(0.0, 0.0, 0.0)
  const UnitScale: Vec3 := Vec3(1.0, 1.0, 1.0)

  /** `Math.PI`, as a real (the model does not reproduce IEEE-754 rounding). */
  const Pi: real := 3.141592653589793

  /** `Math.abs` */
  function Abs(r: real): real {
    if r < 0.0 then -r else r
  }

  /** `Math.max` */
  function Max(a: real, b: real): real {
    if a < b then b else a
  }

  /** `Math.round`: the nearest integer, ties rounded towards positive infinity. */
  function Round(x: real): (n: int)
    ensures x - 0.5 < n as real <= x + 0.5
  {
    (x + 0.5).Floor
  }

  lemma RoundOfInteger(n: int)
    ensures Round(n as real) == n
  {
  }

  // Real-arithmetic facts the quantisation proofs rely on.

  lemma DivMul(v: real, g: real)
    requires g != 0.0
    ensures v / g * g == v
  {
  }

  lemma MulDiv(n: real, g: real)
    requires g != 0.0
    ensures n * g / g == n
  {
  }

  lemma MulLe(a: real, b: real, c: real)
    requires a <= b && c >= 0.0
    ensures a * c <= b * c
  {
  }

  lemma AbsMul(a: real, b: real)
    ensures Abs(a * b) == Abs(a) * Abs(b)
  {
  }
}
