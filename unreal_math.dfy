// Engine math the plugin relies on: vectors, quaternions, transforms and the
// FMath helpers (Clamp, Max3, IsNearlyZero, IsNearlyEqual) over real numbers.
// Floating-point rounding is not modelled: every quantity is a `real`.

module UnrealMath {

  datatype Vector = Vector(x: real, y: real, z: real)

  const ZeroVector := Vector(0.0, 0.0, 0.0)

  /** A rotation, kept as an opaque value: the model compares rotations, it never composes them. */
  datatype Quat = Quat(x: real, y: real, z: real, w: real)

  const IdentityQuat := Quat(0.0, 0.0, 0.0, 1.0)

  /** A rotator (pitch, yaw, roll in degrees), also opaque to the model. */
  datatype Rotator = Rotator(pitch: real, yaw: real, roll: real)

  datatype Transform = Transform(rotation: Quat, translation: Vector, scale3D: Vector)

  const IdentityTransform := Transform(IdentityQuat, ZeroVector, Vector(1.0, 1.0, 1.0))

  /** KINDA_SMALL_NUMBER */
  const KindaSmallNumber: real := 0.0001

  /** SMALL_NUMBER, the default tolerance of FMath::IsNearlyEqual */
  const SmallNumber: real := 0.00000001

  /** BIG_NUMBER (3.4e+38) */
  const BigNumber: real := 340000000000000000000000000000000000000.0

  /** FMath::Clamp: `X < Min ? Min : X < Max ? X : Max`. */
  function Clamp(x: real, lo: real, hi: real): (r: real)
    ensures lo <= hi ==> lo <= r <= hi
    ensures lo <= x <= hi ==> r == x
    ensures r == lo || r == x || r == hi
  {
    if x < lo then lo else if x < hi then x else hi
  }

  function Max(a: real, b: real): (r: real)
    ensures r >= a && r >= b && (r == a || r == b)
  {
    if a >= b then a else b
  }

  function Min(a: real, b: real): (r: real)
    ensures r <= a && r <= b && (r == a || r == b)
  {
    if a <= b then a else b
  }

  /** FMath::Max3 */
  function Max3(a: real, b: real, c: real): (r: real)
    ensures r >= a && r >= b && r >= c
    ensures r == a || r == b || r == c
  {
    Max(Max(a, b), c)
  }

  function Abs(x: real): (r: real)
    ensures r >= 0.0 && (r == x || r == -x)
  {
    if x < 0.0 then -x else x
  }

  /** FMath::IsNearlyZero(Value, Tolerance) */
  predicate IsNearlyZero(x: real, tolerance: real)
  {
    Abs(x) <= tolerance
  }

  /** FMath::IsNearlyEqual(A, B, Tolerance) */
  predicate IsNearlyEqual(a: real, b: real, tolerance: real)
  {
    Abs(a - b) <= tolerance
  }

  function Add(a: Vector, b: Vector): Vector
  {
    Vector(a.x + b.x, a.y + b.y, a.z + b.z)
  }

  function Sub(a: Vector, b: Vector): Vector
  {
    Vector(a.x - b.x, a.y - b.y, a.z - b.z)
  }

  function Scale(v: Vector, s: real): Vector
  {
    Vector(v.x * s, v.y * s, v.z * s)
  }

  function Dot(a: Vector, b: Vector): real
  {
    a.x * b.x + a.y * b.y + a.z * b.z
  }

  function SizeSquared(v: Vector): real
  {
    Dot(v, v)
  }
}
