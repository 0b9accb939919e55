/**
 * Small value types shared by the scene model: an optional value (a C++
 * reference that may be null), a 3-vector of reals (PxVec3 with the float
 * rounding left out) and the SDK's PxMax.
 */
module Basics {

  datatype Option<+T> = None | Some(value: T)

  /** A position or offset in world space; float coordinates are modelled as reals. */
  datatype Vec3 = Vec3(x: real, y: real, z: real)

  /** `p + PxVec3(dx, 0, 0)`: a pose shifted along the x axis. */
  function ShiftX(p: Vec3, dx: real): (r: Vec3)
    ensures r.x - p.x == dx && r.y == p.y && r.z == p.z
  {
    Vec3(p.x + dx, p.y, p.z)
  }

  /** PxMax(a, b) as the SDK writes it: `a < b ? b : a`. */
  function PxMax(a: real, b: real): (r: real)
    ensures r >= a && r >= b
    ensures r == a || r == b
  {
    if a < b then b else a
  }

  /** The larger of two integers, for vertex and particle counts in contracts. */
  function MaxInt(a: int, b: int): (r: int)
    ensures r >= a && r >= b
    ensures r == a || r == b
  {
    if a < b then b else a
  }
}
