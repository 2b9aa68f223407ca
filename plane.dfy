/**
 * Real-valued plane geometry shared by both platforms: points, absolute
 * value, and the two-argument `min`/`max` of Kotlin and Swift.
 */
module Plane {

  /** A point in image coordinates (OpenCV's `Point`, Android's `PointF`). */
  datatype Point = Point(x: real, y: real)

  function Abs(v: real): (r: real)
    ensures r >= 0.0 && (r == v || r == -v)
  {
    if v < 0.0 then -v else v
  }

  /** `min(a, b)`: `b` only when it is strictly smaller. */
  function Least(a: real, b: real): (r: real)
    ensures r <= a && r <= b && (r == a || r == b)
  {
    if b < a then b else a
  }

  /** `max(a, b)`: `b` only when it is strictly greater. */
  function Greatest(a: real, b: real): (r: real)
    ensures a <= r && b <= r && (r == a || r == b)
  {
    if b > a then b else a
  }
}
