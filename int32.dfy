/**
 * Kotlin's 32-bit `Int`, and the handful of operations the Android pipeline
 * applies to it: `+`/`-` with two's-complement wrap-around, `min`/`max`,
 * `coerceAtLeast`/`coerceAtMost`, and `Float.roundToInt()`.
 *
 * Floating-point values are idealised as `real`: the rounding of `Float` and
 * `Double` arithmetic is not modelled, only the rounding to `Int`.
 */
module Int32 {

  const MIN_VALUE: int := -0x8000_0000
  const MAX_VALUE: int := 0x7fff_ffff
  const MODULUS: int := 0x1_0000_0000

  type Int32 = x: int | MIN_VALUE <= x <= MAX_VALUE

  /** The `Int` that Kotlin's `+` or `-` yields for an exact result `x`. */
  function Wrap(x: int): (r: Int32)
    ensures (x - r) % MODULUS == 0
    ensures MIN_VALUE <= x <= MAX_VALUE ==> r == x
  {
    (x - MIN_VALUE) % MODULUS + MIN_VALUE
  }

  function Min(a: int, b: int): (r: int)
    ensures r <= a && r <= b && (r == a || r == b)
  {
    if a <= b then a else b
  }

  function Max(a: int, b: int): (r: int)
    ensures r >= a && r >= b && (r == a || r == b)
  {
    if a >= b then a else b
  }

  /** `x.coerceAtLeast(lo)`: the least value not below `lo` that is `x` whenever possible. */
  function CoerceAtLeast(x: int, lo: int): (r: int)
    ensures r >= lo && (x >= lo ==> r == x) && (x < lo ==> r == lo)
  {
    if x < lo then lo else x
  }

  /** `x.coerceAtMost(hi)`. */
  function CoerceAtMost(x: int, hi: int): (r: int)
    ensures r <= hi && (x <= hi ==> r == x) && (x > hi ==> r == hi)
  {
    if x > hi then hi else x
  }

  /** Rounding to the nearest integer, halves upwards (`Math.round`). */
  function RoundHalfUp(x: real): (r: int)
    ensures x - 0.5 < r as real <= x + 0.5
  {
    (x + 0.5).Floor
  }

  /**
   * `Float.roundToInt()`: `Math.round`, saturated to the `Int` range.
   * (The `NaN` case, where Kotlin throws, cannot arise from a `real`.)
   */
  function RoundToInt(x: real): (r: Int32)
    ensures MIN_VALUE as real - 0.5 <= x < MAX_VALUE as real + 0.5 ==> x - 0.5 < r as real <= x + 0.5
    ensures x < MIN_VALUE as real - 0.5 ==> r == MIN_VALUE
    ensures x >= MAX_VALUE as real + 0.5 ==> r == MAX_VALUE
  {
    var n := RoundHalfUp(x);
    if n < MIN_VALUE then MIN_VALUE else if n > MAX_VALUE then MAX_VALUE else n
  }

  /** Rounding is monotone, so a value that is at most `n` rounds to at most `n`. */
  lemma RoundToIntAtMost(x: real, n: Int32)
    requires x <= n as real
    ensures RoundToInt(x) <= n
  {
  }

  /** A value that is at least `n` rounds to at least `n`. */
  lemma RoundToIntAtLeast(x: real, n: Int32)
    requires x >= n as real
    ensures RoundToInt(x) >= n
  {
  }
}
