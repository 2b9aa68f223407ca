/**
 * The target size of the perspective warp (`warpPerspectiveOpenCV`): each
 * side is the longer of the two opposite edges of the found quadrilateral,
 * rounded, and at least 1 px. The edge lengths come from `distance`, a
 * square root, and are taken here as given non-negative reals. The warp
 * itself is OpenCV's and is not modelled.
 */
module Rectifier {
  import opened Int32
  import opened Downscale
  import opened Plane
  import opened CornerOrder

  /** The four edge lengths of the quadrilateral: `distance` between neighbouring corners. */
  datatype Edges = Edges(bottom: real, top: real, right: real, left: real)

  predicate ValidEdges(e: Edges) {
    e.bottom >= 0.0 && e.top >= 0.0 && e.right >= 0.0 && e.left >= 0.0
  }

  datatype Size = Size(width: Int32, height: Int32)

  /** `max(a, b).roundToInt().coerceAtLeast(1)`. */
  function RoundedSide(a: real, b: real): (n: Int32)
    requires a >= 0.0 && b >= 0.0
    ensures n >= 1
    ensures var m := Greatest(a, b);
      (0.5 <= m < MAX_VALUE as real + 0.5 ==> m - 0.5 < n as real <= m + 0.5) &&
      (m < 0.5 ==> n == 1) &&
      (m >= MAX_VALUE as real + 0.5 ==> n == MAX_VALUE)
  {
    CoerceAtLeast(RoundToInt(Greatest(a, b)), 1)
  }

  /**
   * The warp's target size: width from the bottom and top edges, height from
   * the right and left edges, each the rounded longer edge and at least 1.
   */
  function TargetSize(e: Edges): (s: Size)
    requires ValidEdges(e)
    ensures s.width >= 1 && s.height >= 1
    ensures (s.width as real + 0.5 > e.bottom && s.width as real + 0.5 > e.top) || s.width == MAX_VALUE
    ensures (s.height as real + 0.5 > e.right && s.height as real + 0.5 > e.left) || s.height == MAX_VALUE
    ensures s.width as real <= Greatest(Greatest(e.bottom, e.top) + 0.5, 1.0)
    ensures s.height as real <= Greatest(Greatest(e.right, e.left) + 0.5, 1.0)
  {
    Size(RoundedSide(e.bottom, e.top), RoundedSide(e.right, e.left))
  }

  /** The destination corners, in role order: (0,0), (w,0), (w,h), (0,h). */
  function TargetCorners(s: Size): CornerPoints {
    CornerPoints(Point(0.0, 0.0), Point(s.width as real, 0.0),
                 Point(s.width as real, s.height as real), Point(0.0, s.height as real))
  }

  /**
   * The destination rectangle is itself in role order: given to
   * `orderCorners` in any order, its four corners get the roles the warp maps
   * the source corners to.
   */
  lemma TargetCornersAreOrdered(s: Size, order: seq<Point>)
    requires s.width >= 1 && s.height >= 1
    requires var t := TargetCorners(s);
      multiset(order) == multiset([t.topLeft, t.topRight, t.bottomRight, t.bottomLeft])
    ensures |order| == 4 && OrderCorners(order) == TargetCorners(s)
  {
    var t := TargetCorners(s);
    var ps := [t.topLeft, t.topRight, t.bottomRight, t.bottomLeft];
    assert KeyOf(ps[0], Sum) < KeyOf(ps[1], Sum) < KeyOf(ps[2], Sum);
    assert KeyOf(ps[0], Sum) < KeyOf(ps[3], Sum) < KeyOf(ps[2], Sum);
    assert KeyOf(ps[1], Difference) > KeyOf(ps[0], Difference) > KeyOf(ps[3], Difference);
    assert KeyOf(ps[1], Difference) > KeyOf(ps[2], Difference) > KeyOf(ps[3], Difference);
    assert MinBy(ps, Sum) == 0;
    assert MaxBy(ps, Sum) == 2;
    assert MaxBy(ps, Difference) == 1;
    assert MinBy(ps, Difference) == 3;
    OrderCornersPermutationInvariant(ps, order);
  }
}
