/**
 * The parts of Core Graphics' `CGRect` that `cropToTextBounds` relies on:
 * the standardised edges, `insetBy`, `intersection` and `isEmpty`. `CGFloat`
 * is idealised as `real`; the infinite "null" rectangle is `None`.
 */
module CoreGraphics {
  import opened Options
  import opened Plane

  datatype CGPoint = CGPoint(x: real, y: real)

  datatype CGRect = CGRect(x: real, y: real, width: real, height: real)

  function MinX(r: CGRect): real { if r.width >= 0.0 then r.x else r.x + r.width }
  function MaxX(r: CGRect): real { if r.width >= 0.0 then r.x + r.width else r.x }
  function MinY(r: CGRect): real { if r.height >= 0.0 then r.y else r.y + r.height }
  function MaxY(r: CGRect): real { if r.height >= 0.0 then r.y + r.height else r.y }

  /** Swift's `CGRect.width`/`height`: the standardised (non-negative) extents. */
  function Width(r: CGRect): real { Abs(r.width) }
  function Height(r: CGRect): real { Abs(r.height) }

  /** The point lies in the closed rectangle. */
  predicate Contains(r: CGRect, px: real, py: real) {
    MinX(r) <= px <= MaxX(r) && MinY(r) <= py <= MaxY(r)
  }

  /** `inner` lies inside `outer`. */
  predicate Within(inner: CGRect, outer: CGRect) {
    MinX(outer) <= MinX(inner) && MaxX(inner) <= MaxX(outer) &&
    MinY(outer) <= MinY(inner) && MaxY(inner) <= MaxY(outer)
  }

  /**
   * `r.insetBy(dx:dy:)`: the standardised rectangle moved in by `dx` on the
   * left and right and by `dy` on the top and bottom; the null rectangle when
   * that leaves a negative extent. Negative insets grow the rectangle, which
   * always succeeds.
   */
  function InsetBy(r: CGRect, dx: real, dy: real): (s: Option<CGRect>)
    ensures s.Some? <==> Width(r) - 2.0 * dx >= 0.0 && Height(r) - 2.0 * dy >= 0.0
    ensures s.Some? ==>
      MinX(s.value) == MinX(r) + dx && MaxX(s.value) == MaxX(r) - dx &&
      MinY(s.value) == MinY(r) + dy && MaxY(s.value) == MaxY(r) - dy
  {
    var w := Width(r) - 2.0 * dx;
    var h := Height(r) - 2.0 * dy;
    if w < 0.0 || h < 0.0 then None else Some(CGRect(MinX(r) + dx, MinY(r) + dy, w, h))
  }

  /**
   * `a.intersection(b)`: the null rectangle when they do not meet, otherwise
   * the rectangle of exactly the points that lie in both.
   */
  function Intersection(a: CGRect, b: CGRect): (r: Option<CGRect>)
    ensures r.Some? ==> r.value.width >= 0.0 && r.value.height >= 0.0 && Within(r.value, a) && Within(r.value, b)
    ensures forall px, py :: Contains(a, px, py) && Contains(b, px, py) <==> r.Some? && Contains(r.value, px, py)
    ensures forall c :: MinX(c) <= MaxX(c) && MinY(c) <= MaxY(c) && Within(c, a) && Within(c, b) ==>
      r.Some? && Within(c, r.value)
  {
    var x1 := if MinX(a) >= MinX(b) then MinX(a) else MinX(b);
    var x2 := if MaxX(a) <= MaxX(b) then MaxX(a) else MaxX(b);
    var y1 := if MinY(a) >= MinY(b) then MinY(a) else MinY(b);
    var y2 := if MaxY(a) <= MaxY(b) then MaxY(a) else MaxY(b);
    if x2 < x1 || y2 < y1 then
      assert forall px, py :: !(Contains(a, px, py) && Contains(b, px, py));
      None
    else Some(CGRect(x1, y1, x2 - x1, y2 - y1))
  }

  /** `isEmpty`: null, or zero width or height. */
  predicate IsEmpty(r: Option<CGRect>) {
    r.None? || r.value.width == 0.0 || r.value.height == 0.0
  }

  /**
   * Moving a rectangle from a top-left-origin frame of height `imageHeight`
   * into a bottom-left-origin one: same x, width and height, and
   * `y' = imageHeight - y - height`.
   */
  function FlipY(r: CGRect, imageHeight: real): (f: CGRect)
    ensures forall px, py :: Contains(r, px, py) <==> Contains(f, px, imageHeight - py)
    ensures f.width == r.width && f.height == r.height
  {
    CGRect(r.x, imageHeight - r.y - r.height, r.width, r.height)
  }
}
