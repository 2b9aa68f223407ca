/**
 * The downscaler of the Android boundary detector (`resizeForDetection`), the
 * identity scale used when it declines, and the projection of the text hint's
 * centre into the working frame.
 */
module Downscale {
  import opened Int32
  import opened Options
  import opened TextBounds
  import opened Plane

  /** `detectionMaxDimension`. */
  const DETECTION_MAX_DIMENSION: int := 1280

  /** The working image's size and the factors that map its coordinates back to the source. */
  datatype Frame = Frame(width: int, height: int, scaleX: real, scaleY: real)

  /**
   * One side of the downscaled bitmap, `(side * scale).roundToInt().coerceAtLeast(1)`
   * with `scale = 1280f / maxDimension`: between 1 and 1280, exactly 1280 for
   * the longer side, and otherwise the exact scaled length rounded.
   */
  function ScaledSide(side: int, maxDimension: int): (n: int)
    requires 1 <= side <= maxDimension && DETECTION_MAX_DIMENSION < maxDimension
    ensures 1 <= n <= DETECTION_MAX_DIMENSION
    ensures side == maxDimension ==> n == DETECTION_MAX_DIMENSION
    ensures var exact := side as real * DETECTION_MAX_DIMENSION as real / maxDimension as real;
      (exact >= 0.5 ==> exact - 0.5 < n as real <= exact + 0.5) && (exact < 0.5 ==> n == 1)
  {
    var scale := DETECTION_MAX_DIMENSION as real / maxDimension as real;
    ScaledSideBounds(side, maxDimension, scale);
    RoundToIntAtMost(side as real * scale, DETECTION_MAX_DIMENSION);
    CoerceAtLeast(RoundToInt(side as real * scale), 1)
  }

  /** A side scaled by 1280/longer side lies between 0 and 1280, and the longer side lands on 1280 exactly. */
  lemma ScaledSideBounds(side: int, maxDimension: int, scale: real)
    requires 1 <= side <= maxDimension && scale == DETECTION_MAX_DIMENSION as real / maxDimension as real
    ensures 0.0 < side as real * scale <= DETECTION_MAX_DIMENSION as real
    ensures side == maxDimension ==> side as real * scale == DETECTION_MAX_DIMENSION as real
    ensures side as real * scale == side as real * DETECTION_MAX_DIMENSION as real / maxDimension as real
  {
    var d := maxDimension as real;
    assert scale * d == DETECTION_MAX_DIMENSION as real;
    assert scale > 0.0;
    assert (d - side as real) * scale >= 0.0;
  }

  /**
   * `resizeForDetection` for a `width` x `height` bitmap: `None` (the source's
   * `null`) when the longer side is within 1280 px, otherwise a size whose
   * longer side is 1280 px and factors that map it back to the original size.
   */
  function ResizeForDetection(width: Int32, height: Int32): (r: Option<Frame>)
    requires width >= 1 && height >= 1
    ensures r.None? <==> Max(width, height) <= DETECTION_MAX_DIMENSION
    ensures r.Some? ==>
      var f := r.value;
      1 <= f.width <= DETECTION_MAX_DIMENSION && 1 <= f.height <= DETECTION_MAX_DIMENSION &&
      Max(f.width, f.height) == DETECTION_MAX_DIMENSION &&
      f.scaleX * f.width as real == width as real && f.scaleY * f.height as real == height as real
    ensures r.Some? ==>
      var f := r.value;
      var m := Max(width, height) as real;
      var exactWidth := width as real * DETECTION_MAX_DIMENSION as real / m;
      var exactHeight := height as real * DETECTION_MAX_DIMENSION as real / m;
      (exactWidth >= 0.5 ==> exactWidth - 0.5 < f.width as real <= exactWidth + 0.5) &&
      (exactWidth < 0.5 ==> f.width == 1) &&
      (exactHeight >= 0.5 ==> exactHeight - 0.5 < f.height as real <= exactHeight + 0.5) &&
      (exactHeight < 0.5 ==> f.height == 1)
  {
    var maxDimension := Max(width, height);
    if maxDimension <= DETECTION_MAX_DIMENSION then None
    else
      var newWidth := ScaledSide(width, maxDimension);
      var newHeight := ScaledSide(height, maxDimension);
      DivideBack(width, newWidth);
      DivideBack(height, newHeight);
      Some(Frame(newWidth, newHeight, width as real / newWidth as real, height as real / newHeight as real))
  }

  lemma DivideBack(side: int, newSide: int)
    requires newSide >= 1
    ensures side as real / newSide as real * newSide as real == side as real
  {
  }

  /**
   * The frame boundary detection works in: the downscaled one, or the bitmap
   * itself with the identity factors `1f`, `1f`.
   */
  function DetectionFrame(width: Int32, height: Int32): (f: Frame)
    requires width >= 1 && height >= 1
    ensures 1 <= f.width && 1 <= f.height && f.scaleX > 0.0 && f.scaleY > 0.0
    ensures Max(f.width, f.height) == Min(Max(width, height), DETECTION_MAX_DIMENSION)
    ensures f.scaleX * f.width as real == width as real && f.scaleY * f.height as real == height as real
    ensures Max(width, height) <= DETECTION_MAX_DIMENSION ==> f == Frame(width, height, 1.0, 1.0)
    ensures Max(width, height) > DETECTION_MAX_DIMENSION ==> ResizeForDetection(width, height) == Some(f)
  {
    ResizeForDetection(width, height).GetOr(Frame(width, height, 1.0, 1.0))
  }

  /**
   * The text hint's centre in the working frame:
   * `((left + right) / 2.0 / scaleX, (top + bottom) / 2.0 / scaleY)`, where the
   * sums are `Int` additions.
   */
  function TextCentre(rect: Rect, frame: Frame): Point
    requires frame.scaleX > 0.0 && frame.scaleY > 0.0
  {
    Point(Wrap(rect.left + rect.right) as real / 2.0 / frame.scaleX,
          Wrap(rect.top + rect.bottom) as real / 2.0 / frame.scaleY)
  }

  /**
   * A hint rectangle whose edges lie within a bitmap Android can allocate
   * (sides below 2^29) has its centre inside the working frame, for any frame
   * whose factors map its size back to the bitmap's (as `DetectionFrame`'s do).
   */
  lemma TextCentreInFrame(rect: Rect, f: Frame, width: Int32, height: Int32)
    requires 1 <= width < 0x2000_0000 && 1 <= height < 0x2000_0000
    requires 0 <= rect.left <= width && 0 <= rect.right <= width
    requires 0 <= rect.top <= height && 0 <= rect.bottom <= height
    requires 1 <= f.width && 1 <= f.height && f.scaleX > 0.0 && f.scaleY > 0.0
    requires f.scaleX * f.width as real == width as real && f.scaleY * f.height as real == height as real
    ensures var c := TextCentre(rect, f);
      0.0 <= c.x <= f.width as real && 0.0 <= c.y <= f.height as real
  {
    ProjectedCoordinate(rect.left + rect.right, width, f.width, f.scaleX);
    ProjectedCoordinate(rect.top + rect.bottom, height, f.height, f.scaleY);
  }

  lemma ProjectedCoordinate(sum: int, side: int, frameSide: int, scale: real)
    requires 0 <= sum <= 2 * side && side >= 1 && frameSide >= 1 && scale > 0.0
    requires scale * frameSide as real == side as real
    requires MIN_VALUE <= sum <= MAX_VALUE
    ensures 0.0 <= Wrap(sum) as real / 2.0 / scale <= frameSide as real
  {
    assert Wrap(sum) == sum;
    var half := sum as real / 2.0;
    assert 0.0 <= half <= side as real;
    var projected := half / scale;
    assert projected * scale == half;
    assert (frameSide as real - projected) * scale == side as real - half;
  }

  /** A point of the working frame mapped back to source coordinates (`x * scaleX`, `y * scaleY`). */
  function ScaleBack(p: Point, frame: Frame): Point {
    Point(p.x * frame.scaleX, p.y * frame.scaleY)
  }

  /**
   * Mapping back sends the working frame onto the whole bitmap, for any frame
   * whose factors map its size back to the bitmap's (as `DetectionFrame`'s do).
   */
  lemma ScaleBackInBitmap(p: Point, f: Frame, width: int, height: int)
    requires f.scaleX > 0.0 && f.scaleY > 0.0
    requires f.scaleX * f.width as real == width as real && f.scaleY * f.height as real == height as real
    requires 0.0 <= p.x <= f.width as real && 0.0 <= p.y <= f.height as real
    ensures var q := ScaleBack(p, f);
      0.0 <= q.x <= width as real && 0.0 <= q.y <= height as real
  {
    ScaleBackAxis(p.x, f.width as real, f.scaleX, width as real);
    ScaleBackAxis(p.y, f.height as real, f.scaleY, height as real);
  }

  lemma ScaleBackAxis(v: real, frameSide: real, scale: real, side: real)
    requires 0.0 <= v <= frameSide && scale > 0.0 && scale * frameSide == side
    ensures 0.0 <= v * scale <= side
  {
    assert (frameSide - v) * scale >= 0.0;
  }
}
