/**
 * Quadrilateral candidate selection of the Android boundary detector
 * (`findBestQuad`). OpenCV's contour analysis is not modelled: each contour
 * arrives as a record of what OpenCV reports about it, and the model decides
 * which one to keep.
 *
 * Two passes over the same contours:
 *  - primary: keep the polygon approximation with exactly 4 vertices, area at
 *    least `minArea`, bounding-box side ratio at least 0.3, convex, and (when a
 *    text centre is given) containing the centre; the largest area wins, and
 *    the earliest wins a tie because only a strictly larger area replaces it;
 *  - fallback, only when the primary pass found nothing: the minimum-area
 *    rotated rectangle of every contour whose own area is at least
 *    `0.5 * minArea` and whose rectangle contains the centre; the largest area
 *    wins, and the latest wins a tie because only a strictly smaller area is
 *    skipped.
 */
module QuadSearch {
  import opened Options
  import opened Downscale
  import opened Plane

  /** What OpenCV reports about one contour. */
  datatype Contour = Contour(
    approx: seq<Point>,          // `approxPolyDP` at 2% of the perimeter
    approxArea: real,            // `contourArea(approx)`, signed
    boundingRatio: real,         // min/max side of `boundingRect(approx)`
    convex: bool,                // `isContourConvex(approx)`
    approxHasCentre: bool,       // `pointPolygonTest(approx, centre) >= 0`
    contourArea: real,           // `contourArea(contour)`, signed
    minRect: Quad,               // the corners of `minAreaRect(contour)`
    minRectHasCentre: bool)      // `pointPolygonTest(rectangle, centre) >= 0`

  datatype Quad = Quad(p0: Point, p1: Point, p2: Point, p3: Point)

  /** Which polygon `findBestQuad` returns: a contour's approximation, a contour's rectangle, or `null`. */
  datatype Choice = Approximation(index: nat) | MinAreaRectangle(index: nat) | NoQuad

  const MIN_BOUNDING_RATIO: real := 0.3

  function PrimaryArea(c: Contour): real {
    Abs(c.approxArea)
  }

  function FallbackArea(c: Contour): real {
    Abs(c.contourArea)
  }

  /** The filters of the primary pass. */
  predicate PassesPrimary(c: Contour, minArea: real, textCentre: Option<Point>) {
    |c.approx| == 4 && PrimaryArea(c) >= minArea &&
    c.boundingRatio >= MIN_BOUNDING_RATIO && c.convex &&
    (textCentre.None? || c.approxHasCentre)
  }

  /** The filters of the fallback pass. */
  predicate PassesFallback(c: Contour, minArea: real, textCentre: Option<Point>) {
    FallbackArea(c) >= minArea * 0.5 && (textCentre.None? || c.minRectHasCentre)
  }

  /** `best` after the primary loop has seen `cs[..n]`, as an index. */
  function PrimaryScan(cs: seq<Contour>, n: nat, minArea: real, textCentre: Option<Point>): (best: Option<nat>)
    requires n <= |cs|
    ensures best.Some? ==> best.value < n
  {
    if n == 0 then None
    else
      var prev := PrimaryScan(cs, n - 1, minArea, textCentre);
      var bestArea := if prev.Some? then PrimaryArea(cs[prev.value]) else 0.0;
      if PassesPrimary(cs[n - 1], minArea, textCentre) && PrimaryArea(cs[n - 1]) > bestArea then Some(n - 1) else prev
  }

  /** `bestFallback` after the fallback loop has seen `cs[..n]`, as an index. */
  function FallbackScan(cs: seq<Contour>, n: nat, minArea: real, textCentre: Option<Point>): (best: Option<nat>)
    requires n <= |cs|
    ensures best.Some? ==> best.value < n
  {
    if n == 0 then None
    else
      var prev := FallbackScan(cs, n - 1, minArea, textCentre);
      var bestArea := if prev.Some? then FallbackArea(cs[prev.value]) else 0.0;
      if PassesFallback(cs[n - 1], minArea, textCentre) && FallbackArea(cs[n - 1]) >= bestArea then Some(n - 1) else prev
  }

  /** The choice `findBestQuad` makes. */
  function BestQuad(cs: seq<Contour>, minArea: real, textCentre: Option<Point>): Choice {
    var primary := PrimaryScan(cs, |cs|, minArea, textCentre);
    if primary.Some? then Approximation(primary.value)
    else
      var fallback := FallbackScan(cs, |cs|, minArea, textCentre);
      if fallback.Some? then MinAreaRectangle(fallback.value) else NoQuad
  }

  /** The vertices of the chosen polygon. */
  function ChosenPoints(cs: seq<Contour>, choice: Choice): seq<Point>
    requires choice.Approximation? || choice.MinAreaRectangle? ==> choice.index < |cs|
  {
    match choice
    case Approximation(i) => cs[i].approx
    case MinAreaRectangle(i) => var q := cs[i].minRect; [q.p0, q.p1, q.p2, q.p3]
    case NoQuad => []
  }

  /** The primary pass keeps the largest qualifying positive area, the earliest of equals; or nothing when no qualifying area is positive. */
  predicate IsPrimaryBest(cs: seq<Contour>, n: nat, minArea: real, textCentre: Option<Point>, best: Option<nat>)
    requires n <= |cs|
  {
    match best
    case None =>
      forall j :: 0 <= j < n && PassesPrimary(cs[j], minArea, textCentre) ==> PrimaryArea(cs[j]) <= 0.0
    case Some(k) =>
      k < n && PassesPrimary(cs[k], minArea, textCentre) && PrimaryArea(cs[k]) > 0.0 &&
      (forall j :: 0 <= j < n && PassesPrimary(cs[j], minArea, textCentre) ==> PrimaryArea(cs[j]) <= PrimaryArea(cs[k])) &&
      (forall j :: 0 <= j < k && PassesPrimary(cs[j], minArea, textCentre) ==> PrimaryArea(cs[j]) < PrimaryArea(cs[k]))
  }

  /** The fallback pass keeps the largest qualifying area, the latest of equals; or nothing when nothing qualifies. */
  predicate IsFallbackBest(cs: seq<Contour>, n: nat, minArea: real, textCentre: Option<Point>, best: Option<nat>)
    requires n <= |cs|
  {
    match best
    case None =>
      forall j :: 0 <= j < n ==> !PassesFallback(cs[j], minArea, textCentre)
    case Some(k) =>
      k < n && PassesFallback(cs[k], minArea, textCentre) &&
      (forall j :: 0 <= j < n && PassesFallback(cs[j], minArea, textCentre) ==> FallbackArea(cs[j]) <= FallbackArea(cs[k])) &&
      (forall j :: k < j < n && PassesFallback(cs[j], minArea, textCentre) ==> FallbackArea(cs[j]) < FallbackArea(cs[k]))
  }

  lemma {:induction false} PrimaryScanIsBest(cs: seq<Contour>, n: nat, minArea: real, textCentre: Option<Point>)
    requires n <= |cs|
    ensures IsPrimaryBest(cs, n, minArea, textCentre, PrimaryScan(cs, n, minArea, textCentre))
  {
    if n > 0 {
      PrimaryScanIsBest(cs, n - 1, minArea, textCentre);
    }
  }

  lemma {:induction false} FallbackScanIsBest(cs: seq<Contour>, n: nat, minArea: real, textCentre: Option<Point>)
    requires n <= |cs|
    ensures IsFallbackBest(cs, n, minArea, textCentre, FallbackScan(cs, n, minArea, textCentre))
  {
    if n > 0 {
      FallbackScanIsBest(cs, n - 1, minArea, textCentre);
    }
  }

  /**
   * `findBestQuad`: the two loops of the source, with `best`/`bestArea` and
   * `bestFallback`/`bestFallbackArea` updated in place.
   */
  method FindBestQuad(contours: seq<Contour>, minArea: real, textCentre: Option<Point>) returns (r: Choice)
    ensures r == BestQuad(contours, minArea, textCentre)
    ensures r.Approximation? ==> IsPrimaryBest(contours, |contours|, minArea, textCentre, Some(r.index))
    ensures r.MinAreaRectangle? ==>
      IsPrimaryBest(contours, |contours|, minArea, textCentre, None) &&
      IsFallbackBest(contours, |contours|, minArea, textCentre, Some(r.index))
    ensures r.NoQuad? ==>
      IsPrimaryBest(contours, |contours|, minArea, textCentre, None) &&
      IsFallbackBest(contours, |contours|, minArea, textCentre, None)
  {
    PrimaryScanIsBest(contours, |contours|, minArea, textCentre);
    FallbackScanIsBest(contours, |contours|, minArea, textCentre);
    var best: Option<nat> := None;
    var bestArea := 0.0;
    for i := 0 to |contours|
      invariant best == PrimaryScan(contours, i, minArea, textCentre)
      invariant bestArea == if best.Some? then PrimaryArea(contours[best.value]) else 0.0
    {
      var c := contours[i];
      if |c.approx| != 4 {
        continue;
      }
      var area := Abs(c.approxArea);
      if area < minArea {
        continue;
      }
      if c.boundingRatio < MIN_BOUNDING_RATIO || !c.convex {
        continue;
      }
      if textCentre.Some? && !c.approxHasCentre {
        continue;
      }
      if area > bestArea {
        best := Some(i);
        bestArea := area;
      }
    }
    if best.Some? {
      return Approximation(best.value);
    }

    var bestFallback: Option<nat> := None;
    var bestFallbackArea := 0.0;
    for i := 0 to |contours|
      invariant bestFallback == FallbackScan(contours, i, minArea, textCentre)
      invariant bestFallbackArea == if bestFallback.Some? then FallbackArea(contours[bestFallback.value]) else 0.0
    {
      var c := contours[i];
      var area := Abs(c.contourArea);
      if area < minArea * 0.5 {
        continue;
      }
      if area < bestFallbackArea {
        continue;
      }
      if textCentre.Some? && !c.minRectHasCentre {
        continue;
      }
      bestFallback := Some(i);
      bestFallbackArea := area;
    }
    r := if bestFallback.Some? then MinAreaRectangle(bestFallback.value) else NoQuad;
  }
}
