/**
 * The decision logic of `detectDocumentCornersOpenCV`: work in the
 * downscaled frame, search the edge-image contours, retry on the
 * adaptive-threshold contours only when that search returned nothing, and
 * map the polygon found back to source resolution. The image operations
 * (blur, Canny, closing, thresholding, contour extraction) are OpenCV's; their
 * contours arrive as inputs.
 */
module BoundaryDetector {
  import opened Int32
  import opened Options
  import opened TextBounds
  import opened Downscale
  import opened Plane
  import opened QuadSearch
  import opened CornerOrder

  /** `minArea`: 20% of the working image's area. */
  function MinArea(frame: Frame): real {
    frame.width as real * frame.height as real * 0.2
  }

  /** The text hint's centre in the working frame, when there is a hint. */
  function HintCentre(textRect: Option<Rect>, frame: Frame): Option<Point>
    requires frame.scaleX > 0.0 && frame.scaleY > 0.0
  {
    if textRect.Some? then Some(TextCentre(textRect.value, frame)) else None
  }

  /** The polygon the two contour searches settle on, and the contours it came from. */
  function SearchQuad(frame: Frame, edgeContours: seq<Contour>, thresholdContours: seq<Contour>, centre: Option<Point>): (r: seq<Point>)
    ensures BestQuad(edgeContours, MinArea(frame), centre).NoQuad? && BestQuad(thresholdContours, MinArea(frame), centre).NoQuad?
      <==> r == []
    ensures |r| == 0 || |r| == 4
    ensures var fromEdges := BestQuad(edgeContours, MinArea(frame), centre);
      (!fromEdges.NoQuad? ==> r == ChosenPoints(edgeContours, fromEdges)) &&
      (fromEdges.NoQuad? ==> r == ChosenPoints(thresholdContours, BestQuad(thresholdContours, MinArea(frame), centre)))
  {
    var minArea := MinArea(frame);
    var fromEdges := BestQuad(edgeContours, minArea, centre);
    PrimaryScanIsBest(edgeContours, |edgeContours|, minArea, centre);
    FallbackScanIsBest(edgeContours, |edgeContours|, minArea, centre);
    PrimaryScanIsBest(thresholdContours, |thresholdContours|, minArea, centre);
    FallbackScanIsBest(thresholdContours, |thresholdContours|, minArea, centre);
    if !fromEdges.NoQuad? then ChosenPoints(edgeContours, fromEdges)
    else ChosenPoints(thresholdContours, BestQuad(thresholdContours, minArea, centre))
  }

  /**
   * `detectDocumentCornersOpenCV`: `None` when OpenCV is unavailable or
   * neither search finds a polygon; otherwise the polygon's vertices, mapped
   * back to the bitmap, in corner roles.
   */
  function DetectCorners(openCvReady: bool, width: Int32, height: Int32, textRect: Option<Rect>,
                         edgeContours: seq<Contour>, thresholdContours: seq<Contour>): (r: Option<CornerPoints>)
    requires width >= 1 && height >= 1
    ensures r.Some? ==> openCvReady
    ensures var f := DetectionFrame(width, height);
      var centre := HintCentre(textRect, f);
      openCvReady ==>
        (r.None? <==> BestQuad(edgeContours, MinArea(f), centre).NoQuad? && BestQuad(thresholdContours, MinArea(f), centre).NoQuad?) &&
        r == ToCornerPoints(SearchQuad(f, edgeContours, thresholdContours, centre), f)
  {
    if !openCvReady then None
    else
      var frame := DetectionFrame(width, height);
      var quad := SearchQuad(frame, edgeContours, thresholdContours, HintCentre(textRect, frame));
      ToCornerPoints(quad, frame)
  }

  /**
   * The edge search has priority: whenever it returns a polygon (from either
   * of its passes), the threshold contours play no part.
   */
  lemma EdgeSearchTakesPriority(openCvReady: bool, width: Int32, height: Int32, textRect: Option<Rect>,
                                edgeContours: seq<Contour>, thresholdContours: seq<Contour>, otherThreshold: seq<Contour>)
    requires width >= 1 && height >= 1
    requires var f := DetectionFrame(width, height);
      !BestQuad(edgeContours, MinArea(f), HintCentre(textRect, f)).NoQuad?
    ensures DetectCorners(openCvReady, width, height, textRect, edgeContours, thresholdContours)
         == DetectCorners(openCvReady, width, height, textRect, edgeContours, otherThreshold)
  {
  }
}
