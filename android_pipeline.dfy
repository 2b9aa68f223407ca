/**
 * The Android document pipeline (`processDocumentBitmap`): recognise text,
 * derive the text hint, detect corners, then warp, else crop to the hint,
 * else keep the bitmap, and enhance whichever image that is.
 *
 * ML Kit, OpenCV and the enhancement filter are not modelled: the recognised
 * blocks, the contours OpenCV extracts and the bitmap the warp renders are
 * inputs. The crop is `cropBitmap` as written, with its `Int` subtractions;
 * a region it hands to `Bitmap.createBitmap` that does not lie inside the
 * bitmap is an outcome of its own, since what Android does with it is not
 * part of this model.
 */
module AndroidPipeline {
  import opened Int32
  import opened Options
  import opened TextBounds
  import opened FallbackCrop
  import opened QuadSearch
  import opened CornerOrder
  import opened BoundaryDetector
  import Downscale
  import opened FallbackChain

  /** What `processDocumentBitmap` does: return an image, or hand `createBitmap` a region outside the bitmap. */
  datatype Processed<Image> = Returned(output: Output<Image, Region>) | RegionOutsideBitmap(region: Region)

  /** The region `createBitmap(bitmap, left, top, width, height)` is asked for lies inside the bitmap and is not empty. */
  predicate RegionInBitmap(width: Int32, height: Int32, c: Region) {
    0 <= c.left && 0 <= c.top && c.width > 0 && c.height > 0 &&
    c.left + c.width <= width && c.top + c.height <= height
  }

  /**
   * `processDocumentBitmap`. `recognised` is `None` when the text detector
   * threw, which `runCatching { … }.getOrDefault(emptyList())` turns into no
   * blocks; `warp` is what `warpPerspectiveOpenCV` renders for given corners,
   * which it does whenever OpenCV is ready.
   */
  function ProcessDocumentBitmap<Image>(
    bitmap: Image, width: Int32, height: Int32,
    recognised: Option<seq<Rect>>,
    openCvReady: bool, edgeContours: seq<Contour>, thresholdContours: seq<Contour>,
    warp: CornerPoints -> Image): (r: Processed<Image>)
    requires width >= 1 && height >= 1
    ensures var blocks := recognised.GetOr([]);
      var textBounds := TextBoundsRect(blocks, width, height);
      var corners := DetectCorners(openCvReady, width, height, textBounds, edgeContours, thresholdContours);
      var crop := if textBounds.Some? then CropBitmapAsWritten(width, height, textBounds.value) else None;
      (r.RegionOutsideBitmap? <==> corners.None? && crop.Some? && !RegionInBitmap(width, height, crop.value)) &&
      (r.RegionOutsideBitmap? ==> r.region == crop.value) &&
      (r.Returned? ==>
        r.output.Enhanced? &&
        (r.output.from.Rectified? <==> corners.Some?) &&
        (r.output.from.Rectified? ==> r.output.from.warped == warp(corners.value)) &&
        (r.output.from.Cropped? <==> corners.None? && crop.Some?) &&
        (r.output.from.Cropped? ==> r.output.from.region == crop.value) &&
        (r.output.from.Original? ==> r.output.from.image == bitmap))
    ensures r.Returned? && r.output.Enhanced? && r.output.from.Cropped? ==>
      var c := r.output.from.region;
      RegionInBitmap(width, height, c) && c.width >= 2 && c.height >= 2
  {
    var blocks := recognised.GetOr([]);
    var textBounds := TextBoundsRect(blocks, width, height);
    var corners := DetectCorners(openCvReady, width, height, textBounds, edgeContours, thresholdContours);
    var candidate := if corners.Some? then Some(warp(corners.value)) else None;
    var crop := if textBounds.Some? then CropBitmapAsWritten(width, height, textBounds.value) else None;
    if candidate.Some? then Returned(Enhanced(Rectified(candidate.value)))
    else if crop.Some? then
      if RegionInBitmap(width, height, crop.value) then Returned(Enhanced(Cropped(crop.value)))
      else RegionOutsideBitmap(crop.value)
    else Returned(Enhanced(Original(bitmap)))
  }

  /**
   * For text blocks inside a bitmap Android can allocate (sides below 2^29),
   * the crop never wraps: the pipeline always returns an image, and a cropped
   * one is cropped to the intended `CropBitmap` region.
   */
  lemma AllocatableBitmapsCropAsIntended<Image>(
    bitmap: Image, width: Int32, height: Int32, recognised: Option<seq<Rect>>,
    openCvReady: bool, edgeContours: seq<Contour>, thresholdContours: seq<Contour>,
    warp: CornerPoints -> Image)
    requires 1 <= width < 0x2000_0000 && 1 <= height < 0x2000_0000
    requires var blocks := recognised.GetOr([]);
      forall i :: 0 <= i < |blocks| ==>
        0 <= blocks[i].left <= blocks[i].right <= width && 0 <= blocks[i].top <= blocks[i].bottom <= height
    ensures var r := ProcessDocumentBitmap(bitmap, width, height, recognised, openCvReady, edgeContours, thresholdContours, warp);
      var textBounds := TextBoundsRect(recognised.GetOr([]), width, height);
      r.Returned? &&
      (r.output.from.Cropped? ==> textBounds.Some? && CropBitmap(width, height, textBounds.value) == Some(r.output.from.region))
  {
    var blocks := recognised.GetOr([]);
    var textBounds := TextBoundsRect(blocks, width, height);
    if |blocks| > 0 {
      TextBoundsContainsBlocks(blocks, width, height);
      assert 0 <= blocks[0].right <= textBounds.value.right;
      assert 0 <= blocks[0].bottom <= textBounds.value.bottom;
      AsWrittenAgreesWithoutOverflow(width, height, textBounds.value);
    }
  }

  /**
   * A single block reaching to `Int.MAX_VALUE` in a 100 x 100 bitmap: the
   * padded right edge of the hint wraps to -2050109467, `cropBitmap`'s width
   * wraps to 2142232011, and the pipeline hands `createBitmap` a region far
   * outside the bitmap.
   */
  lemma WrappedHintEscapesBitmap<Image>(bitmap: Image, warp: CornerPoints -> Image)
    ensures ProcessDocumentBitmap(bitmap, 100, 100, Some([Rect(200000000, 0, MAX_VALUE, 100)]), false, [], [], warp)
         == RegionOutsideBitmap(Region(102625818, 0, 2142232011, 100))
  {
    WrappedHint();
    assert CropBitmapAsWritten(100, 100, Rect(102625818, 0, -2050109467, 100)) == Some(Region(102625818, 0, 2142232011, 100));
  }

  /** The hint for that block: its right edge `maxX + paddingX` wraps below zero. */
  lemma WrappedHint()
    ensures TextBoundsRect([Rect(200000000, 0, MAX_VALUE, 100)], 100, 100) == Some(Rect(102625818, 0, -2050109467, 100))
  {
    var blocks := [Rect(200000000, 0, MAX_VALUE, 100)];
    assert Union(blocks) == Bounds(200000000, 0, MAX_VALUE, 100) by {
      assert blocks[..0] == [];
    }
    assert Padding(1947483647) == 97374182;
    assert Padding(100) == 5;
  }

  /** A text detector that fails is treated exactly as one that found no text. */
  lemma DetectorFailureIsNoText<Image>(
    bitmap: Image, width: Int32, height: Int32,
    openCvReady: bool, edgeContours: seq<Contour>, thresholdContours: seq<Contour>,
    warp: CornerPoints -> Image)
    requires width >= 1 && height >= 1
    ensures ProcessDocumentBitmap(bitmap, width, height, None, openCvReady, edgeContours, thresholdContours, warp)
         == ProcessDocumentBitmap(bitmap, width, height, Some([]), openCvReady, edgeContours, thresholdContours, warp)
  {
  }

  /**
   * An image with no text, and no contour that either pass of either search
   * accepts, comes back as the original bitmap, enhanced.
   */
  lemma NothingFoundKeepsOriginal<Image>(
    bitmap: Image, width: Int32, height: Int32, recognised: Option<seq<Rect>>,
    openCvReady: bool, edgeContours: seq<Contour>, thresholdContours: seq<Contour>,
    warp: CornerPoints -> Image)
    requires width >= 1 && height >= 1
    requires recognised.None? || recognised == Some([])
    requires var minArea := MinArea(Downscale.DetectionFrame(width, height));
      forall c :: c in edgeContours + thresholdContours ==> !PassesPrimary(c, minArea, None) && !PassesFallback(c, minArea, None)
    ensures ProcessDocumentBitmap(bitmap, width, height, recognised, openCvReady, edgeContours, thresholdContours, warp)
         == Returned(Enhanced(Original(bitmap)))
  {
    var minArea := MinArea(Downscale.DetectionFrame(width, height));
    assert forall c :: c in edgeContours ==> c in edgeContours + thresholdContours;
    assert forall c :: c in thresholdContours ==> c in edgeContours + thresholdContours;
    PrimaryScanIsBest(edgeContours, |edgeContours|, minArea, None);
    FallbackScanIsBest(edgeContours, |edgeContours|, minArea, None);
    PrimaryScanIsBest(thresholdContours, |thresholdContours|, minArea, None);
    FallbackScanIsBest(thresholdContours, |thresholdContours|, minArea, None);
  }
}
