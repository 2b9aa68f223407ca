/**
 * The iOS document pipeline (`processDocumentImage`): recognise text, detect
 * the document rectangle, then correct its perspective, else crop to the
 * text, else keep the image, and enhance and render whichever image that is.
 *
 * ML Kit, Vision and Core Image are not modelled: the recognised frames, the
 * rectangle observation, the image the perspective filter produces for given
 * corners and whether each Core Image step succeeds are inputs.
 */
module IosPipeline {
  import opened Options
  import opened CoreGraphics
  import opened TextCrop
  import opened FallbackChain

  /**
   * A Vision rectangle observation: its four corners, each coordinate
   * normalised to `[0, 1]` of the image, with the origin at the bottom left.
   */
  datatype Observation = Observation(topLeft: CGPoint, topRight: CGPoint, bottomLeft: CGPoint, bottomRight: CGPoint)

  /** True when the point lies in the unit square. */
  predicate Normalised(p: CGPoint) {
    0.0 <= p.x <= 1.0 && 0.0 <= p.y <= 1.0
  }

  /**
   * One normalised coordinate in pixels: scaled by the side of the image. A
   * coordinate in `[0, 1]` lands on the side, any other does not, and
   * dividing by the side gives the coordinate back.
   */
  function Denormalise(v: real, side: real): (s: real)
    requires side > 0.0
    ensures 0.0 <= v <= 1.0 <==> 0.0 <= s <= side
    ensures s / side == v
  {
    ScaleWithin(v, side);
    v * side
  }

  /** The facts behind `Denormalise`, one case of `v` at a time. */
  lemma ScaleWithin(v: real, side: real)
    requires side > 0.0
    ensures 0.0 <= v <= 1.0 <==> 0.0 <= v * side <= side
  {
    if v < 0.0 {
      assert v * side < 0.0;
    } else if v > 1.0 {
      assert (v - 1.0) * side > 0.0;
    } else {
      assert (1.0 - v) * side >= 0.0;
    }
  }

  /** `q` is the normalised point `p` in pixels of a `width` x `height` image: dividing by the size gives `p` back. */
  predicate ScaledFrom(q: CGPoint, p: CGPoint, width: real, height: real)
    requires width > 0.0 && height > 0.0
  {
    q.x / width == p.x && q.y / height == p.y
  }

  /** A corner in pixels, `CGPoint(x: p.x * width, y: p.y * height)`. */
  function DenormalisePoint(p: CGPoint, width: real, height: real): (q: CGPoint)
    requires width > 0.0 && height > 0.0
    ensures ScaledFrom(q, p, width, height)
    ensures Normalised(p) <==> 0.0 <= q.x <= width && 0.0 <= q.y <= height
  {
    CGPoint(Denormalise(p.x, width), Denormalise(p.y, height))
  }

  /** The pixel corners `applyPerspectiveCorrection` hands to `CIPerspectiveCorrection`. */
  datatype PixelCorners = PixelCorners(topLeft: CGPoint, topRight: CGPoint, bottomLeft: CGPoint, bottomRight: CGPoint)

  /** Every corner of the observation scaled by the size of the image extent, each keeping its role. */
  function ToPixelCorners(o: Observation, extent: CGRect): (c: PixelCorners)
    requires Width(extent) > 0.0 && Height(extent) > 0.0
    ensures var w, h := Width(extent), Height(extent);
      ScaledFrom(c.topLeft, o.topLeft, w, h) && ScaledFrom(c.topRight, o.topRight, w, h) &&
      ScaledFrom(c.bottomLeft, o.bottomLeft, w, h) && ScaledFrom(c.bottomRight, o.bottomRight, w, h)
    ensures Normalised(o.topLeft) ==> 0.0 <= c.topLeft.x <= Width(extent) && 0.0 <= c.topLeft.y <= Height(extent)
    ensures Normalised(o.topRight) ==> 0.0 <= c.topRight.x <= Width(extent) && 0.0 <= c.topRight.y <= Height(extent)
    ensures Normalised(o.bottomLeft) ==> 0.0 <= c.bottomLeft.x <= Width(extent) && 0.0 <= c.bottomLeft.y <= Height(extent)
    ensures Normalised(o.bottomRight) ==> 0.0 <= c.bottomRight.x <= Width(extent) && 0.0 <= c.bottomRight.y <= Height(extent)
  {
    var w, h := Width(extent), Height(extent);
    PixelCorners(DenormalisePoint(o.topLeft, w, h), DenormalisePoint(o.topRight, w, h),
                 DenormalisePoint(o.bottomLeft, w, h), DenormalisePoint(o.bottomRight, w, h))
  }

  /**
   * `processDocumentImage`. `ciImage` is `None` when `CIImage(image:)`
   * fails, and otherwise the extent of the image it made; `recognised` is
   * `None` when the text detector threw, which `(try? …) ?? []` turns into no
   * frames; `correct` is what `applyPerspectiveCorrection` produces for given
   * corners (`None` when the filter is missing or yields no image); and
   * `renders` says whether `renderUIImage` turns the enhanced image into a
   * `UIImage`.
   */
  method ProcessDocumentImage<Image>(
    image: Image, ciImage: Option<CGRect>,
    recognised: Option<seq<CGRect>>, rectangle: Option<Observation>,
    correct: PixelCorners -> Option<Image>, renders: bool) returns (r: Output<Image, CGRect>)
    requires ciImage.Some? ==> Width(ciImage.value) > 0.0 && Height(ciImage.value) > 0.0
    ensures r.Unchanged? <==> ciImage.None? || !renders
    ensures r.Unchanged? ==> r.input == image
    ensures r.Enhanced? ==>
      var extent := ciImage.value;
      var corrected := if rectangle.Some? then correct(ToPixelCorners(rectangle.value, extent)) else None;
      var crop := TextCropRect(extent, recognised.GetOr([]));
      (r.from.Rectified? <==> corrected.Some?) &&
      (r.from.Rectified? ==> r.from.warped == corrected.value) &&
      (r.from.Cropped? <==> corrected.None? && crop.Some?) &&
      (r.from.Cropped? ==> r.from.region == crop.value) &&
      (r.from.Original? ==> r.from.image == image)
    ensures r.Enhanced? && r.from.Cropped? ==>
      Within(r.from.region, ciImage.value) && r.from.region.width > 0.0 && r.from.region.height > 0.0
  {
    if ciImage.None? {
      return Unchanged(image);
    }
    var extent := ciImage.value;
    var blocks := recognised.GetOr([]);
    var workingImage: Source<Image, CGRect> := Original(image);
    var corrected := if rectangle.Some? then correct(ToPixelCorners(rectangle.value, extent)) else None;
    if corrected.Some? {
      workingImage := Rectified(corrected.value);
    } else {
      var cropped := CropToTextBounds(extent, blocks);
      if cropped.Some? {
        workingImage := Cropped(cropped.value);
      }
    }
    if !renders {
      return Unchanged(image);
    }
    r := Enhanced(workingImage);
  }
}
