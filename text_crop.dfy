/**
 * The text crop of the iOS pipeline (`cropToTextBounds`): the union of the
 * recognised text-block frames, grown by 5% of its width and height on every
 * side, moved from the recogniser's top-left origin to Core Image's
 * bottom-left origin, and clipped to the image extent.
 *
 * The source folds the frames into four `CGFloat` accumulators that start at
 * `greatestFiniteMagnitude`, `greatestFiniteMagnitude`, `0` and `0`; `Union`
 * is that fold as a function and `CropToTextBounds` is the loop itself.
 */
module TextCrop {
  import opened Options
  import opened CoreGraphics
  import opened Plane

  /** `CGFloat.greatestFiniteMagnitude` on a 64-bit platform: (2 - 2^-52) * 2^1023. */
  const GREATEST_FINITE_MAGNITUDE: real :=
    179769313486231570814527423731704356798070567525844996598917476803157260780028538760589558632766878171540458953514382464234321326889464182768467546703537516986049910576551282076245490090389328944075868508455133942304583236903222948165808559332123348274797826204144723168738177180919299881250404026184124858368.0

  /** The four accumulators of the union loop. */
  datatype Bounds = Bounds(minX: real, minY: real, maxX: real, maxY: real)

  const START: Bounds := Bounds(GREATEST_FINITE_MAGNITUDE, GREATEST_FINITE_MAGNITUDE, 0.0, 0.0)

  /** One iteration of the union loop. */
  function Extend(b: Bounds, r: CGRect): Bounds {
    Bounds(Least(b.minX, MinX(r)), Least(b.minY, MinY(r)), Greatest(b.maxX, MaxX(r)), Greatest(b.maxY, MaxY(r)))
  }

  /** The accumulators after the loop has visited every frame of `frames`, in order. */
  function Union(frames: seq<CGRect>): Bounds
    decreases |frames|
  {
    if |frames| == 0 then START else Extend(Union(frames[..|frames| - 1]), frames[|frames| - 1])
  }

  /**
   * `rect.insetBy(dx: -paddingX, dy: -paddingY)` with the padding 5% of the
   * rectangle's width and height: the rectangle grows by that much on every
   * side and keeps its centre.
   */
  function Padded(r: CGRect): (p: CGRect)
    ensures p.width >= 0.0 && p.height >= 0.0
    ensures MinX(p) == MinX(r) - Width(r) * 0.05 && MaxX(p) == MaxX(r) + Width(r) * 0.05
    ensures MinY(p) == MinY(r) - Height(r) * 0.05 && MaxY(p) == MaxY(r) + Height(r) * 0.05
    ensures MinX(p) + MaxX(p) == MinX(r) + MaxX(r) && MinY(p) + MaxY(p) == MinY(r) + MaxY(r)
    ensures Within(r, p)
  {
    InsetBy(r, -(Width(r) * 0.05), -(Height(r) * 0.05)).value
  }

  /** The rectangle spanned by the accumulators. */
  function UnionRect(u: Bounds): CGRect {
    CGRect(u.minX, u.minY, u.maxX - u.minX, u.maxY - u.minY)
  }

  /** The padded union moved to Core Image's bottom-left origin in an image of the extent's height. */
  function CropCandidate(extent: CGRect, u: Bounds): CGRect {
    FlipY(Padded(UnionRect(u)), Height(extent))
  }

  /**
   * What follows the loop: clip the candidate to the extent. The crop holds
   * exactly the points of the extent that the candidate holds, and is `None`
   * exactly when that clip is null or has zero width or height.
   */
  function ClippedCrop(extent: CGRect, u: Bounds): (r: Option<CGRect>)
    ensures r.None? <==> IsEmpty(Intersection(CropCandidate(extent, u), extent))
    ensures r.Some? ==>
      Within(r.value, extent) && Within(r.value, CropCandidate(extent, u)) &&
      r.value.width > 0.0 && r.value.height > 0.0
    ensures r.Some? ==> forall px, py :: Contains(r.value, px, py) <==>
      Contains(extent, px, py) && Contains(CropCandidate(extent, u), px, py)
  {
    var clamped := Intersection(CropCandidate(extent, u), extent);
    if IsEmpty(clamped) then None else clamped
  }

  /**
   * The rectangle `cropToTextBounds` crops the image to, or `None` for its
   * `nil`: `nil` for no frames, for the sentinel case, and for an empty clip;
   * otherwise the part of the extent covered by the padded, flipped union.
   */
  function TextCropRect(extent: CGRect, frames: seq<CGRect>): (r: Option<CGRect>)
    ensures r.None? <==>
      |frames| == 0 ||
      (forall i :: 0 <= i < |frames| ==> MinX(frames[i]) >= GREATEST_FINITE_MAGNITUDE) ||
      IsEmpty(Intersection(CropCandidate(extent, Union(frames)), extent))
    ensures r.Some? ==>
      Within(r.value, extent) && Within(r.value, CropCandidate(extent, Union(frames))) &&
      r.value.width > 0.0 && r.value.height > 0.0
    ensures r.Some? ==> forall px, py :: Contains(r.value, px, py) <==>
      Contains(extent, px, py) && Contains(CropCandidate(extent, Union(frames)), px, py)
  {
    UnionSentinel(frames);
    if |frames| == 0 then None
    else
      var u := Union(frames);
      if u.minX == GREATEST_FINITE_MAGNITUDE then None else ClippedCrop(extent, u)
  }

  /** Every frame lies inside the union, and the right and bottom accumulators never drop below 0. */
  lemma {:induction false} UnionCoversFrames(frames: seq<CGRect>)
    ensures var u := Union(frames);
      0.0 <= u.maxX && 0.0 <= u.maxY &&
      forall i :: 0 <= i < |frames| ==>
        u.minX <= MinX(frames[i]) && u.minY <= MinY(frames[i]) &&
        MaxX(frames[i]) <= u.maxX && MaxY(frames[i]) <= u.maxY
    decreases |frames|
  {
    if |frames| > 0 {
      var init := frames[..|frames| - 1];
      UnionCoversFrames(init);
      forall i | 0 <= i < |frames| - 1 ensures frames[i] == init[i] { }
    }
  }

  /**
   * The left accumulator keeps its start value exactly when no frame starts
   * left of `greatestFiniteMagnitude`; this is the case the source's
   * `minX == CGFloat.greatestFiniteMagnitude` test catches.
   */
  lemma {:induction false} UnionSentinel(frames: seq<CGRect>)
    ensures Union(frames).minX <= GREATEST_FINITE_MAGNITUDE
    ensures Union(frames).minX == GREATEST_FINITE_MAGNITUDE <==>
      forall i :: 0 <= i < |frames| ==> MinX(frames[i]) >= GREATEST_FINITE_MAGNITUDE
    decreases |frames|
  {
    if |frames| > 0 {
      var init := frames[..|frames| - 1];
      UnionSentinel(init);
      forall i | 0 <= i < |frames| - 1 ensures frames[i] == init[i] { }
    }
  }

  /** When every frame lies in `[0, width] x [0, height]`, so does the union. */
  lemma {:induction false} UnionWithinImage(frames: seq<CGRect>, width: real, height: real)
    requires 0.0 <= width && 0.0 <= height
    requires forall i :: 0 <= i < |frames| ==> Within(frames[i], CGRect(0.0, 0.0, width, height))
    ensures var u := Union(frames);
      0.0 <= u.minX && 0.0 <= u.minY && u.maxX <= width && u.maxY <= height
    decreases |frames|
  {
    if |frames| > 0 {
      var init := frames[..|frames| - 1];
      forall i | 0 <= i < |frames| - 1 ensures frames[i] == init[i] { }
      UnionWithinImage(init, width, height);
      assert Within(frames[|frames| - 1], CGRect(0.0, 0.0, width, height));
    }
  }

  /** A flipped rectangle lies inside the flip of any rectangle that contains it. */
  lemma FlipKeepsWithin(inner: CGRect, outer: CGRect, imageHeight: real)
    requires Within(inner, outer)
    ensures Within(FlipY(inner, imageHeight), FlipY(outer, imageHeight))
  {
  }

  /** Any rectangle of non-negative extent inside both the padded, flipped union and the extent survives the clip. */
  lemma ClippedCropKeeps(extent: CGRect, u: Bounds, c: CGRect)
    requires MinX(c) <= MaxX(c) && MinY(c) <= MaxY(c)
    requires Within(c, CropCandidate(extent, u)) && Within(c, extent)
    ensures var r := ClippedCrop(extent, u); r.Some? ==> Within(c, r.value)
  {
  }

  /** A rectangle of positive width and height inside the padded, flipped union and the extent makes the clip non-empty. */
  lemma ClippedCropExists(extent: CGRect, u: Bounds, c: CGRect)
    requires MinX(c) < MaxX(c) && MinY(c) < MaxY(c)
    requires Within(c, CropCandidate(extent, u)) && Within(c, extent)
    ensures ClippedCrop(extent, u).Some?
  {
    var clamped := Intersection(CropCandidate(extent, u), extent);
    assert clamped.Some? && Within(c, clamped.value);
  }

  /**
   * For an image whose extent is `(0, 0, width, height)`, recognised frames
   * inside the image and at least one frame of positive size, the crop exists
   * and contains every frame, moved to the bottom-left origin.
   */
  lemma TextCropContainsFrames(frames: seq<CGRect>, k: int, width: real, height: real)
    requires 0.0 <= width <= GREATEST_FINITE_MAGNITUDE && 0.0 <= height
    requires forall i :: 0 <= i < |frames| ==> Within(frames[i], CGRect(0.0, 0.0, width, height))
    requires 0 <= k < |frames| && Width(frames[k]) > 0.0 && Height(frames[k]) > 0.0
    ensures var r := TextCropRect(CGRect(0.0, 0.0, width, height), frames);
      r.Some? && forall i :: 0 <= i < |frames| ==> Within(FlipY(frames[i], height), r.value)
  {
    var extent := CGRect(0.0, 0.0, width, height);
    UnionCoversFrames(frames);
    UnionSentinel(frames);
    var u := Union(frames);
    assert u.minX <= MinX(frames[k]) < MaxX(frames[k]) <= width;
    assert TextCropRect(extent, frames) == ClippedCrop(extent, u);
    FlippedFramesWithinCandidate(frames, width, height);
    ClippedCropExists(extent, u, FlipY(frames[k], height));
    forall i | 0 <= i < |frames|
      ensures Within(FlipY(frames[i], height), ClippedCrop(extent, u).value)
    {
      ClippedCropKeeps(extent, u, FlipY(frames[i], height));
    }
  }

  /** Frames inside the image, flipped, lie inside both the crop candidate and the extent. */
  lemma FlippedFramesWithinCandidate(frames: seq<CGRect>, width: real, height: real)
    requires 0.0 <= width && 0.0 <= height
    requires forall i :: 0 <= i < |frames| ==> Within(frames[i], CGRect(0.0, 0.0, width, height))
    ensures var extent := CGRect(0.0, 0.0, width, height);
      forall i :: 0 <= i < |frames| ==>
        Within(FlipY(frames[i], height), CropCandidate(extent, Union(frames))) &&
        Within(FlipY(frames[i], height), extent)
  {
    var extent := CGRect(0.0, 0.0, width, height);
    UnionCoversFrames(frames);
    var u := Union(frames);
    forall i | 0 <= i < |frames|
      ensures Within(FlipY(frames[i], height), CropCandidate(extent, u))
      ensures Within(FlipY(frames[i], height), extent)
    {
      assert Within(frames[i], UnionRect(u));
      FlipKeepsWithin(frames[i], Padded(UnionRect(u)), height);
    }
  }

  /** The loop of `cropToTextBounds`, proved to compute `TextCropRect`. */
  method CropToTextBounds(extent: CGRect, frames: seq<CGRect>) returns (r: Option<CGRect>)
    ensures r == TextCropRect(extent, frames)
  {
    if |frames| == 0 {
      return None;
    }
    var minX, minY, maxX, maxY := GREATEST_FINITE_MAGNITUDE, GREATEST_FINITE_MAGNITUDE, 0.0, 0.0;
    for i := 0 to |frames|
      invariant Bounds(minX, minY, maxX, maxY) == Union(frames[..i])
    {
      var rect := frames[i];
      minX := Least(minX, MinX(rect));
      minY := Least(minY, MinY(rect));
      maxX := Greatest(maxX, MaxX(rect));
      maxY := Greatest(maxY, MaxY(rect));
      assert frames[..i + 1][..i] == frames[..i];
      assert Union(frames[..i + 1]) == Extend(Union(frames[..i]), rect);
    }
    assert frames[..|frames|] == frames;
    if minX == GREATEST_FINITE_MAGNITUDE {
      return None;
    }
    r := ClippedCrop(extent, Bounds(minX, minY, maxX, maxY));
  }
}
