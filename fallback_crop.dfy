/**
 * The fallback cropper of the Android pipeline (`cropBitmap`): clamp the text
 * hint to the bitmap and crop, or give up when the clamped region is at most
 * one pixel wide or high.
 */
module FallbackCrop {
  import opened Int32
  import opened Options
  import opened TextBounds

  /** The arguments given to `Bitmap.createBitmap(bitmap, left, top, width, height)`. */
  datatype Region = Region(left: Int32, top: Int32, width: Int32, height: Int32)

  /** `lo <= x < hi`: a pixel column or row inside a half-open span. */
  predicate InSpan(x: int, lo: int, hi: int) {
    lo <= x < hi
  }

  /**
   * `cropBitmap` exactly as written: `right - left` and `bottom - top` are
   * `Int` subtractions and wrap around.
   */
  function CropBitmapAsWritten(bitmapWidth: Int32, bitmapHeight: Int32, rect: Rect): Option<Region> {
    var left := CoerceAtLeast(rect.left, 0);
    var top := CoerceAtLeast(rect.top, 0);
    var right := CoerceAtMost(rect.right, bitmapWidth);
    var bottom := CoerceAtMost(rect.bottom, bitmapHeight);
    var width := CoerceAtLeast(Wrap(right - left), 1);
    var height := CoerceAtLeast(Wrap(bottom - top), 1);
    if width <= 1 || height <= 1 then None else Some(Region(left, top, width, height))
  }

  /**
   * A rect whose right edge is `Int.MIN_VALUE` makes `right - left` wrap to
   * `Int.MAX_VALUE`: the width test passes, and the region handed to
   * `createBitmap` runs far past the bitmap's right edge.
   */
  lemma AsWrittenOverflowEscapesBitmap()
    ensures var r := CropBitmapAsWritten(100, 100, Rect(1, 0, MIN_VALUE, 100));
      r == Some(Region(1, 0, MAX_VALUE, 100)) && r.value.left + r.value.width > 100
  {
  }

  /**
   * `cropBitmap` with the clamped extents computed exactly (as a `Long`
   * subtraction would), which is what the width test evidently intends.
   * Since `right <= bitmap.width` and `left >= 0`, the exact difference never
   * exceeds `Int.MAX_VALUE`, and every value below 1 is coerced to 1.
   */
  function CropBitmap(bitmapWidth: Int32, bitmapHeight: Int32, rect: Rect): (r: Option<Region>)
    requires bitmapWidth >= 0 && bitmapHeight >= 0
    ensures var clampedWidth := Min(rect.right, bitmapWidth) - Max(rect.left, 0);
      var clampedHeight := Min(rect.bottom, bitmapHeight) - Max(rect.top, 0);
      r.None? <==> clampedWidth <= 1 || clampedHeight <= 1
    ensures r.Some? ==>
      0 <= r.value.left && r.value.left + r.value.width <= bitmapWidth &&
      0 <= r.value.top && r.value.top + r.value.height <= bitmapHeight &&
      r.value.width >= 2 && r.value.height >= 2
    ensures r.Some? ==>
      (forall x :: InSpan(x, r.value.left, r.value.left + r.value.width) <==>
        InSpan(x, rect.left, rect.right) && InSpan(x, 0, bitmapWidth)) &&
      (forall y :: InSpan(y, r.value.top, r.value.top + r.value.height) <==>
        InSpan(y, rect.top, rect.bottom) && InSpan(y, 0, bitmapHeight))
  {
    var left := CoerceAtLeast(rect.left, 0);
    var top := CoerceAtLeast(rect.top, 0);
    var right := CoerceAtMost(rect.right, bitmapWidth);
    var bottom := CoerceAtMost(rect.bottom, bitmapHeight);
    var width := CoerceAtLeast(right - left, 1);
    var height := CoerceAtLeast(bottom - top, 1);
    if width <= 1 || height <= 1 then None else Some(Region(left, top, width, height))
  }

  /** Wherever the subtractions cannot wrap, the code as written and the corrected crop agree. */
  lemma AsWrittenAgreesWithoutOverflow(bitmapWidth: Int32, bitmapHeight: Int32, rect: Rect)
    requires bitmapWidth >= 0 && bitmapHeight >= 0
    requires rect.right >= 0 && rect.bottom >= 0
    ensures CropBitmapAsWritten(bitmapWidth, bitmapHeight, rect) == CropBitmap(bitmapWidth, bitmapHeight, rect)
  {
  }
}
