/**
 * Placing the processed image on the PDF page (Kotlin `fitRect`, and the
 * draw rectangle computed in Swift's `createPdfData`): the image keeps its
 * aspect ratio, fills the page along the axis where it is relatively longer,
 * and is centred along the other.
 */
module PageFit {

  /**
   * The draw rectangle (`left`, `top`, `width`, `height`) for an
   * `imageWidth` x `imageHeight` image on a `pageWidth` x `pageHeight` page.
   * An image relatively wider than the page (image ratio strictly above the
   * page ratio, compared here cross-multiplied) spans the page width and is
   * centred vertically; any other spans the page height and is centred
   * horizontally. The aspect ratio is kept, and the rectangle lies on the page.
   */
  predicate AspectFit(imageWidth: real, imageHeight: real, pageWidth: real, pageHeight: real,
                      left: real, top: real, width: real, height: real)
  {
    width * imageHeight == height * imageWidth &&
    0.0 <= left && left + width <= pageWidth && 0.0 <= top && top + height <= pageHeight &&
    if imageWidth * pageHeight > pageWidth * imageHeight then
      left == 0.0 && width == pageWidth && top == pageHeight - (top + height)
    else
      top == 0.0 && height == pageHeight && left == pageWidth - (left + width)
  }

  /** At most one rectangle fits an image to a page: both platforms' placements are determined by `AspectFit`. */
  lemma AspectFitIsUnique(imageWidth: real, imageHeight: real, pageWidth: real, pageHeight: real,
                          l1: real, t1: real, w1: real, h1: real, l2: real, t2: real, w2: real, h2: real)
    requires imageWidth > 0.0 && imageHeight > 0.0
    requires AspectFit(imageWidth, imageHeight, pageWidth, pageHeight, l1, t1, w1, h1)
    requires AspectFit(imageWidth, imageHeight, pageWidth, pageHeight, l2, t2, w2, h2)
    ensures l1 == l2 && t1 == t2 && w1 == w2 && h1 == h2
  {
    if imageWidth * pageHeight > pageWidth * imageHeight {
      assert h1 * imageWidth == w1 * imageHeight == w2 * imageHeight == h2 * imageWidth;
      assert (h1 - h2) * imageWidth == 0.0;
    } else {
      assert w1 * imageHeight == h1 * imageWidth == h2 * imageWidth == w2 * imageHeight;
      assert (w1 - w2) * imageHeight == 0.0;
    }
  }

  /** `RectF(left, top, right, bottom)`. */
  datatype RectF = RectF(left: real, top: real, right: real, bottom: real)

  /** Kotlin `fitRect`, with `drawWidth`, `drawHeight`, `left` and `top` reassigned in place. */
  method FitRect(imageWidth: real, imageHeight: real, pageWidth: real, pageHeight: real) returns (r: RectF)
    requires imageWidth > 0.0 && imageHeight > 0.0 && pageWidth > 0.0 && pageHeight > 0.0
    ensures AspectFit(imageWidth, imageHeight, pageWidth, pageHeight, r.left, r.top, r.right - r.left, r.bottom - r.top)
  {
    var pageRatio := pageWidth / pageHeight;
    var imageRatio := imageWidth / imageHeight;
    var drawWidth := pageWidth;
    var drawHeight := pageHeight;
    var left := 0.0;
    var top := 0.0;
    RatioComparison(imageWidth, imageHeight, pageWidth, pageHeight);
    if imageRatio > pageRatio {
      drawWidth := pageWidth;
      drawHeight := pageWidth / imageRatio;
      WiderImageFits(imageWidth, imageHeight, pageWidth, pageHeight);
      top := (pageHeight - drawHeight) * 0.5;
    } else {
      drawHeight := pageHeight;
      drawWidth := pageHeight * imageRatio;
      TallerImageFits(imageWidth, imageHeight, pageWidth, pageHeight);
      left := (pageWidth - drawWidth) * 0.5;
    }
    r := RectF(left, top, left + drawWidth, top + drawHeight);
  }

  /** Comparing the ratios is comparing the cross products. */
  lemma RatioComparison(imageWidth: real, imageHeight: real, pageWidth: real, pageHeight: real)
    requires imageWidth > 0.0 && imageHeight > 0.0 && pageWidth > 0.0 && pageHeight > 0.0
    ensures imageWidth / imageHeight > pageWidth / pageHeight <==> imageWidth * pageHeight > pageWidth * imageHeight
  {
    var a, b := imageWidth / imageHeight, pageWidth / pageHeight;
    assert a * imageHeight == imageWidth && b * pageHeight == pageWidth;
    assert imageWidth * pageHeight == a * imageHeight * pageHeight;
    assert pageWidth * imageHeight == b * pageHeight * imageHeight;
  }

  /** A relatively wider image, scaled to the page width, keeps its ratio and is no taller than the page. */
  lemma WiderImageFits(imageWidth: real, imageHeight: real, pageWidth: real, pageHeight: real)
    requires imageWidth > 0.0 && imageHeight > 0.0 && pageWidth > 0.0 && pageHeight > 0.0
    requires imageWidth * pageHeight > pageWidth * imageHeight
    ensures var h := pageWidth / (imageWidth / imageHeight);
      0.0 < h < pageHeight && pageWidth * imageHeight == h * imageWidth
  {
    var ratio := imageWidth / imageHeight;
    var h := pageWidth / ratio;
    assert ratio * imageHeight == imageWidth;
    assert h * ratio == pageWidth;
    assert h * imageWidth == h * ratio * imageHeight;
    assert h * imageWidth < pageHeight * imageWidth;
  }

  /** A relatively taller image, scaled to the page height, keeps its ratio and is no wider than the page. */
  lemma TallerImageFits(imageWidth: real, imageHeight: real, pageWidth: real, pageHeight: real)
    requires imageWidth > 0.0 && imageHeight > 0.0 && pageWidth > 0.0 && pageHeight > 0.0
    requires imageWidth * pageHeight <= pageWidth * imageHeight
    ensures var w := pageHeight * (imageWidth / imageHeight);
      0.0 < w <= pageWidth && w * imageHeight == pageHeight * imageWidth
  {
    var ratio := imageWidth / imageHeight;
    assert ratio * imageHeight == imageWidth;
    var w := pageHeight * ratio;
    assert w * imageHeight == pageHeight * imageWidth;
    assert w * imageHeight <= pageWidth * imageHeight;
  }

  /** A square image on the 595 x 842 page spans the page width and is centred vertically. */
  method SquareImageOnAndroidPage() {
    var r := FitRect(1.0, 1.0, 595.0, 842.0);
    assert r.right - r.left == 595.0 && r.bottom - r.top == 595.0;
    assert r == RectF(0.0, 123.5, 595.0, 718.5);
  }
}
