/**
 * The draw rectangle of the iOS PDF page (`createPdfData`): a copy of the
 * 595.2 x 841.8 page rectangle whose origin and size are overwritten along
 * the axis the image does not fill.
 */
module IosPageFit {
  import opened CoreGraphics
  import opened PageFit

  const PAGE_WIDTH: real := 595.2
  const PAGE_HEIGHT: real := 841.8

  /** The rectangle the image is drawn into, proved to be the aspect fit of the image on the page. */
  method PdfDrawRect(imageWidth: real, imageHeight: real) returns (drawRect: CGRect)
    requires imageWidth > 0.0 && imageHeight > 0.0
    ensures AspectFit(imageWidth, imageHeight, PAGE_WIDTH, PAGE_HEIGHT, drawRect.x, drawRect.y, drawRect.width, drawRect.height)
  {
    var pageRect := CGRect(0.0, 0.0, PAGE_WIDTH, PAGE_HEIGHT);
    var pageRatio := pageRect.width / pageRect.height;
    var imageRatio := imageWidth / imageHeight;
    drawRect := pageRect;
    RatioComparison(imageWidth, imageHeight, pageRect.width, pageRect.height);
    if imageRatio > pageRatio {
      var height := pageRect.width / imageRatio;
      WiderImageFits(imageWidth, imageHeight, pageRect.width, pageRect.height);
      drawRect := drawRect.(y := (pageRect.height - height) * 0.5);
      drawRect := drawRect.(height := height);
    } else {
      var width := pageRect.height * imageRatio;
      TallerImageFits(imageWidth, imageHeight, pageRect.width, pageRect.height);
      drawRect := drawRect.(x := (pageRect.width - width) * 0.5);
      drawRect := drawRect.(width := width);
    }
  }

  /** A 3:4 photo is relatively wider than the page (3/4 exceeds 595.2/841.8), so it spans the page width and is 793.6 points tall. */
  method PortraitPhotoOnIosPage() {
    var r := PdfDrawRect(3.0, 4.0);
    assert r.x == 0.0 && r.width == PAGE_WIDTH && r.height == 793.6;
  }
}
