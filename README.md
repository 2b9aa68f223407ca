# Document image pipeline: a Dafny model

This project models the native document-processing core of a Flutter
scanning app. On each platform, the core takes a photographed page and does
the following:

- recognises text blocks;
- looks for the page's four corners;
- rectifies the page when corners are found; otherwise crops to the padded
  text area; otherwise keeps the photo;
- enhances the result.

A separate routine places an image on a one-page PDF. There are two
implementations:

- **Android (Kotlin)**: ML Kit recognises the text. OpenCV finds the corners:
  the image is downscaled to at most 1280 px, contours come from Canny edges,
  and a search keeps the best convex 4-gon, with an adaptive-threshold retry
  and a minimum-area-rectangle fallback. The four points are ordered by x+y and
  x−y, the page is warped to a rectangle sized by its longer edges, and
  `cropBitmap` is the fallback crop.
- **iOS (Swift)**: ML Kit recognises the text, Vision detects the rectangle and
  Core Image corrects the perspective. `cropToTextBounds` pads the text union,
  moves it to Core Image's bottom-left origin and clips it to the image.

What the model covers:

- Kotlin `Int` arithmetic is modelled exactly (module `Int32`): two's-complement
  wrap-around of `+` and `-`, `coerceAtLeast`/`coerceAtMost`, and
  `Float.roundToInt()` as round-half-up with saturation. The Android pipeline
  uses `cropBitmap` as written, wrap-around included. When the region it asks
  `Bitmap.createBitmap` for does not lie inside the bitmap, the pipeline's
  result is `RegionOutsideBitmap`, an outcome of its own
  (`AndroidPipeline.ProcessDocumentBitmap`).
- Floating-point values are modelled as real numbers.
- The fallback chain on both platforms is a tagged result,
  `Rectified | Cropped | Original`, wrapped in `Enhanced | Unchanged`
  (module `FallbackChain`).
- The loops of the source are methods, proved to compute recursive fold
  functions. These are `computeTextBoundsRect`, the two passes of
  `findBestQuad`, and `cropToTextBounds`. Properties of the fold functions are
  proved as lemmas. `fitRect` and the iOS `createPdfData` have no loop: their
  draw rectangles are functions, proved to be the unique aspect fit
  `PageFit.AspectFit`.
- Vision's observation is an input, and so are OpenCV's per-contour measurements
  (approximation, areas, bounding-box ratio, convexity, centre containment,
  min-area rectangle). So are the images that the warp and perspective filter
  produce, and whether rendering succeeds.

Notes on the code:

- `findBestQuad` runs its min-area-rectangle fallback within the same call as
  the primary pass. As a result, the pass over the edge image runs its fallback
  before the adaptive-threshold contours are tried. The threshold retry happens
  only when both passes fail on the edge contours (`BoundaryDetector.SearchQuad`).
- The fallback pass replaces its best candidate when the new area is equal, so
  the latest of equal areas wins. In the primary pass the earliest wins.
- `computeTextBoundsRect` also returns `null` when every block's left edge is
  `Int.MAX_VALUE`, the sentinel its minimum starts from. `cropToTextBounds`
  likewise returns `nil` when no frame starts left of
  `greatestFiniteMagnitude`.
- The Android PDF page is 595 x 842 points and the iOS page is 595.2 x 841.8.
  Both are modelled with their own constants.
- On iOS, the crop is refused only when the clipped rectangle is null or has
  zero width or height. It has no "at least 2 pixels" rule like the one in
  Android's `cropBitmap`.

## Model

| member | source | states |
|---|---|---|
| Int32.Wrap | android/app/src/main/kotlin/com/example/codeway_image_processing/NativeImageProcessing.kt:427-436 | the 32-bit result of an `Int` `+`/`-` is congruent to the exact value modulo 2^32 and equals it when it fits |
| Int32.RoundToInt | android/app/src/main/kotlin/com/example/codeway_image_processing/NativeImageProcessing.kt:430-431 | `roundToInt` is within one half of its argument, and saturates at `Int.MIN_VALUE`/`Int.MAX_VALUE`; with the helper lemmas `RoundToIntAtMost`/`RoundToIntAtLeast`, rounding is monotone against integers |
| TextBounds.UnionCoversBlocks | android/app/src/main/kotlin/com/example/codeway_image_processing/NativeImageProcessing.kt:416-426 | after the fold every block lies inside `minX..maxX`, `minY..maxY`, and `maxX`, `maxY` are never below 0 |
| TextBounds.UnionAttained | android/app/src/main/kotlin/com/example/codeway_image_processing/NativeImageProcessing.kt:416-426 | each accumulator keeps its start value or equals the matching edge of some block |
| TextBounds.UnionSentinel | android/app/src/main/kotlin/com/example/codeway_image_processing/NativeImageProcessing.kt:427 | `minX == Int.MAX_VALUE` after the fold exactly when every block's left edge is `Int.MAX_VALUE` |
| TextBounds.TextBoundsWithinImage | android/app/src/main/kotlin/com/example/codeway_image_processing/NativeImageProcessing.kt:411-439 | the result is `null` exactly for no blocks or the sentinel case; otherwise its edges lie within the image |
| TextBounds.PaddingNonNegative | android/app/src/main/kotlin/com/example/codeway_image_processing/NativeImageProcessing.kt:428-431 | the 5% padding of an extent of at least 1 is between 0 and 5% of it plus one half |
| TextBounds.TextBoundsContainsBlocks | android/app/src/main/kotlin/com/example/codeway_image_processing/NativeImageProcessing.kt:411-439 | for blocks inside an allocatable image (sides below 2^29) the hint rectangle exists and contains every block |
| TextBounds.PaddedRectWithoutWrap | android/app/src/main/kotlin/com/example/codeway_image_processing/NativeImageProcessing.kt:427-438 | when the union lies inside an allocatable image, each edge is the union's edge moved out by `Padding`, between 0 and 5% of the extent (at least 1) plus one half, and clamped to the image |
| TextBounds.UnionInsideImage | android/app/src/main/kotlin/com/example/codeway_image_processing/NativeImageProcessing.kt:416-426 | blocks inside the image give a union inside the image |
| TextBounds.TextBoundsIsPaddedUnion | android/app/src/main/kotlin/com/example/codeway_image_processing/NativeImageProcessing.kt:411-439 | for blocks inside an allocatable image the hint is exactly the union of the blocks moved out by its padding on each side and clamped to the image, with no wrap-around |
| TextBounds.ComputeTextBoundsRect | android/app/src/main/kotlin/com/example/codeway_image_processing/NativeImageProcessing.kt:411-439 | the loop computes the fold `TextBoundsRect`; `null` exactly for no blocks or the sentinel; the result lies within the image |
| FallbackCrop.AsWrittenOverflowEscapesBitmap | android/app/src/main/kotlin/com/example/codeway_image_processing/NativeImageProcessing.kt:400-409 | as written, a right edge of `Int.MIN_VALUE` wraps the width to `Int.MAX_VALUE`, and the crop region runs past the bitmap |
| FallbackCrop.CropBitmap | android/app/src/main/kotlin/com/example/codeway_image_processing/NativeImageProcessing.kt:400-409 | `null` exactly when the clamped width or height is at most 1; otherwise the region lies in the bitmap, is at least 2 x 2, and covers exactly the pixels of the rect that are in the bitmap |
| FallbackCrop.AsWrittenAgreesWithoutOverflow | android/app/src/main/kotlin/com/example/codeway_image_processing/NativeImageProcessing.kt:400-409 | when the right and bottom edges are not negative, the code as written and the corrected crop agree |
| Downscale.ScaledSide | android/app/src/main/kotlin/com/example/codeway_image_processing/NativeImageProcessing.kt:162-164 | a scaled side is between 1 and 1280, is 1280 for the longer side, and is within one half of the exact scaled value |
| Downscale.ScaledSideBounds | android/app/src/main/kotlin/com/example/codeway_image_processing/NativeImageProcessing.kt:162-164 | scaling a side no longer than the longer side gives a positive value of at most 1280, and exactly 1280 for the longer side |
| Downscale.ResizeForDetection | android/app/src/main/kotlin/com/example/codeway_image_processing/NativeImageProcessing.kt:159-169 | `null` exactly when the longer side is at most 1280; otherwise both sides are 1..1280, the longer one is 1280, each side is within one half of `side * 1280 / longer` (or 1 when that is below one half), and each scale factor times the new side gives back the original side (helper `DivideBack`) |
| Downscale.DetectionFrame | android/app/src/main/kotlin/com/example/codeway_image_processing/NativeImageProcessing.kt:176-179 | the bitmap itself with factors 1 when its longer side is at most 1280, and otherwise exactly the `ResizeForDetection` result; in both cases the longer side is capped at 1280 and the factors map the frame back to the bitmap |
| Downscale.TextCentreInFrame | android/app/src/main/kotlin/com/example/codeway_image_processing/NativeImageProcessing.kt:200-205 | the projected centre of a hint inside the bitmap lies inside any frame whose factors map it back to the bitmap (helper `ProjectedCoordinate`, one axis) |
| Downscale.ScaleBackInBitmap | android/app/src/main/kotlin/com/example/codeway_image_processing/NativeImageProcessing.kt:333-334 | mapping a point of the working frame back by the scale factors lands inside the bitmap (helper `ScaleBackAxis`, one axis) |
| QuadSearch.PrimaryScan | android/app/src/main/kotlin/com/example/codeway_image_processing/NativeImageProcessing.kt:253-299 | the primary pass's choice, if any, is one of the contours seen so far |
| QuadSearch.FallbackScan | android/app/src/main/kotlin/com/example/codeway_image_processing/NativeImageProcessing.kt:303-323 | the fallback pass's choice, if any, is one of the contours seen so far |
| QuadSearch.PrimaryScanIsBest | android/app/src/main/kotlin/com/example/codeway_image_processing/NativeImageProcessing.kt:253-299 | the primary pass keeps a qualifying 4-gon of largest positive area, the earliest among equals, or none when no qualifying area is positive |
| QuadSearch.FallbackScanIsBest | android/app/src/main/kotlin/com/example/codeway_image_processing/NativeImageProcessing.kt:303-323 | the fallback pass keeps a qualifying rectangle of largest area, the latest among equals, or none when none qualifies |
| QuadSearch.FindBestQuad | android/app/src/main/kotlin/com/example/codeway_image_processing/NativeImageProcessing.kt:248-325 | the two loops return the best primary candidate; when there is none, the best fallback rectangle; when neither pass finds one, nothing |
| CornerOrder.MinByFrom | android/app/src/main/kotlin/com/example/codeway_image_processing/NativeImageProcessing.kt:339-342 | `minByOrNull` over a suffix returns the first index of least key |
| CornerOrder.MaxByFrom | android/app/src/main/kotlin/com/example/codeway_image_processing/NativeImageProcessing.kt:339-342 | `maxByOrNull` over a suffix returns the first index of greatest key |
| CornerOrder.MinBy | android/app/src/main/kotlin/com/example/codeway_image_processing/NativeImageProcessing.kt:339-342 | over the whole list: the first point of least key |
| CornerOrder.MaxBy | android/app/src/main/kotlin/com/example/codeway_image_processing/NativeImageProcessing.kt:339-342 | over the whole list: the first point of greatest key |
| CornerOrder.OrderCorners | android/app/src/main/kotlin/com/example/codeway_image_processing/NativeImageProcessing.kt:338-344 | top-left is the first point of least x+y, bottom-right the first of greatest x+y, top-right the first of greatest x−y, bottom-left the first of least x−y |
| CornerOrder.OrderCornersKeysInvariant | android/app/src/main/kotlin/com/example/codeway_image_processing/NativeImageProcessing.kt:338-344 | the keys of the four chosen corners do not depend on the order of the input points |
| CornerOrder.SameElements | android/app/src/main/kotlin/com/example/codeway_image_processing/NativeImageProcessing.kt:338-344 | every point of one ordering occurs in any permutation of it |
| CornerOrder.LeastKeysAgree | android/app/src/main/kotlin/com/example/codeway_image_processing/NativeImageProcessing.kt:339-342 | the least key is the same for any permutation of the points |
| CornerOrder.GreatestKeysAgree | android/app/src/main/kotlin/com/example/codeway_image_processing/NativeImageProcessing.kt:339-342 | the greatest key is the same for any permutation of the points |
| CornerOrder.OrderCornersPermutationInvariant | android/app/src/main/kotlin/com/example/codeway_image_processing/NativeImageProcessing.kt:338-344 | when each role has a single candidate point, every permutation of the points gives the same corners |
| CornerOrder.ToCornerPoints | android/app/src/main/kotlin/com/example/codeway_image_processing/NativeImageProcessing.kt:327-336 | `null` exactly when the quad does not have 4 points; otherwise the vertices are scaled back to the bitmap and top-left is the first of least x+y among them, top-right the first of greatest x−y, bottom-right the first of greatest x+y, bottom-left the first of least x−y |
| CornerOrder.ScaledVertices | android/app/src/main/kotlin/com/example/codeway_image_processing/NativeImageProcessing.kt:332-334 | each vertex of the quad is mapped back to the bitmap by the frame's scale factors, in order |
| Rectifier.RoundedSide | android/app/src/main/kotlin/com/example/codeway_image_processing/NativeImageProcessing.kt:350-354 | the target side is at least 1 and within one half of the longer edge, or 1 for edges under one half, or `Int.MAX_VALUE` when saturated |
| Rectifier.TargetSize | android/app/src/main/kotlin/com/example/codeway_image_processing/NativeImageProcessing.kt:346-354 | the warp size is at least 1 x 1, covers both edges of each pair up to rounding (or saturates), and each side is at most the larger of the longer edge plus one half and 1 |
| Rectifier.TargetCornersAreOrdered | android/app/src/main/kotlin/com/example/codeway_image_processing/NativeImageProcessing.kt:356-367 | whatever order the four destination corners come in, ordering them by x+y and x−y gives back `(0,0)`, `(w,0)`, `(w,h)`, `(0,h)` in role order |
| BoundaryDetector.SearchQuad | android/app/src/main/kotlin/com/example/codeway_image_processing/NativeImageProcessing.kt:207-232 | when `findBestQuad` on the edge contours finds a quad, the result is its points; otherwise it is the points `findBestQuad` finds on the threshold contours; empty exactly when both find nothing, and otherwise 4 points |
| BoundaryDetector.DetectCorners | android/app/src/main/kotlin/com/example/codeway_image_processing/NativeImageProcessing.kt:171-246 | no corners unless OpenCV is ready; when it is, the result is `toCornerPoints` of the quad the search finds in the detection frame, `null` exactly when neither search finds a quad |
| BoundaryDetector.EdgeSearchTakesPriority | android/app/src/main/kotlin/com/example/codeway_image_processing/NativeImageProcessing.kt:207-210 | when the edge contours yield a quad, the threshold contours do not matter |
| AndroidPipeline.ProcessDocumentBitmap | android/app/src/main/kotlin/com/example/codeway_image_processing/NativeImageProcessing.kt:130-137 | with the crop as written: a region outside the bitmap exactly when no corners are found and `cropBitmap` returns a region not inside the bitmap; otherwise always enhanced, rectified to the warp of the corners exactly when corners are found, cropped to `cropBitmap`'s region exactly when no corners are found and it returns one, else the original bitmap; a cropped region lies in the bitmap and is at least 2 x 2 |
| AndroidPipeline.AllocatableBitmapsCropAsIntended | android/app/src/main/kotlin/com/example/codeway_image_processing/NativeImageProcessing.kt:130-137 | for blocks inside a bitmap with sides below 2^29, the pipeline always returns an image, and a cropped one is cropped to the corrected `CropBitmap` region |
| AndroidPipeline.WrappedHintEscapesBitmap | android/app/src/main/kotlin/com/example/codeway_image_processing/NativeImageProcessing.kt:130-137 | one block reaching `Int.MAX_VALUE` in a 100 x 100 bitmap makes the pipeline ask `createBitmap` for the region `(102625818, 0, 2142232011, 100)`, far outside the bitmap |
| AndroidPipeline.WrappedHint | android/app/src/main/kotlin/com/example/codeway_image_processing/NativeImageProcessing.kt:427-438 | for that block the hint's padded right edge wraps to -2050109467 |
| AndroidPipeline.DetectorFailureIsNoText | android/app/src/main/kotlin/com/example/codeway_image_processing/NativeImageProcessing.kt:131 | a text detector that throws is the same as one that finds no text |
| AndroidPipeline.NothingFoundKeepsOriginal | android/app/src/main/kotlin/com/example/codeway_image_processing/NativeImageProcessing.kt:130-137 | no text and no contour accepted by either pass gives back the original bitmap, enhanced |
| PageFit.AspectFitIsUnique | android/app/src/main/kotlin/com/example/codeway_image_processing/NativeImageProcessing.kt:486-509 | at most one rectangle fits an image to a page with the aspect kept and centred on the slack axis |
| PageFit.FitRect | android/app/src/main/kotlin/com/example/codeway_image_processing/NativeImageProcessing.kt:486-509 | the draw rectangle keeps the aspect ratio, lies on the page, fills the width and is centred vertically when the image is relatively wider, and otherwise fills the height and is centred horizontally; the `imageRatio > pageRatio` test is the cross-multiplied comparison (helper `RatioComparison`) |
| PageFit.WiderImageFits | android/app/src/main/kotlin/com/example/codeway_image_processing/NativeImageProcessing.kt:499-502 | a relatively wider image at page width is positive, shorter than the page, and keeps its ratio |
| PageFit.TallerImageFits | android/app/src/main/kotlin/com/example/codeway_image_processing/NativeImageProcessing.kt:503-506 | any other image at page height is positive, no wider than the page, and keeps its ratio |
| CoreGraphics.InsetBy | ios/Runner/NativeImageProcessing.swift:223 | `insetBy` is null exactly when an extent would become negative; otherwise each edge moves in by the inset |
| CoreGraphics.Intersection | ios/Runner/NativeImageProcessing.swift:232 | a point is in the intersection exactly when it is in both rectangles; any non-degenerate rectangle inside both lies inside the intersection |
| CoreGraphics.FlipY | ios/Runner/NativeImageProcessing.swift:225-231 | the converted rectangle holds a point exactly when the original holds its mirror image in the image height |
| TextCrop.Padded | ios/Runner/NativeImageProcessing.swift:220-223 | the padded union grows by 5% of its width and height on each side, keeps its centre, and contains the union |
| TextCrop.ClippedCrop | ios/Runner/NativeImageProcessing.swift:220-234 | `nil` exactly when the flipped padded union does not meet the extent; otherwise the crop lies within both the extent and that candidate, has positive size, and holds a point exactly when both do |
| TextCrop.TextCropRect | ios/Runner/NativeImageProcessing.swift:204-235 | `nil` exactly for no frames, the sentinel case, or a flipped padded union that misses the extent; otherwise the crop is the intersection of the extent and the flipped padded union of the frames: a point is in it exactly when it is in both, and it has positive size |
| TextCrop.UnionCoversFrames | ios/Runner/NativeImageProcessing.swift:211-217 | after the fold every frame lies inside the union, and `maxX`, `maxY` are never below 0 |
| TextCrop.UnionSentinel | ios/Runner/NativeImageProcessing.swift:219 | `minX` keeps `greatestFiniteMagnitude` exactly when no frame starts left of it |
| TextCrop.UnionWithinImage | ios/Runner/NativeImageProcessing.swift:211-217 | frames inside the image give a union inside the image |
| TextCrop.FlipKeepsWithin | ios/Runner/NativeImageProcessing.swift:225-231 | converting to the bottom-left origin preserves containment |
| TextCrop.ClippedCropKeeps | ios/Runner/NativeImageProcessing.swift:232-234 | a rectangle inside the converted padded union and the extent is inside the crop |
| TextCrop.ClippedCropExists | ios/Runner/NativeImageProcessing.swift:232-234 | a rectangle of positive size inside both makes the crop exist |
| TextCrop.TextCropContainsFrames | ios/Runner/NativeImageProcessing.swift:204-235 | for frames inside the image, at least one of them of positive size, the crop exists and contains every frame converted to the bottom-left origin |
| TextCrop.FlippedFramesWithinCandidate | ios/Runner/NativeImageProcessing.swift:220-231 | every frame inside the image, flipped to the bottom-left origin, lies inside the flipped padded union |
| TextCrop.CropToTextBounds | ios/Runner/NativeImageProcessing.swift:204-235 | the loop computes `TextCropRect` |
| IosPipeline.Denormalise | ios/Runner/NativeImageProcessing.swift:183-193 | a normalised coordinate lands on the image side exactly when it is in `[0, 1]`, and dividing by the side gives it back (helper `ScaleWithin`) |
| IosPipeline.DenormalisePoint | ios/Runner/NativeImageProcessing.swift:184-193 | dividing the pixel corner by the image size gives back the normalised corner, and the corner lands in the image exactly when it is in the unit square |
| IosPipeline.ToPixelCorners | ios/Runner/NativeImageProcessing.swift:183-193 | each pixel corner is the observed corner of the same role scaled by the extent size (dividing gives it back), and lies inside the image when the observed one is in the unit square |
| IosPipeline.ProcessDocumentImage | ios/Runner/NativeImageProcessing.swift:143-160 | unchanged exactly when there is no Core Image image or rendering fails; otherwise rectified exactly when a rectangle is observed and corrected, else cropped to `TextCropRect` (within the extent, positive size) when there is a crop, else the original |
| IosPageFit.PdfDrawRect | ios/Runner/NativeImageProcessing.swift:252-275 | the draw rectangle on the 595.2 x 841.8 page is the aspect fit of the image |

## Left out

- Decoding, EXIF orientation and `UIImage` normalisation, JPEG and PDF encoding, and the method-channel handlers with their threads are I/O. A process-document call returns its input bytes when decoding fails; the model starts from a decoded image.
- ML Kit, OpenCV (blur, Canny, morphology, contours, `approxPolyDP`, `contourArea`, `pointPolygonTest`, `minAreaRect`, `warpPerspective`), Vision and Core Image are foreign code. Their outputs are inputs of the model.
- `enhanceContrast` is a per-pixel colour matrix. The model records only that the selected image is enhanced. On Android it is applied unconditionally. On iOS it returns its input unchanged when the `CIColorControls` filter is missing or yields no output (ios/Runner/NativeImageProcessing.swift:238, 243); the model's `Enhanced` tag covers both cases.
- `distance` uses a square root. `Rectifier.TargetSize` takes the four edge lengths as inputs, not the corner points.
- The rectangle request's thresholds (`detectDocumentRectangle`: one observation, confidence 0.6, aspect 0.3, size 0.2, tolerance 45) configure Vision and are not modelled.
- `Float`, `Double` and `CGFloat` are modelled as real numbers: rounding error, infinities and NaN are not modelled.
- TextBounds.TextBoundsContainsBlocks: assumes each image side is below 2^29, the range in which an ARGB bitmap's row size fits an `Int`. Beyond it, the padded sums may wrap. The same bound is assumed by `TextBounds.TextBoundsIsPaddedUnion` and `AndroidPipeline.AllocatableBitmapsCropAsIntended`.
- CornerOrder.OrderCornersPermutationInvariant: proved only when each corner role has a single candidate point. With ties the source returns the first of them, so the corners can depend on the input order; `CornerOrder.OrderCornersKeysInvariant` shows their keys do not.
- Downscale.TextCentreInFrame: assumes the hint lies inside the bitmap with sides below 2^29, so that `left + right` cannot wrap.

## Findings

| source | as written | input that shows it | evidently intended | confidence | as-written member | corrected member |
|---|---|---|---|---|---|---|
| android/app/src/main/kotlin/com/example/codeway_image_processing/NativeImageProcessing.kt:404-406 | `(right - left).coerceAtLeast(1)` and `(bottom - top).coerceAtLeast(1)` are `Int` subtractions that can wrap, and the hint from `computeTextBoundsRect` (lines 427-438) can itself wrap | bitmap 100 x 100, one text block `(200000000, 0, Int.MAX_VALUE, 100)`: the hint's right edge wraps to -2050109467, the crop width wraps to 2142232011, the `<= 1` test passes and `createBitmap` is asked for a region far past the bitmap | a clamped extent below 2 refuses the crop | low: needs a text block far outside the bitmap, which ML Kit is not expected to report; for blocks inside a bitmap with sides below 2^29 the code agrees with the corrected crop (`AndroidPipeline.AllocatableBitmapsCropAsIntended`); not executed | FallbackCrop.CropBitmapAsWritten, FallbackCrop.AsWrittenOverflowEscapesBitmap, AndroidPipeline.WrappedHintEscapesBitmap | FallbackCrop.CropBitmap |
