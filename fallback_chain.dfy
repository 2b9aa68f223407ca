/**
 * The tagged result of the document pipeline, shared by both platforms: the
 * image that goes on to contrast enhancement is the rectified one, else the
 * text-hint crop, else the original.
 */
module FallbackChain {

  /** Which image reached the enhancer; `Region` is the platform's crop rectangle. */
  datatype Source<Image, Region> = Rectified(warped: Image) | Cropped(region: Region) | Original(image: Image)

  /**
   * What the pipeline hands back: the enhanced rendering of `from`, or (on
   * iOS, when Core Image fails) the input image untouched.
   */
  datatype Output<Image, Region> = Enhanced(from: Source<Image, Region>) | Unchanged(input: Image)
}
