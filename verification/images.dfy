/**
  Images as OpenCV hands them to the two front-ends: 8-bit unsigned samples,
  stored row-major with interleaved channels (BGR, HSV or HLS for three
  channels, a single plane for gray and edge maps), and the OpenCV routines
  the front-ends call on them.
 */
module Images {

  /** One `uint8` sample. */
  newtype byte = x: int | 0 <= x < 256

  datatype Image = Image(rows: nat, cols: nat, chans: nat, data: seq<byte>)
  {
    /** A non-empty image of one or three channels whose sample count matches its shape. */
    predicate Valid() {
      && rows > 0 && cols > 0
      && (chans == 1 || chans == 3)
      && |data| == rows * cols * chans
    }

    /** Valid, with the given height, width and channel count. */
    predicate HasShape(r: nat, c: nat, ch: nat) {
      Valid() && rows == r && cols == c && chans == ch
    }
  }

  /** The 2x3 matrix handed to `cv2.warpAffine`, described by how it was built. */
  datatype Affine =
    | Translation(dx: int, dy: int)
    | Rotation(cx: int, cy: int, degrees: int, scale: int)

  /**
    The OpenCV (and numpy float) routines the front-ends call. Their pixel
    arithmetic is not modelled: each is an arbitrary function, constrained
    only by the shape contracts of `Sound`.
   */
  datatype OpenCv = OpenCv(
    bgrToGray: Image -> Image,
    bgrToHsv: Image -> Image,
    hsvToBgr: Image -> Image,
    bgrToHls: Image -> Image,
    hlsToBgr: Image -> Image,
    warpAffine: (Image, Affine) -> Image,
    blur: (Image, int) -> Image,
    gaussianBlur: (Image, int) -> Image,
    canny: (Image, int, int) -> Image,
    equalizeHist: Image -> Image,
    // `(img * (n / 255)).astype('uint8')`
    scaleBy: (Image, int) -> Image,
    // `((img / 255) * n).astype('uint8')`
    scaleNormalised: (Image, int) -> Image
  )

  /**
    The shape contracts assumed of OpenCV: every routine keeps height and
    width; colour conversions take and give three channels, the gray
    conversion gives one; Canny and histogram equalisation take and give one;
    filters, warps and scalings keep the channel count.
   */
  ghost predicate Sound(cv: OpenCv) {
    && (forall img: Image {:trigger cv.bgrToGray(img)} :: img.Valid() && img.chans == 3 ==>
          cv.bgrToGray(img).HasShape(img.rows, img.cols, 1))
    && (forall img: Image {:trigger cv.bgrToHsv(img)} :: img.Valid() && img.chans == 3 ==>
          cv.bgrToHsv(img).HasShape(img.rows, img.cols, 3))
    && (forall img: Image {:trigger cv.hsvToBgr(img)} :: img.Valid() && img.chans == 3 ==>
          cv.hsvToBgr(img).HasShape(img.rows, img.cols, 3))
    && (forall img: Image {:trigger cv.bgrToHls(img)} :: img.Valid() && img.chans == 3 ==>
          cv.bgrToHls(img).HasShape(img.rows, img.cols, 3))
    && (forall img: Image {:trigger cv.hlsToBgr(img)} :: img.Valid() && img.chans == 3 ==>
          cv.hlsToBgr(img).HasShape(img.rows, img.cols, 3))
    && (forall img: Image, m: Affine {:trigger cv.warpAffine(img, m)} :: img.Valid() ==>
          cv.warpAffine(img, m).HasShape(img.rows, img.cols, img.chans))
    && (forall img: Image, k: int {:trigger cv.blur(img, k)} :: img.Valid() ==>
          cv.blur(img, k).HasShape(img.rows, img.cols, img.chans))
    && (forall img: Image, k: int {:trigger cv.gaussianBlur(img, k)} :: img.Valid() ==>
          cv.gaussianBlur(img, k).HasShape(img.rows, img.cols, img.chans))
    && (forall img: Image, lo: int, hi: int {:trigger cv.canny(img, lo, hi)} :: img.Valid() && img.chans == 1 ==>
          cv.canny(img, lo, hi).HasShape(img.rows, img.cols, 1))
    && (forall img: Image {:trigger cv.equalizeHist(img)} :: img.Valid() && img.chans == 1 ==>
          cv.equalizeHist(img).HasShape(img.rows, img.cols, 1))
    && (forall img: Image, n: int {:trigger cv.scaleBy(img, n)} :: img.Valid() ==>
          cv.scaleBy(img, n).HasShape(img.rows, img.cols, img.chans))
    && (forall img: Image, n: int {:trigger cv.scaleNormalised(img, n)} :: img.Valid() ==>
          cv.scaleNormalised(img, n).HasShape(img.rows, img.cols, img.chans))
  }

}
