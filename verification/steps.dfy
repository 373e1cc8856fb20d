/**
  One call the front-ends make on an image, and the interpreter that runs a
  chain of such calls. A transform of either front-end is a plan: the list of
  calls it makes, in order, each on the previous call's result.
 */
module Steps {
  import opened Wrappers
  import opened Images
  import opened PixelRules

  datatype Step =
    | ToGray                                 // cv2.cvtColor(img, cv2.COLOR_BGR2GRAY)
    | ToHsv | FromHsv                        // COLOR_BGR2HSV / COLOR_HSV2BGR
    | ToHls | FromHls                        // COLOR_BGR2HLS / COLOR_HLS2BGR
    | HsvTweak                               // hue +10 mod 180, saturation +30 saturating, value kept
    | HlsTweak                               // hue +10 mod 180, saturation +30 saturating, lightness kept
    | Threshold(t: int)                      // cv2.threshold(img, t, 255, THRESH_BINARY)
    | TranslateBy(dx: int, dy: int)          // warpAffine by [[1,0,dx],[0,1,dy]]
    | RotateAboutCentre(degrees: int, scale: int)  // warpAffine about (cols // 2, rows // 2)
    | BoxBlur(k: int)                        // cv2.blur(img, (k, k))
    | GaussianBlur(k: int)                   // cv2.GaussianBlur(img, (k, k), 0)
    | Canny(low: int, high: int)             // cv2.Canny(img, low, high)
    | EqualizeHist                           // cv2.equalizeHist(img)
    | ScaleBy(n: int)                        // (img * (n / 255)).astype('uint8')
    | ScaleNormalised(n: int)                // ((img / 255) * n).astype('uint8')

  /** Plane layout of the HSV and HLS tweaks. */
  const HsvHue: nat := 0
  const HsvSat: nat := 1
  const HsvValue: nat := 2
  const HlsHue: nat := 0
  const HlsLight: nat := 1
  const HlsSat: nat := 2

  /** The result of one call. */
  function Apply(cv: OpenCv, s: Step, img: Image): Image
  {
    match s
    case ToGray => cv.bgrToGray(img)
    case ToHsv => cv.bgrToHsv(img)
    case FromHsv => cv.hsvToBgr(img)
    case ToHls => cv.bgrToHls(img)
    case FromHls => cv.hlsToBgr(img)
    case HsvTweak => ShiftHueBoostSaturation(img, HsvHue, HsvSat)
    case HlsTweak => ShiftHueBoostSaturation(img, HlsHue, HlsSat)
    case Threshold(t) => ThresholdImage(img, t)
    case TranslateBy(dx, dy) => cv.warpAffine(img, Translation(dx, dy))
    case RotateAboutCentre(deg, sc) => cv.warpAffine(img, Rotation(img.cols / 2, img.rows / 2, deg, sc))
    case BoxBlur(k) => cv.blur(img, k)
    case GaussianBlur(k) => cv.gaussianBlur(img, k)
    case Canny(lo, hi) => cv.canny(img, lo, hi)
    case EqualizeHist => cv.equalizeHist(img)
    case ScaleBy(n) => cv.scaleBy(img, n)
    case ScaleNormalised(n) => cv.scaleNormalised(img, n)
  }

  /** The calls of `plan`, each on the previous one's result, starting from `img`. */
  function Run(cv: OpenCv, plan: seq<Step>, img: Image): Image
    decreases |plan|
  {
    if |plan| == 0 then img else Run(cv, plan[1..], Apply(cv, plan[0], img))
  }

  /**
    The channel count a call yields from an input of `c` channels, or None
    when the call is not meant for such an input (a colour conversion of a
    gray image, Canny on a colour image, ...).
   */
  function StepChannels(s: Step, c: nat): Option<nat>
  {
    match s
    case ToGray => if c == 3 then Some(1) else None
    case ToHsv | FromHsv | ToHls | FromHls | HsvTweak | HlsTweak =>
      if c == 3 then Some(3) else None
    case Canny(_, _) | EqualizeHist => if c == 1 then Some(1) else None
    case Threshold(_) | TranslateBy(_, _) | RotateAboutCentre(_, _) | BoxBlur(_) | GaussianBlur(_)
       | ScaleBy(_) | ScaleNormalised(_) => Some(c)
  }

  /** The channel count a whole plan yields from `c` channels, or None if some call is ill-fed. */
  function PlanChannels(plan: seq<Step>, c: nat): Option<nat>
    decreases |plan|
  {
    if |plan| == 0 then Some(c)
    else match StepChannels(plan[0], c)
      case None => None
      case Some(c') => PlanChannels(plan[1..], c')
  }

  /** Under the OpenCV shape contracts, a well-fed call keeps the size and yields the predicted channels. */
  lemma ApplyShape(cv: OpenCv, s: Step, img: Image)
    requires Sound(cv) && img.Valid()
    requires StepChannels(s, img.chans).Some?
    ensures Apply(cv, s, img).HasShape(img.rows, img.cols, StepChannels(s, img.chans).value)
  {
    match s
    case ToGray =>
    case ToHsv =>
    case FromHsv =>
    case ToHls =>
    case FromHls =>
    case HsvTweak =>
    case HlsTweak =>
    case Threshold(_) =>
    case TranslateBy(_, _) =>
    case RotateAboutCentre(_, _) =>
    case BoxBlur(_) =>
    case GaussianBlur(_) =>
    case Canny(_, _) =>
    case EqualizeHist =>
    case ScaleBy(_) =>
    case ScaleNormalised(_) =>
  }

  /** Under the OpenCV shape contracts, a well-fed plan keeps the size and yields the predicted channels. */
  lemma {:induction false} RunShape(cv: OpenCv, plan: seq<Step>, img: Image)
    requires Sound(cv) && img.Valid()
    requires PlanChannels(plan, img.chans).Some?
    ensures Run(cv, plan, img).HasShape(img.rows, img.cols, PlanChannels(plan, img.chans).value)
    decreases |plan|
  {
    if |plan| > 0 {
      ApplyShape(cv, plan[0], img);
      RunShape(cv, plan[1..], Apply(cv, plan[0], img));
    }
  }

}
