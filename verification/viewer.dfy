/**
  The single-shot viewer: the twelve task labels of its drop-down, the
  transform each runs on a fresh copy of the loaded image, the odd-kernel
  normalisation, the choice of parameter slider, and the Process button and
  slider callbacks as transitions of the viewer's state.
 */
module Viewer {
  import opened Wrappers
  import opened Images
  import opened PixelRules
  import opened Steps

  datatype Task =
    | LoadAndDisplay | Grayscale | HsvShift | HlsShift | Binarize
    | Translate | Rotate | MeanFilter | GaussianFilter | CannyEdges
    | ReduceIntensity | HistogramEqualization

  /** The drop-down entry of each task. */
  function Label(t: Task): string
  {
    match t
    case LoadAndDisplay => "Q1.1: Load and Display Image"
    case Grayscale => "Q1.2: Convert to Grayscale"
    case HsvShift => "Q1.2.1: HSV Conversion"
    case HlsShift => "Q1.2.2: HSL Conversion"
    case Binarize => "Q1.3: Binarize Image"
    case Translate => "Q2.1: Translate Image"
    case Rotate => "Q2.2: Rotate Image"
    case MeanFilter => "Q3.1: Mean Filter"
    case GaussianFilter => "Q3.2: Gaussian Filter"
    case CannyEdges => "Q3.3: Canny Edge Detection"
    case ReduceIntensity => "Q4.3: Reduce Intensity Range"
    case HistogramEqualization => "Q4.4: Histogram Equalization"
  }

  /** The branch of the Process handler an entry selects, if any. */
  function ParseTask(entry: string): (r: Option<Task>)
    ensures r.Some? ==> Label(r.value) == entry
    ensures r.None? ==> forall t :: Label(t) != entry
  {
    if entry == Label(LoadAndDisplay) then Some(LoadAndDisplay)
    else if entry == Label(Grayscale) then Some(Grayscale)
    else if entry == Label(Binarize) then Some(Binarize)
    else if entry == Label(Translate) then Some(Translate)
    else if entry == Label(Rotate) then Some(Rotate)
    else if entry == Label(MeanFilter) then Some(MeanFilter)
    else if entry == Label(GaussianFilter) then Some(GaussianFilter)
    else if entry == Label(CannyEdges) then Some(CannyEdges)
    else if entry == Label(ReduceIntensity) then Some(ReduceIntensity)
    else if entry == Label(HistogramEqualization) then Some(HistogramEqualization)
    else if entry == Label(HsvShift) then Some(HsvShift)
    else if entry == Label(HlsShift) then Some(HlsShift)
    else None
  }

  /** Every task is reached by its own label. */
  lemma ParseLabel(t: Task)
    ensures ParseTask(Label(t)) == Some(t)
  {
  }

  /** Bounds of the kernel-size slider. */
  const KernelMin: int := 3
  const KernelMax: int := 31

  /** Starting positions of the threshold and kernel-size sliders. */
  const DefaultThreshold: int := 128
  const DefaultKernel: int := 5

  /** An even kernel size is bumped to the next odd one; an odd one is kept. */
  function EffectiveKernel(k: int): (r: int)
    ensures r % 2 == 1
    ensures k <= r <= k + 1
    ensures k % 2 == 1 ==> r == k
    ensures KernelMin <= k <= KernelMax ==> KernelMin <= r <= KernelMax
  {
    if k % 2 == 0 then k + 1 else k
  }

  /** Fixed parameters of the geometric tasks. */
  const ShiftX: int := 50
  const ShiftY: int := 30
  const RotationDegrees: int := 45
  const RotationScale: int := 1

  /** The calls each task makes on the fresh copy, given the threshold and the effective kernel size. */
  function TaskPlan(t: Task, threshold: int, kernel: int): seq<Step>
  {
    match t
    case LoadAndDisplay => []
    case Grayscale => [ToGray]
    case Binarize => [ToGray, Threshold(threshold)]
    case Translate => [TranslateBy(ShiftX, ShiftY)]
    case Rotate => [RotateAboutCentre(RotationDegrees, RotationScale)]
    case MeanFilter => [BoxBlur(kernel)]
    case GaussianFilter => [GaussianBlur(kernel)]
    case CannyEdges => [ToGray, Canny(threshold, threshold * 2)]
    case ReduceIntensity => [ScaleBy(threshold)]
    case HistogramEqualization => [ToGray, EqualizeHist]
    case HsvShift => [ToHsv, HsvTweak, FromHsv]
    case HlsShift => [ToHls, HlsTweak, FromHls]
  }

  /** What the two sliders hold when Process runs. */
  datatype Controls = Controls(task: string, threshold: int, kernel: int)

  /**
    The plan Process runs for a task: kernel-size normalisation first, then
    the task's calls. Every filter kernel is odd and never below the slider
    value; Canny always gets (threshold, 2 * threshold); the binary threshold
    is the slider value itself.
   */
  function DispatchPlan(t: Task, c: Controls): (plan: seq<Step>)
    ensures forall s :: s in plan && (s.BoxBlur? || s.GaussianBlur?) ==>
              s.k % 2 == 1 && c.kernel <= s.k <= c.kernel + 1
    ensures forall s :: s in plan && (s.BoxBlur? || s.GaussianBlur?) && KernelMin <= c.kernel <= KernelMax ==>
              KernelMin <= s.k <= KernelMax
    ensures forall s :: s in plan && s.Canny? ==> s.low == c.threshold && s.high == 2 * s.low
    ensures forall s :: s in plan && s.Threshold? ==> s.t == c.threshold
  {
    TaskPlan(t, c.threshold, EffectiveKernel(c.kernel))
  }

  /** Channel count of the task's output: one for the tasks that convert to gray first (assignment1.py:143-178). */
  function OutputChannels(t: Task): nat
  {
    if t in {Grayscale, Binarize, CannyEdges, HistogramEqualization} then 1 else 3
  }

  // ---------------------------------------------------------------------
  // Slider selection

  datatype Sliders = Sliders(threshold: bool, kernel: bool)

  /** The sliders shown after choosing `entry` in the drop-down. */
  function SlidersFor(entry: string): (r: Sliders)
    ensures !(r.threshold && r.kernel)
    ensures ParseTask(entry).None? ==> r == Sliders(false, false)
  {
    if entry in [Label(Binarize), Label(CannyEdges), Label(ReduceIntensity)] then Sliders(true, false)
    else if entry in [Label(MeanFilter), Label(GaussianFilter)] then Sliders(false, true)
    else Sliders(false, false)
  }

  /** The task's calls change with the threshold slider. */
  ghost predicate ReadsThreshold(t: Task)
  {
    exists a: int, b: int, k: int :: TaskPlan(t, a, EffectiveKernel(k)) != TaskPlan(t, b, EffectiveKernel(k))
  }

  /** The task's calls change with the kernel slider. */
  ghost predicate ReadsKernel(t: Task)
  {
    exists th: int, a: int, b: int :: TaskPlan(t, th, EffectiveKernel(a)) != TaskPlan(t, th, EffectiveKernel(b))
  }

  /** Tasks that read the threshold slider, and tasks that read the kernel slider. */
  const ThresholdTasks: set<Task> := {Binarize, CannyEdges, ReduceIntensity}
  const KernelTasks: set<Task> := {MeanFilter, GaussianFilter}

  lemma SlidersOfTask(t: Task)
    ensures SlidersFor(Label(t)) == Sliders(t in ThresholdTasks, t in KernelTasks)
  {
    match t
    case Binarize =>
    case CannyEdges =>
    case ReduceIntensity =>
    case MeanFilter =>
    case GaussianFilter =>
    case _ =>
  }

  lemma ThresholdReaders(t: Task)
    ensures ReadsThreshold(t) <==> t in ThresholdTasks
  {
    if t in ThresholdTasks {
      assert TaskPlan(t, 0, EffectiveKernel(3)) != TaskPlan(t, 1, EffectiveKernel(3));
    } else {
      forall a: int, b: int, k: int
        ensures TaskPlan(t, a, EffectiveKernel(k)) == TaskPlan(t, b, EffectiveKernel(k))
      {
      }
    }
  }

  lemma KernelReaders(t: Task)
    ensures ReadsKernel(t) <==> t in KernelTasks
  {
    if t in KernelTasks {
      assert TaskPlan(t, 0, EffectiveKernel(3)) != TaskPlan(t, 0, EffectiveKernel(5));
    } else {
      forall th: int, a: int, b: int
        ensures TaskPlan(t, th, EffectiveKernel(a)) == TaskPlan(t, th, EffectiveKernel(b))
      {
      }
    }
  }

  /** A slider is shown for a task exactly when moving it changes what the task computes. */
  lemma SlidersMatchParameters(t: Task)
    ensures SlidersFor(Label(t)).threshold <==> ReadsThreshold(t)
    ensures SlidersFor(Label(t)).kernel <==> ReadsKernel(t)
  {
    SlidersOfTask(t);
    ThresholdReaders(t);
    KernelReaders(t);
  }

  // ---------------------------------------------------------------------
  // Process button and slider callbacks

  /** What the viewer holds between events. */
  datatype Session = Session(original: Option<Image>, processed: Option<Image>)

  /** The two error messages the front-ends show. */
  const UploadFirstMessage: string := "Please upload an image first!"
  const NoImageDataMessage: string := "No image data to display!"

  /** What the user sees after an event. */
  datatype Feedback =
    | UploadFirst          // error box with UploadFirstMessage
    | NoImageData          // error box with NoImageDataMessage
    | Shown(img: Image)    // the processed canvas is redrawn with `img`
    | Silent               // nothing happens

  /** What the task computes from the loaded image (working on a fresh copy of it). */
  function Output(cv: OpenCv, t: Task, c: Controls, original: Image): Image
  {
    Run(cv, DispatchPlan(t, c), original)
  }

  /**
    The Process button. Without a loaded image it only reports an error. With
    one, a recognised label replaces the processed image by the task's
    transform of (a fresh copy of) the original; an unrecognised label leaves it as it was. The original is
    never changed, and whatever ends up processed is what is shown.
   */
  function ProcessTask(cv: OpenCv, s: Session, c: Controls): (r: (Session, Feedback))
    ensures r.0.original == s.original
    ensures s.original.None? ==> r == (s, UploadFirst)
    ensures s.original.Some? && ParseTask(c.task).Some? ==>
              r.0.processed == Some(Output(cv, ParseTask(c.task).value, c, s.original.value))
    ensures s.original.Some? && ParseTask(c.task).None? ==> r.0.processed == s.processed
    ensures s.original.Some? && c.task == Label(LoadAndDisplay) ==> r.0.processed == s.original
    ensures s.original.Some? ==> (r.1.Shown? <==> r.0.processed.Some?)
    ensures s.original.Some? && r.0.processed.None? ==> r.1 == NoImageData
    ensures r.1.Shown? ==> r.0.processed == Some(r.1.img)
    ensures r.1 != Silent
  {
    match s.original
    case None => (s, UploadFirst)
    case Some(img) =>
      var processed :=
        match ParseTask(c.task)
        case Some(t) => Some(Output(cv, t, c, img))
        case None => s.processed;
      var s' := s.(processed := processed);
      if processed.Some? then (s', Shown(processed.value)) else (s', NoImageData)
  }

  /** A slider move: silently ignored without an image, a full Process otherwise. */
  function OnSliderMove(cv: OpenCv, s: Session, c: Controls): (r: (Session, Feedback))
    ensures s.original.None? ==> r == (s, Silent)
    ensures s.original.Some? ==> r == ProcessTask(cv, s, c)
    ensures r.1 != UploadFirst
  {
    if s.original.None? then (s, Silent) else ProcessTask(cv, s, c)
  }

  /** Processing does not accumulate: the result does not depend on what was processed before. */
  lemma NoAccumulation(cv: OpenCv, s1: Session, s2: Session, c: Controls)
    requires s1.original == s2.original && s1.original.Some?
    requires ParseTask(c.task).Some?
    ensures ProcessTask(cv, s1, c) == ProcessTask(cv, s2, c)
  {
  }

  /** Pressing Process again with the same controls changes nothing. */
  lemma ProcessIdempotent(cv: OpenCv, s: Session, c: Controls)
    ensures ProcessTask(cv, ProcessTask(cv, s, c).0, c) == ProcessTask(cv, s, c)
  {
  }

  /** Every task's calls are well-fed from a colour image and end with the declared channel count. */
  lemma PlanChannelsOfTask(t: Task, c: Controls)
    ensures PlanChannels(DispatchPlan(t, c), 3) == Some(OutputChannels(t))
  {
    var plan := DispatchPlan(t, c);
    match t
    case HsvShift =>
      assert plan[1..] == [HsvTweak, FromHsv] && plan[1..][1..] == [FromHsv];
      assert PlanChannels([FromHsv], 3) == Some(3);
      assert PlanChannels([HsvTweak, FromHsv], 3) == Some(3);
    case HlsShift =>
      assert plan[1..] == [HlsTweak, FromHls] && plan[1..][1..] == [FromHls];
      assert PlanChannels([FromHls], 3) == Some(3);
      assert PlanChannels([HlsTweak, FromHls], 3) == Some(3);
    case Binarize =>
      assert plan[1..] == [Threshold(c.threshold)];
      assert PlanChannels(plan[1..], 1) == Some(1);
    case CannyEdges =>
      assert plan[1..] == [Canny(c.threshold, c.threshold * 2)];
      assert PlanChannels(plan[1..], 1) == Some(1);
    case HistogramEqualization =>
      assert plan[1..] == [EqualizeHist];
      assert PlanChannels(plan[1..], 1) == Some(1);
    case _ =>
  }

  /**
    Under the OpenCV shape contracts, a recognised task on a loaded colour
    image yields an image of the same size, gray for the gray-based tasks and
    colour for the others.
   */
  lemma ProcessedShape(cv: OpenCv, s: Session, c: Controls)
    requires Sound(cv)
    requires s.original.Some? && s.original.value.HasShape(s.original.value.rows, s.original.value.cols, 3)
    requires ParseTask(c.task).Some?
    ensures ProcessTask(cv, s, c).0.processed.Some?
    ensures ProcessTask(cv, s, c).0.processed.value.HasShape(
              s.original.value.rows, s.original.value.cols, OutputChannels(ParseTask(c.task).value))
  {
    var t := ParseTask(c.task).value;
    PlanChannelsOfTask(t, c);
    RunShape(cv, DispatchPlan(t, c), s.original.value);
  }

  /**
    Binarize yields 255 exactly where the gray conversion of the original
    exceeds the threshold, and 0 elsewhere.
   */
  lemma BinarizeOutput(cv: OpenCv, img: Image, c: Controls)
    ensures var gray := cv.bgrToGray(img);
            var out := Output(cv, Binarize, c, img);
            && |out.data| == |gray.data|
            && (forall i :: 0 <= i < |out.data| ==> out.data[i] == 0 || out.data[i] == MaxValue)
            && (forall i :: 0 <= i < |out.data| ==> (out.data[i] == MaxValue <==> gray.data[i] as int > c.threshold))
  {
    var plan := DispatchPlan(Binarize, c);
    var gray := cv.bgrToGray(img);
    assert plan[1..] == [Threshold(c.threshold)];
    assert Run(cv, [Threshold(c.threshold)], gray) == ThresholdImage(gray, c.threshold);
    assert Output(cv, Binarize, c, img) == ThresholdImage(gray, c.threshold);
  }

  /**
    The HSV task hands back to OpenCV an image whose hue plane is the
    original hue rotated by 10 modulo 180, whose saturation plane is raised
    by 30 saturating at 255, and whose value plane is untouched.
   */
  lemma HsvShiftOutput(cv: OpenCv, img: Image, c: Controls) returns (m: Image)
    ensures Output(cv, HsvShift, c, img) == cv.hsvToBgr(m)
    ensures var hsv := cv.bgrToHsv(img);
            && |m.data| == |hsv.data|
            && (forall i :: 0 <= i < |m.data| && i % Planes == HsvHue ==>
                  m.data[i] as int < HueRange && m.data[i] == ShiftHue(hsv.data[i]))
            && (forall i :: 0 <= i < |m.data| && i % Planes == HsvSat ==>
                  m.data[i] == BoostSaturation(hsv.data[i]))
            && (forall i :: 0 <= i < |m.data| && i % Planes == HsvValue ==> m.data[i] == hsv.data[i])
            && m.rows == hsv.rows && m.cols == hsv.cols && m.chans == hsv.chans
  {
    var plan := DispatchPlan(HsvShift, c);
    var hsv := cv.bgrToHsv(img);
    m := ShiftHueBoostSaturation(hsv, HsvHue, HsvSat);
    assert plan[1..] == [HsvTweak, FromHsv] && plan[1..][1..] == [FromHsv];
    assert Run(cv, [FromHsv], m) == cv.hsvToBgr(m);
    assert Run(cv, [HsvTweak, FromHsv], hsv) == cv.hsvToBgr(m);
  }

  /**
    The HSL task hands back to OpenCV an image whose hue plane is rotated as
    for HSV, whose saturation plane (the third) is raised by 30 saturating at
    255, and whose lightness plane is untouched.
   */
  lemma HlsShiftOutput(cv: OpenCv, img: Image, c: Controls) returns (m: Image)
    ensures Output(cv, HlsShift, c, img) == cv.hlsToBgr(m)
    ensures var hls := cv.bgrToHls(img);
            && |m.data| == |hls.data|
            && (forall i :: 0 <= i < |m.data| && i % Planes == HlsHue ==>
                  m.data[i] as int < HueRange && m.data[i] == ShiftHue(hls.data[i]))
            && (forall i :: 0 <= i < |m.data| && i % Planes == HlsSat ==>
                  m.data[i] == BoostSaturation(hls.data[i]))
            && (forall i :: 0 <= i < |m.data| && i % Planes == HlsLight ==> m.data[i] == hls.data[i])
            && m.rows == hls.rows && m.cols == hls.cols && m.chans == hls.chans
  {
    var plan := DispatchPlan(HlsShift, c);
    var hls := cv.bgrToHls(img);
    m := ShiftHueBoostSaturation(hls, HlsHue, HlsSat);
    assert plan[1..] == [HlsTweak, FromHls] && plan[1..][1..] == [FromHls];
    assert Run(cv, [FromHls], m) == cv.hlsToBgr(m);
    assert Run(cv, [HlsTweak, FromHls], hls) == cv.hlsToBgr(m);
  }

}
