/**
  The batch saver: the seven task labels of its drop-down, the parameter
  sweep each task runs, the image each sweep step computes from the one
  untouched source, and the file name each output is written under.
  Writing is modelled as the list of (path, image) pairs handed to
  `cv2.imwrite`, in order.
 */
module Saver {
  import opened Wrappers
  import opened Images
  import opened Steps
  import opened Ranges
  import opened Decimal
  import Viewer

  datatype SaveTask =
    | Binarization | MeanFilter | GaussianFilter | CannyEdges
    | Grayscale | ReduceIntensity | HistogramEqualization

  function SaveLabel(t: SaveTask): string
  {
    match t
    case Binarization => "Binarization (Thresholding)"
    case MeanFilter => "Mean Filter"
    case GaussianFilter => "Gaussian Filter"
    case CannyEdges => "Canny Edge Detection"
    case Grayscale => "Convert to Grayscale"
    case ReduceIntensity => "Reduce Intensity Range"
    case HistogramEqualization => "Histogram Equalization"
  }

  /** The saver method a label selects, if any. */
  function ParseSaveTask(entry: string): (r: Option<SaveTask>)
    ensures r.Some? ==> SaveLabel(r.value) == entry
    ensures r.None? ==> forall t :: SaveLabel(t) != entry
  {
    if entry == SaveLabel(Binarization) then Some(Binarization)
    else if entry == SaveLabel(MeanFilter) then Some(MeanFilter)
    else if entry == SaveLabel(GaussianFilter) then Some(GaussianFilter)
    else if entry == SaveLabel(CannyEdges) then Some(CannyEdges)
    else if entry == SaveLabel(Grayscale) then Some(Grayscale)
    else if entry == SaveLabel(ReduceIntensity) then Some(ReduceIntensity)
    else if entry == SaveLabel(HistogramEqualization) then Some(HistogramEqualization)
    else None
  }

  /** The directory each task writes into. */
  function Folder(t: SaveTask): string
  {
    match t
    case Binarization => "Saved_Images/Binarized"
    case MeanFilter => "Saved_Images/Mean_Filter"
    case GaussianFilter => "Saved_Images/Gaussian_Filter"
    case CannyEdges => "Saved_Images/Canny_Edge"
    case Grayscale => "Saved_Images/Grayscale"
    case ReduceIntensity => "Saved_Images/Reduced_Intensity"
    case HistogramEqualization => "Saved_Images/Histogram_Equalization"
  }

  /** The arguments of a task's `range(start, stop, step)` loop. */
  datatype Sweep = Sweep(start: int, stop: int, step: int)

  /** The loop of each sweeping task; the two single-image tasks have none. */
  function SweepOf(t: SaveTask): Option<Sweep>
  {
    match t
    case Binarization => Some(Sweep(1, 256, 1))
    case MeanFilter => Some(Sweep(1, 26, 1))
    case GaussianFilter => Some(Sweep(1, 26, 2))
    case CannyEdges => Some(Sweep(0, 256, 1))
    case ReduceIntensity => Some(Sweep(255, 7, -1))
    case Grayscale | HistogramEqualization => None
  }

  /**
    The parameter values a task sweeps, in loop order: thresholds 1..255,
    mean kernels 1..25 (even ones included), Gaussian kernels 1, 3, ..., 25,
    Canny thresholds 0..255, intensity levels 255 down to 8.
   */
  function SweepValues(t: SaveTask): (r: seq<int>)
    ensures t == Binarization ==> |r| == 255 && forall i :: 0 <= i < |r| ==> r[i] == i + 1
    ensures t == MeanFilter ==> |r| == 25 && forall i :: 0 <= i < |r| ==> r[i] == i + 1
    ensures t == GaussianFilter ==> |r| == 13 && forall i :: 0 <= i < |r| ==> r[i] == 2 * i + 1
    ensures t == CannyEdges ==> |r| == 256 && forall i :: 0 <= i < |r| ==> r[i] == i
    ensures t == ReduceIntensity ==> |r| == 248 && forall i :: 0 <= i < |r| ==> r[i] == 255 - i
    ensures t == Grayscale || t == HistogramEqualization ==> r == []
    ensures forall i, j :: 0 <= i < j < |r| ==> r[i] != r[j]
    ensures t == GaussianFilter ==> forall i :: 0 <= i < |r| ==> r[i] % 2 == 1
  {
    match SweepOf(t)
    case Some(sw) => PyRange(sw.start, sw.stop, sw.step)
    case None => []
  }

  /** The image every step of a task starts from: the gray conversion, or the loaded image for the two blurs. */
  function Source(cv: OpenCv, t: SaveTask, original: Image): Image
  {
    if t == MeanFilter || t == GaussianFilter then original else cv.bgrToGray(original)
  }

  /** The call a sweep step makes on the source for parameter value `v`. */
  function SweepStep(t: SaveTask, v: int): Step
    requires SweepOf(t).Some?
  {
    match t
    case Binarization => Threshold(v)
    case MeanFilter => BoxBlur(v)
    case GaussianFilter => GaussianBlur(v)
    case CannyEdges => Canny(v, v * 2)
    case ReduceIntensity => ScaleNormalised(v)
  }

  /** The part of a sweep file name that carries the value: `{k}x{k}` for the two blurs, `{v}` otherwise. */
  function Stem(t: SaveTask, v: int): string
  {
    if t == MeanFilter || t == GaussianFilter then IntToString(v) + "x" + IntToString(v) else IntToString(v)
  }

  /** `{folder}/{stem}.png`: always inside the task's folder. */
  function FileName(t: SaveTask, v: int): (name: string)
    ensures Folder(t) + "/" <= name
  {
    InFolder(Folder(t) + "/", Stem(t, v) + ".png");
    Folder(t) + "/" + (Stem(t, v) + ".png")
  }

  lemma InFolder(dir: string, rest: string)
    ensures dir <= dir + rest
  {
    assert (dir + rest)[..|dir|] == dir;
  }

  /** Equal strings with a common prefix and suffix have equal middles. */
  lemma AffixCancel(p: string, x: string, y: string, q: string)
    requires p + (x + q) == p + (y + q)
    ensures x == y
  {
    assert |x| == |y|;
    assert x == (p + (x + q))[|p|..|p| + |x|];
    assert y == (p + (y + q))[|p|..|p| + |y|];
  }

  /** `{k}x{k}` determines `k`: the two halves have equal length. */
  lemma DoubledStemInjective(x: string, y: string)
    requires x + "x" + x == y + "x" + y
    ensures x == y
  {
    assert |x| == |y|;
    assert x == (x + "x" + x)[..|x|];
    assert y == (y + "x" + y)[..|y|];
  }

  /** Within one task, distinct parameter values get distinct file names. */
  lemma FileNameInjective(t: SaveTask, a: int, b: int)
    requires FileName(t, a) == FileName(t, b)
    ensures a == b
  {
    AffixCancel(Folder(t) + "/", Stem(t, a), Stem(t, b), ".png");
    if t == MeanFilter || t == GaussianFilter {
      DoubledStemInjective(IntToString(a), IntToString(b));
    }
    IntToStringInjective(a, b);
  }

  /**
    One write per value, in order: each value's file name, and the step's
    call applied to the same source, never to an earlier step's output.
   */
  function Emit(cv: OpenCv, t: SaveTask, src: Image, values: seq<int>): (files: seq<(string, Image)>)
    requires SweepOf(t).Some?
    ensures |files| == |values|
    ensures forall i :: 0 <= i < |values| ==>
              files[i].0 == FileName(t, values[i]) && files[i].1 == Apply(cv, SweepStep(t, values[i]), src)
    decreases |values|
  {
    if |values| == 0 then []
    else [(FileName(t, values[0]), Apply(cv, SweepStep(t, values[0]), src))] + Emit(cv, t, src, values[1..])
  }

  /** Every write of a sweep lands inside the task's folder. */
  lemma EmitInFolder(cv: OpenCv, t: SaveTask, src: Image, values: seq<int>)
    requires SweepOf(t).Some?
    ensures var files := Emit(cv, t, src, values);
            forall i :: 0 <= i < |files| ==> Folder(t) + "/" <= files[i].0
  {
    var files := Emit(cv, t, src, values);
    forall i | 0 <= i < |files|
      ensures Folder(t) + "/" <= files[i].0
    {
      assert files[i].0 == FileName(t, values[i]);
    }
  }

  /** Everything a task writes, in order. */
  function Files(cv: OpenCv, t: SaveTask, original: Image): (files: seq<(string, Image)>)
    ensures SweepOf(t).Some? ==> |files| == |SweepValues(t)|
    ensures SweepOf(t).None? ==> |files| == 1
    ensures forall i :: 0 <= i < |files| ==> Folder(t) + "/" <= files[i].0
  {
    if SweepOf(t).Some? then
      var src := Source(cv, t, original);
      EmitInFolder(cv, t, src, SweepValues(t));
      Emit(cv, t, src, SweepValues(t))
    else
      SingleFile(cv, t, original)
  }

  /** The one write of a task without a sweep: the gray image, or its equalised histogram. */
  function SingleFile(cv: OpenCv, t: SaveTask, original: Image): (files: seq<(string, Image)>)
    requires SweepOf(t).None?
    ensures |files| == 1 && Folder(t) + "/" <= files[0].0
    ensures t == Grayscale ==>
              files[0].0 == Folder(t) + "/" + "Grayscale.png" && files[0].1 == cv.bgrToGray(original)
    ensures t == HistogramEqualization ==>
              files[0].0 == Folder(t) + "/" + "Histogram_Equalized.png"
              && files[0].1 == cv.equalizeHist(cv.bgrToGray(original))
  {
    var gray := Source(cv, t, original);
    if t == Grayscale then
      InFolder(Folder(t) + "/", "Grayscale.png");
      [(Folder(t) + "/" + "Grayscale.png", gray)]
    else
      InFolder(Folder(t) + "/", "Histogram_Equalized.png");
      [(Folder(t) + "/" + "Histogram_Equalized.png", Apply(cv, EqualizeHist, gray))]
  }

  /** No task writes two outputs under the same name. */
  lemma FileNamesDistinct(cv: OpenCv, t: SaveTask, original: Image)
    ensures var files := Files(cv, t, original);
            forall i, j :: 0 <= i < j < |files| ==> files[i].0 != files[j].0
  {
    var files := Files(cv, t, original);
    if SweepOf(t).Some? {
      var values := SweepValues(t);
      forall i, j | 0 <= i < j < |files|
        ensures files[i].0 != files[j].0
      {
        if files[i].0 == files[j].0 {
          FileNameInjective(t, values[i], values[j]);
        }
      }
    }
  }

  /** The outcome of pressing Save Images. */
  datatype SaveOutcome =
    | Refused(message: string)                           // an error box, nothing written
    | Saved(folder: string, files: seq<(string, Image)>) // one saver ran
    | Ignored                                            // no branch matched, nothing written

  const SelectTask: string := "Please select a task!"

  /**
    Save Images: without a loaded image, or without a chosen task, an error
    and no output; a known label runs exactly its own saver; any other label
    runs none.
   */
  function SaveImages(cv: OpenCv, original: Option<Image>, entry: string): (r: SaveOutcome)
    ensures original.None? ==> r == Refused(Viewer.UploadFirstMessage)
    ensures original.Some? && entry == "" ==> r == Refused(SelectTask)
    ensures r.Saved? <==> original.Some? && ParseSaveTask(entry).Some?
    ensures r.Saved? ==>
              r.folder == Folder(ParseSaveTask(entry).value)
              && r.files == Files(cv, ParseSaveTask(entry).value, original.value)
    ensures r.Ignored? <==> original.Some? && entry != "" && ParseSaveTask(entry).None?
  {
    if original.None? then Refused(Viewer.UploadFirstMessage)
    else if entry == "" then Refused(SelectTask)
    else match ParseSaveTask(entry)
      case Some(t) => Saved(Folder(t), Files(cv, t, original.value))
      case None => Ignored
  }

  /** Different savers write into different folders, so the folder identifies the saver that ran. */
  lemma FolderInjective(a: SaveTask, b: SaveTask)
    requires Folder(a) == Folder(b)
    ensures a == b
  {
  }

  // ---------------------------------------------------------------------
  // Agreement with the single-shot viewer

  /** The viewer task computing the same transform as a sweeping saver task. */
  function ViewerTask(t: SaveTask): Viewer.Task
    requires t in {Binarization, MeanFilter, GaussianFilter, CannyEdges}
  {
    match t
    case Binarization => Viewer.Binarize
    case MeanFilter => Viewer.MeanFilter
    case GaussianFilter => Viewer.GaussianFilter
    case CannyEdges => Viewer.CannyEdges
  }

  /** The viewer's controls with the swept parameter set to `v` and the other slider at its default. */
  function ViewerControls(t: SaveTask, v: int): Viewer.Controls
    requires t in {Binarization, MeanFilter, GaussianFilter, CannyEdges}
  {
    var task := Viewer.Label(ViewerTask(t));
    if t in {MeanFilter, GaussianFilter} then Viewer.Controls(task, Viewer.DefaultThreshold, v)
    else Viewer.Controls(task, v, Viewer.DefaultKernel)
  }

  /**
    Each sweep output is the image the viewer computes for that parameter
    value from the same loaded image: every binarize and Canny threshold,
    every Gaussian kernel, and the odd mean-filter kernels. The blurs' kernel
    1 is included: it matches the viewer's transform at kernel 1, a value the
    viewer's 3..31 kernel slider cannot itself produce.
   */
  lemma SweepMatchesViewer(cv: OpenCv, t: SaveTask, original: Image, i: int)
    requires t in {Binarization, MeanFilter, GaussianFilter, CannyEdges}
    requires 0 <= i < |SweepValues(t)|
    requires t == MeanFilter ==> SweepValues(t)[i] % 2 == 1
    ensures Files(cv, t, original)[i].1
            == Viewer.Output(cv, ViewerTask(t), ViewerControls(t, SweepValues(t)[i]), original)
  {
    var values := SweepValues(t);
    var src := Source(cv, t, original);
    var files := Emit(cv, t, src, values);
    FilesOfSweep(cv, t, original);
    assert files[i].1 == Apply(cv, SweepStep(t, values[i]), src);
    StepMatchesViewer(cv, t, original, values[i]);
  }

  lemma FilesOfSweep(cv: OpenCv, t: SaveTask, original: Image)
    requires SweepOf(t).Some?
    ensures Files(cv, t, original) == Emit(cv, t, Source(cv, t, original), SweepValues(t))
  {
  }

  lemma StepMatchesViewer(cv: OpenCv, t: SaveTask, original: Image, v: int)
    requires t in {Binarization, MeanFilter, GaussianFilter, CannyEdges}
    requires t in {MeanFilter, GaussianFilter} ==> v % 2 == 1
    ensures Apply(cv, SweepStep(t, v), Source(cv, t, original))
            == Viewer.Output(cv, ViewerTask(t), ViewerControls(t, v), original)
  {
    var c := ViewerControls(t, v);
    var plan := Viewer.DispatchPlan(ViewerTask(t), c);
    var src := Source(cv, t, original);
    if t in {Binarization, CannyEdges} {
      assert plan == [ToGray, SweepStep(t, v)];
      assert plan[1..] == [SweepStep(t, v)];
      assert Run(cv, plan[1..], src) == Apply(cv, SweepStep(t, v), src);
    } else {
      assert Viewer.EffectiveKernel(v) == v;
      assert plan == [SweepStep(t, v)] && plan[1..] == [];
      assert src == original;
      assert Run(cv, plan, original) == Run(cv, [], Apply(cv, SweepStep(t, v), original));
    }
  }

  /**
    The mean-filter sweep writes even kernels as they are, while the viewer
    bumps the same slider value to the next odd kernel: for even `k` the two
    front-ends blur with different kernels.
   */
  lemma MeanSweepEvenKernels(k: int)
    requires k in SweepValues(MeanFilter) && k % 2 == 0
    ensures SweepStep(MeanFilter, k) == BoxBlur(k)
    ensures Viewer.DispatchPlan(Viewer.MeanFilter, ViewerControls(MeanFilter, k)) == [BoxBlur(k + 1)]
  {
  }

}
