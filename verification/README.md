# Image-processing front-ends: dispatcher and sweep saver

This project models the logic under two small Tkinter front-ends over OpenCV.

- **The single-shot viewer** (`assignment1.py`). The user picks one of twelve task labels. Pressing *Process* or moving a slider runs that task's transform on a fresh copy of the loaded image. The result replaces the processed image.
- **The batch saver** (`filesaver.py`). The user picks one of seven task labels. *Save Images* runs the transform once per value of a fixed integer range. Each output is written under a name built from the value.

The model consists of these modules:

- `Images` (images.dfy): 8-bit images with a shape, the affine matrices handed to `warpAffine`, and the OpenCV routines.
  - The OpenCV routines are an `OpenCv` record of function values. They are passed in as a parameter.
  - `Sound` states the only facts assumed about them: their shape contracts. Each keeps height and width. Gray, Canny and histogram equalisation give one channel; the colour conversions give three; filters, warps and scalings keep the channel count.
- `PixelRules` (pixel_rules.dfy): the arithmetic the viewer does itself.
  - The hue rotation `(h + 10) mod 180`.
  - The saturating `cv2.add(s, 30)`.
  - OpenCV's `THRESH_BINARY` rule, which is 255 where the sample is above the threshold and 0 otherwise. This is the documented behaviour of the foreign call. It is modelled concretely because both front-ends rely on it.
- `Steps` (steps.dfy): a transform as a *plan*, the list of calls it makes in order.
  - `Apply` and `Run` interpret a plan.
  - Channel typing plus `RunShape` proves that a well-fed plan keeps the image size and yields the predicted channel count.
- `Decimal` (decimal.dfy): Python's `str(int)`, its inverse parse, and injectivity. File names rest on injectivity.
- `Ranges` (ranges.dfy): Python's `range(start, stop, step)`. It is the longest arithmetic progression from `start` that stays on the near side of `stop`. Its values are strictly ordered.
- `Viewer` (viewer.dfy): covers `assignment1.py` as follows.
  - Task labels and their parse.
  - Odd-kernel normalisation.
  - The plan each task runs.
  - Slider selection.
  - The *Process* button and the slider callback, as transitions of the viewer's `(original, processed)` state.
- `Saver` (saver.dfy): covers `filesaver.py` as follows.
  - Task labels.
  - Each task's sweep.
  - The source image each step starts from.
  - File naming.
  - The ordered list of `(path, image)` writes.
  - The guards of *Save Images*.
  - Agreement of sweep outputs with the viewer's output for the same parameter.

The model follows the code; in particular:

- An unrecognised task label is not an error. No branch matches, and the previous processed image is kept and shown again. If there is none, "No image data to display!" is shown.
- The threshold and kernel size are not clamped. The sliders bound them to 0..255 and 3..31, but the transforms take whatever value arrives. The only adjustment is the even-to-odd kernel bump.
- The saver does not apply the odd-kernel bump. Its mean-filter sweep passes even kernels to `cv2.blur` as they are (`Saver.MeanSweepEvenKernels`).
- The saver's loop comments are stale; the model follows the loop arguments:
  - The binarize and Canny loops step by 1, not 10.
  - The mean filter includes even kernels.
  - The reduce-intensity loop counts down by 1, not by 16.
  - The Canny sweep starts at 0, although its docstring says 1.
- Empty sweep ranges are not errors. No task's range is empty.

## Model

| member | source | states |
|---|---|---|
| Viewer.ParseTask | assignment1.py:140-198 | a label selects a task exactly when it is that task's drop-down text; any other label (the empty one included) selects none |
| Viewer.ParseLabel | assignment1.py:39-52 | every drop-down entry reaches its own branch of the Process handler |
| Viewer.EffectiveKernel | assignment1.py:137-138 | the kernel used is always odd, is k for odd k and k+1 for even k (never decremented), and stays in the slider domain 3..31 |
| Viewer.DispatchPlan | assignment1.py:134-178 | in every task's calls, blur and Gaussian kernels are odd and at least the slider value, Canny gets high = 2 * low with low = the threshold slider, and the binary threshold is the slider value |
| Viewer.SlidersFor | assignment1.py:110-123 | never both sliders at once; a label that selects no task shows neither |
| Viewer.SlidersMatchParameters | assignment1.py:118-123 | the threshold slider is shown exactly for the tasks whose calls change with the threshold, and the kernel slider exactly for those whose calls change with the kernel size |
| Viewer.ProcessTask | assignment1.py:126-210 | without an image: an upload error and nothing changes; the original is never modified; a recognised label sets the processed image to that task's transform of the original; an unrecognised label keeps the previous processed image; Load and Display yields the original itself; whatever is processed is what is shown, and with nothing processed the error is "No image data to display!" |
| Viewer.OnSliderMove | assignment1.py:202-205 | a slider move with no image does nothing and shows no error; otherwise it is a full Process |
| Viewer.NoAccumulation | assignment1.py:131-141 | for a recognised task, the outcome does not depend on the previously processed image, only on the original and the controls |
| Viewer.ProcessIdempotent | assignment1.py:126-200 | processing again with the same controls gives the same state and display |
| Viewer.ProcessedShape | assignment1.py:143-198 | under the OpenCV shape contracts, every task on a colour image keeps its size, giving one channel for grayscale, binarize, Canny and histogram equalisation and three otherwise |
| Viewer.BinarizeOutput | assignment1.py:147-150 | binarize outputs only 0 and 255, with 255 exactly where the gray image exceeds the threshold |
| Viewer.HsvShiftOutput | assignment1.py:180-188 | the HSV image handed back has hue (h+10) mod 180 (< 180), saturation min(s+30, 255), and value untouched; it has the HSV image's height, width and channel count |
| Viewer.HlsShiftOutput | assignment1.py:190-198 | the HLS image handed back has hue (h+10) mod 180 (< 180), saturation min(s+30, 255), and lightness untouched; it has the HLS image's height, width and channel count |
| PixelRules.ShiftHue | assignment1.py:183-184 | the new hue is below 180 and fits a byte; it is h+10 below 170 and wraps to h-170 from 170 to 179 |
| PixelRules.BoostSaturation | assignment1.py:185 | the saturating add never decreases the sample; it adds exactly 30 when that fits and gives 255 otherwise |
| PixelRules.ThresholdSample | assignment1.py:149 | an output sample is 0 or 255, and 255 exactly when the input exceeds the threshold |
| PixelRules.ThresholdImage | assignment1.py:148-150 | thresholding keeps the shape and makes every sample 0 or 255, 255 exactly where the input exceeds the threshold |
| PixelRules.ShiftHueBoostSaturation | assignment1.py:182-186 | after split and merge, the hue plane is rotated, the saturation plane is boosted (never lower), and the third plane is unchanged |
| Steps.RunShape | assignment1.py:143-198 | under the OpenCV shape contracts, a chain of calls each fed the channel count it expects keeps the image size and ends with the predicted channel count |
| Saver.ParseSaveTask | filesaver.py:72-85 | a label selects a saver exactly when it is that saver's drop-down text |
| Saver.SaveImages | filesaver.py:62-85 | no image gives the upload error and writes nothing; an empty label gives the select-task error and writes nothing; a known label runs exactly its saver, into its folder; any other label writes nothing |
| Saver.FolderInjective | filesaver.py:90-160 | distinct savers write into distinct folders |
| Saver.SweepValues | filesaver.py:93-150 | binarize sweeps 1..255 ascending (255 values); mean kernels 1..25 (25, even ones included); Gaussian kernels 1,3,...,25 (13, all odd); Canny 0..255 (256); reduce intensity 255 down to 8 (248); no value repeats |
| Ranges.PyRange | filesaver.py:93-150 | `range(start, stop, step)` yields start, start+step, ... in order, every value strictly on the near side of stop, and the next value would not be; ascending for a positive step and descending for a negative one |
| Saver.Emit | filesaver.py:93-95 | one write per swept value, in sweep order, named after that value; its image is the value's call on the same source, never on an earlier output |
| Saver.Files | filesaver.py:87-162 | a sweeping task writes exactly one file per swept value, a single-image task exactly one file, all inside the task's folder |
| Saver.SingleFile | filesaver.py:135-162 | grayscale writes exactly `{folder}/Grayscale.png` holding the gray conversion of the loaded image; histogram equalisation writes exactly `{folder}/Histogram_Equalized.png` holding the equalised gray image |
| Saver.FileName | filesaver.py:107 | every sweep file name lies inside the task's folder |
| Saver.FileNameInjective | filesaver.py:95-152 | within one task, `{folder}/{v}.png` and `{folder}/{k}x{k}.png` name different values differently |
| Saver.FileNamesDistinct | filesaver.py:93-162 | no task writes two outputs under the same name |
| Saver.SweepMatchesViewer | filesaver.py:93-131 | each binarize, Canny and Gaussian sweep output, and each odd mean-filter output, equals the viewer's result for that parameter on the same image; for the kernel 1 of the two blurs this is the viewer's transform at a value its 3..31 kernel slider cannot reach |
| Saver.MeanSweepEvenKernels | filesaver.py:105-107 | for an even swept kernel k, the saver blurs with k while the viewer with the same slider value blurs with k+1 |
| Decimal.NatToString | filesaver.py:95 | the rendering of a natural number is non-empty, all digits, and has no leading zero |
| Decimal.ParseIntToString | filesaver.py:95 | parsing the decimal rendering of any integer gives the integer back |
| Decimal.IntToStringInjective | filesaver.py:131 | distinct integers render to distinct decimal strings |

## Left out

- Tkinter widgets, file dialogs, message boxes (other than which error is reported), event binding and window geometry. These are presentation only.
- `upload_image` and `cv2.imread`. The loaded image is an `Option<Image>` in the viewer's state, or an argument of the saver.
- `display_image`: the preview scaling and canvas drawing, which are floating point and presentation only. The model records only which image is shown, or which error.
- OpenCV internals are not modelled. These are the colour conversions with their luma weights, `blur`, `GaussianBlur`, `Canny`, `warpAffine`, `getRotationMatrix2D` and `equalizeHist`. Each is an arbitrary function constrained only by the shape contracts in `Images.Sound`.
- The reduce-intensity pixel arithmetic (`assignment1.py:174`, `filesaver.py:151`). It is float64 multiplication followed by a truncating `uint8` cast. It stays abstract as two distinct routines, because the two front-ends use different float expressions and the viewer applies it to the colour image. Only the integer N sweep is modelled.
- Errors raised inside OpenCV, such as a non-positive kernel size or a conversion given the wrong channel count. The foreign routines are total functions in the model.
- `os.makedirs`, `cv2.imwrite` and the success message boxes. Persistence is the ordered list of `(path, image)` pairs a saver hands to `cv2.imwrite`.
- Viewer.ProcessedShape: assumes the loaded image has three channels, since `cv2.imread` without flags always yields a three-channel image. Other shapes would make the colour conversions raise inside OpenCV.
