# pH card reader: segmentation, contour filter and colour correction

This project models the algorithmic core of a program that reads a pH value
from a photo of a colorimetric test card (the repository liloheinrich/microPADs).
It covers these parts:

- the centre pipeline of `center.py`. A `CenterPipeline` object holds its
  threshold ranges and filter bounds as fields. Its `process` overwrites one
  output field per step: HSV threshold, then mask, then find contours, then
  filter contours.
- `filter_contours`, which keeps a contour only if its bounding box, area,
  closed perimeter, solidity, vertex count and width/height ratio all lie
  within bounds.
- the colour sample of `get_center_color`. This is the mean colour of the
  pixels the mask selects, rounded per channel with Python's `round`.
- the two colour corrections of `main.py`. `level` shifts each channel by
  `max(ref) - ref[c]` and floors it at 0. `remap` applies
  `(v - black[c]) * 255 / (white[c] - black[c])` and caps it at 255.
- the `.jpg` file-name test of `get_filename`.

Modules, one per component:

| file | module | models |
|---|---|---|
| wrappers.dfy | Wrappers | Option / Result / Outcome for raised errors and exits |
| images.dfy | Images | pixels, images (rows of pixels), masks (rows of booleans) |
| threshold.dfy | Threshold | `hsv_threshold` (inRange part) and `mask` |
| contours.dfy | Contours | `filter_contours` |
| sampler.dfy | Sampler | `cv2.mean` under a mask and `round` in `get_center_color` |
| pipeline.dfy | Pipeline | `CenterPipeline`, `find_contours`, `get_center_color` |
| correction.dfy | Correction | `level`, `remap` |
| filename.dfy | Filename | `get_filename`'s argument and suffix checks |

Some things are parameters instead of models:

- `cv2.cvtColor` is a function `toHsv` from one pixel to one pixel.
- `cv2.findContours` is a function `trace` from a mask and a retrieval mode
  to a contour list.
- A contour is an abstract value. It holds its points (their number is the
  vertex count) and the measurements OpenCV takes of it: bounding-box width
  and height, area, closed perimeter and convex-hull area.
- Whether a file exists is the `isFile` parameter.

Images are immutable values. So "the input is copied, not changed" holds by
construction for `level`, `remap` and `get_center_color`.

Behaviour at the edges, as the code has it:

- Both divisions in the filter (center.py:139 and center.py:144) are
  unguarded Python float divisions. A zero hull area or a zero height raises
  `ZeroDivisionError`. The model returns `Failure(ZeroHullArea)` or
  `Failure(ZeroHeight)`. The error surfaces only when the checks before it
  pass.
- `process` propagates that error. By then the threshold, mask and contour
  fields have already been overwritten, and `filter_contours_output` keeps
  its previous value.
- `remap` caps at 255 (`cv2.min(b, 255)`) and has no explicit floor.

## Model

| member | source | states |
|---|---|---|
| Threshold.HsvThreshold | center.py:63-75 | the mask has the image's dimensions; a pixel is selected iff its converted hue, saturation and value each lie in their closed interval (values equal to a bound are selected) |
| Threshold.ThresholdThenMask | center.py:45-52 | the threshold of an image always fits it as a mask; the masked image keeps a pixel iff its conversion lies in all three ranges, and every other pixel becomes (0, 0, 0) |
| Threshold.ApplyMask | center.py:77-86 | succeeds iff the mask has the image's shape; the result has that shape, keeps every selected pixel and sets every unselected pixel to (0, 0, 0) |
| Threshold.MaskIdempotent | center.py:86 | masking twice with the same mask equals masking once |
| Threshold.MaskAllSelectedIsIdentity | center.py:86 | a mask selecting every pixel returns the image unchanged |
| Contours.Decide | center.py:127-147 | a contour is kept iff all seven criteria hold as closed intervals, with area and perimeter bounded below only; it raises the hull-area error iff the four size checks pass and the hull area is 0; it raises the height error iff the size, solidity and vertex checks pass and the height is 0 |
| Contours.FilterContours | center.py:105-148 | the loop with `continue` and `append` returns exactly `Filter` of its input: the kept contours in input order, or the first error raised |
| Contours.FilterIsSubsequence | center.py:126-148 | the output is a subsequence of the input in the same relative order; nothing is added, duplicated or reordered |
| Contours.FilterMembers | center.py:127-147 | a contour is in the output iff it is in the input and meets all seven criteria |
| Contours.FilterMembersAll | center.py:127-147 | the same membership equivalence, for every contour at once |
| Contours.FilterFailure | center.py:138-146 | the filter fails iff some contour reaches a zero divisor; the error it raises is that of the first such contour |
| Contours.FilterKeepsAccepted | center.py:126-148 | a list whose contours all meet the criteria is returned unchanged |
| Contours.FilterIdempotent | center.py:126-148 | filtering the output again with the same criteria returns it unchanged |
| Contours.GrownContourAccepted | center.py:133-141 | area and perimeter have only lower bounds: an accepted contour grown by a factor t >= 1 in area, hull area and perimeter is still accepted |
| Sampler.RoundHalfEven | center.py:158 | the result is the nearest integer to n / d; at an exact half it is the even one, as Python's round |
| Sampler.RoundWithin | center.py:158 | rounding a value between two integers stays between them |
| Sampler.MeanChannel | center.py:157-158 | with a non-empty selection, the channel is the nearest integer to the mean over the selected pixels; with an empty selection it is 0, as cv2.mean gives |
| Sampler.MeanColor | center.py:157-158 | each channel of the sampled colour is that channel's rounded mean |
| Sampler.SumBounds | center.py:157 | selected values within [lo, hi] sum to between lo and hi times their count |
| Sampler.MeanWithin | center.py:157-158 | if every selected pixel has channel c in [lo, hi], so does the sample |
| Sampler.MeanIsByte | center.py:157-161 | the sample of an 8-bit image is an 8-bit colour, so `np.uint8` does not wrap it before the HSV conversion |
| Sampler.MeanOfUniformRegion | center.py:157-158 | a region filled with one colour is sampled as exactly that colour |
| Sampler.SumAgrees | center.py:157 | a masked mean depends only on the selected pixels |
| Sampler.MaskedSampleIsSourceSample | center.py:152-157 | sampling the masked image under its mask gives the source's sample |
| Pipeline.PresetSelects | center.py:15-17 | under the preset ranges an 8-bit HSV pixel is selected iff its saturation is at least 95 and its value at least 130; the hue range and the upper bounds exclude nothing |
| Pipeline.CenterPipeline.constructor | center.py:11-39 | the presets: hue [0, 255], saturation [95, 255], value [130, 255], external-only false, every filter bound as set in `__init__`, and no output yet |
| Pipeline.CenterPipeline.ThresholdStep | center.py:45-47 | the threshold input is the source; the threshold output is the source thresholded with the configured ranges |
| Pipeline.CenterPipeline.MaskStep | center.py:49-52 | the mask input is the source, the mask is the threshold output, and the mask output is the source under that mask |
| Pipeline.CenterPipeline.FindContoursStep | center.py:54-56 | contours are traced on that same threshold output, with the configured mode |
| Pipeline.CenterPipeline.FilterStep | center.py:58-60 | the filter input is the traced list; on success the output is the filter of it with the configured bounds, a subsequence of it, holding exactly its contours that meet the criteria; on a raise the output keeps its old value |
| Pipeline.CenterPipeline.Process | center.py:41-60 | all of the four step contracts together; only the output fields change |
| Pipeline.GetCenterColor | center.py:150-164 | on a fresh pipeline with the presets: the threshold output and the mask are the preset threshold of the source; the mask output is the source under that mask; contours are traced on it in list mode; on success the filter output is the preset filter of those contours; a filter error propagates; otherwise the colour is the rounded mean of the source's selected pixels, 8-bit for an 8-bit source, and its HSV form is that colour converted |
| Correction.MaxChannel | main.py:57 | the result is one of the reference's channels and no channel exceeds it |
| Correction.Shift | main.py:60 | every channel shift `max(ref) - ref[c]` is >= 0 and brings `ref[c]` up to the maximum |
| Correction.LevelChannel | main.py:59-62 | the result is >= 0 and >= the input; it is input plus shift when that is not negative, and 0 otherwise; there is no upper clamp |
| Correction.LevelPixel | main.py:59-72 | output channel c is the leveled input channel c alone |
| Correction.Level | main.py:51-75 | same dimensions; every pixel leveled independently |
| Correction.LevelGrayReferenceIsIdentity | main.py:57-72 | a reference with three equal channels leaves an 8-bit image unchanged |
| Correction.LevelEqualizesReference | main.py:57-74 | the reference colour itself becomes (m, m, m) with m = max(ref) |
| Correction.RemapChannel | main.py:36-46 | every output is <= 255; black[c] maps to 0 and white[c] to 255 |
| Correction.RemapPixel | main.py:36-48 | output channel c is the remapped input channel c alone |
| Correction.Remap | main.py:23-49 | fails iff some channel has white[c] == black[c]; otherwise same dimensions, every channel remapped independently |
| Correction.RemapMonotone | main.py:37-46 | with white[c] > black[c], remap is monotone non-decreasing in the channel |
| Correction.RemapBetweenReferences | main.py:37-46 | a value between black[c] and white[c] maps into [0, 255], where the cap does not apply |
| Correction.RemapFullRangeIsIdentity | main.py:34-48 | with white (255, 255, 255) and black (0, 0, 0), remap leaves every 8-bit channel value unchanged |
| Correction.LevelMonotone | main.py:59-62 | level is monotone in each channel |
| Filename.HasJpgSuffix | main.py:16-17 | the Python slice `filename[lf-4:lf]` equals ".jpg" iff the name has at least four characters and ends in ".jpg" |
| Filename.ShortNameRejected | main.py:16-17 | names shorter than four characters are rejected, because the slice is then shorter than ".jpg" |
| Filename.GetFilename | main.py:10-21 | a name is returned iff there is exactly one argument, the file exists, and its name ends in ".jpg"; the name returned is that argument |

## Left out

- `cv2.cvtColor` (BGR to HSV): a foreign library call. It is the per-pixel parameter `toHsv`.
- `find_contours` (center.py:88-103) has no row of its own: it only picks `RETR_EXTERNAL` or `RETR_LIST` and calls `cv2.findContours`. The mode choice is stated where it has an effect, by `FindContoursStep` and by `GetCenterColor` (list mode under the presets).
- `cv2.findContours` and its `RETR_*` / `CHAIN_APPROX_SIMPLE` border following: a foreign algorithm. It is the parameter `trace`. Contours are abstract values.
- `boundingRect`, `contourArea`, `arcLength` and `convexHull`: foreign geometry. Their results are recorded per contour.
- Floating point: solidity, ratio and remap use exact `real` arithmetic, not IEEE doubles. Comparisons at a bound can differ from the source by rounding.
- Threshold bounds: these are reals compared exactly with the integer channel. OpenCV converts the bounds to integers before comparing, so a non-integral bound may select differently at the bound. The presets (center.py:15-17) are integral.
- Correction.Level: does not model uint8/NumPy wrap-around of `b + db`. Channels are mathematical integers with no upper clamp, as the source writes it.
- Correction.Remap: `b - black[c]` is computed on an 8-bit NumPy channel and wraps modulo 256 when `v < black[c]`; `cv2.multiply` then rounds and saturates its 8-bit result. The model keeps the exact real value with only the explicit 255 cap, so it gives a negative value there. `main` passes black = (0, 0, 0), where this never arises.
- Correction.RemapMonotone: holds for the model on all inputs, but for the source only when `black[c] <= v`. Below `black[c]` the wrapped subtraction makes the source's remap non-monotone (black 20: v = 10 gives 255, v = 20 gives 0).
- Correction.Remap: when `white[c] == black[c]` the source divides `255.0` by zero. If the references are NumPy values, as `get_center_color` returns (center.py:164), that yields inf/NaN and raises no exception; with plain Python numbers it raises `ZeroDivisionError`. `white` comes from `get_background_color`, which is not part of this model. The model returns `Failure(EqualReferences(c))` instead.
- Pipeline.GetCenterColor: `cv2.mean` averages in floating point. The model rounds the exact rational mean, ties to even, as Python's `round` does on an exactly representable half.
- Threshold.HsvThreshold: `cv2.cvtColor` raises `cv2.error` on an image with no pixels (center.py:74). The model returns an empty mask instead, and `ThresholdStep` and `Process` inherit this.
- Pipeline.GetCenterColor: on an image with no pixels the source raises at center.py:74. The model carries on with an empty mask and, when the traced list filters, returns the sample (0, 0, 0).
- Threshold.ApplyMask: OpenCV raises an error on a mask of the wrong size. The model returns `Failure(SizeMismatch)`; in `process` the mask always fits.
- `get_ph` (main.py:108-116): floating-point `math.log`; nothing to state beyond library facts.
- `show_images`, the windows, the `print`s, `exit()` and `main()` (main.py:77-106, 118-156): user interface and process orchestration.
- `sys.argv` and `os.path.isfile` in `get_filename`: I/O. They are the parameters `argv` and `isFile`.
- `get_background_color` (imported at main.py:7): it lives in `background.py`, which is not part of this model.
