/**
 * The two per-pixel steps of the centre pipeline in center.py: the
 * hue/saturation/value threshold (cv2.inRange on the converted image) and
 * the mask step (cv2.bitwise_and of the image with itself under a mask).
 */
module Threshold {
  import opened Wrappers
  import opened Images

  /** A closed interval [lo, hi] of channel values, as the source's two-element lists. */
  datatype Range = Range(lo: real, hi: real)

  predicate InRange(v: int, r: Range) {
    Within(r.lo, v as real, r.hi)
  }

  /** cv2.inRange on one converted pixel: every channel inside its closed interval. */
  predicate Selects(hsv: Px<int>, hue: Range, sat: Range, val: Range) {
    InRange(hsv.c0, hue) && InRange(hsv.c1, sat) && InRange(hsv.c2, val)
  }

  /**
   * hsv_threshold: converts every pixel with toHsv (cv2.cvtColor, a parameter
   * here) and selects it iff its hue, saturation and value all lie in the
   * closed intervals; the mask has the image's dimensions.
   */
  function HsvThreshold(input: Image<int>, toHsv: Px<int> -> Px<int>, hue: Range, sat: Range, val: Range): (m: Mask)
    ensures SameShape(input, m)
    ensures forall i, j :: 0 <= i < |input| && 0 <= j < |input[i]| ==>
              (m[i][j] <==>
                 && hue.lo <= toHsv(input[i][j]).c0 as real <= hue.hi
                 && sat.lo <= toHsv(input[i][j]).c1 as real <= sat.hi
                 && val.lo <= toHsv(input[i][j]).c2 as real <= val.hi)
  {
    seq(|input|, i requires 0 <= i < |input| =>
      seq(|input[i]|, j requires 0 <= j < |input[i]| => Selects(toHsv(input[i][j]), hue, sat, val)))
  }

  /** OpenCV refuses a mask whose size differs from the image's. */
  datatype MaskError = SizeMismatch

  const BLACK: Px<int> := Px(0, 0, 0)

  /** The pixel bitwise_and(p, p, mask=...) yields: p itself where selected, zero elsewhere. */
  function MaskPixel(p: Px<int>, selected: bool): Px<int> {
    if selected then p else BLACK
  }

  /**
   * mask: keeps every selected pixel's three channels and sets every
   * unselected pixel to (0, 0, 0); fails when the mask's shape differs.
   */
  function ApplyMask(input: Image<int>, m: Mask): (r: Result<Image<int>, MaskError>)
    ensures r.Success? <==> SameShape(input, m)
    ensures r.Success? ==> SameShape(input, r.value)
    ensures r.Success? ==>
              forall i, j :: 0 <= i < |input| && 0 <= j < |input[i]| ==>
                (m[i][j] ==> r.value[i][j] == input[i][j]) &&
                (!m[i][j] ==> r.value[i][j] == Px(0, 0, 0))
  {
    if SameShape(input, m) then
      Success(seq(|input|, i requires 0 <= i < |input| =>
        seq(|input[i]|, j requires 0 <= j < |input[i]| => MaskPixel(input[i][j], m[i][j]))))
    else
      Failure(SizeMismatch)
  }

  /**
   * Threshold then mask, as process chains them: the threshold of an image
   * always fits it, and the masked image keeps exactly the pixels whose
   * conversion lies in all three ranges and blackens every other pixel.
   */
  lemma ThresholdThenMask(input: Image<int>, toHsv: Px<int> -> Px<int>, hue: Range, sat: Range, val: Range)
    ensures ApplyMask(input, HsvThreshold(input, toHsv, hue, sat, val)).Success?
    ensures forall i, j :: 0 <= i < |input| && 0 <= j < |input[i]| ==>
              ApplyMask(input, HsvThreshold(input, toHsv, hue, sat, val)).value[i][j] ==
                (if Selects(toHsv(input[i][j]), hue, sat, val) then input[i][j] else BLACK)
  {
  }

  /** Masking twice with the same mask is the same as masking once. */
  lemma MaskIdempotent(input: Image<int>, m: Mask)
    requires SameShape(input, m)
    ensures ApplyMask(ApplyMask(input, m).value, m) == ApplyMask(input, m)
  {
    var once := ApplyMask(input, m).value;
    var twice := ApplyMask(once, m).value;
    assert |twice| == |once|;
    forall i | 0 <= i < |once|
      ensures twice[i] == once[i]
    {
      assert |twice[i]| == |once[i]|;
      forall j | 0 <= j < |once[i]|
        ensures twice[i][j] == once[i][j]
      {
      }
    }
    assert twice == once;
  }

  /** A mask that selects everything leaves the image as it is. */
  lemma MaskAllSelectedIsIdentity(input: Image<int>, m: Mask)
    requires SameShape(input, m)
    requires forall i, j :: 0 <= i < |m| && 0 <= j < |m[i]| ==> m[i][j]
    ensures ApplyMask(input, m) == Success(input)
  {
    var r := ApplyMask(input, m).value;
    forall i | 0 <= i < |input|
      ensures r[i] == input[i]
    {
      forall j | 0 <= j < |input[i]|
        ensures r[i][j] == input[i][j]
      {
      }
    }
    assert r == input;
  }
}
