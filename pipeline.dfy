/**
 * CenterPipeline and get_center_color from center.py.  The pipeline object
 * holds its configuration and the output of every step as fields; process
 * overwrites the outputs in order: threshold, mask, find contours, filter.
 *
 * The two OpenCV algorithms the model does not describe are parameters:
 * toHsv converts one BGR pixel to HSV (cv2.cvtColor works pixel by pixel),
 * and trace stands for cv2.findContours under a retrieval mode.
 */
module Pipeline {
  import opened Wrappers
  import opened Images
  import opened Threshold
  import opened Contours
  import opened Sampler

  /** cv2.RETR_EXTERNAL or cv2.RETR_LIST. */
  datatype RetrievalMode = RetrExternal | RetrList

  /** find_contours: picks RetrExternal when externalOnly, RetrList otherwise, and traces the mask. */
  function FindContours(input: Mask, externalOnly: bool, trace: (Mask, RetrievalMode) -> seq<Contour>): seq<Contour>
  {
    var mode := if externalOnly then RetrExternal else RetrList;
    trace(input, mode)
  }

  const PRESET_HUE := Range(0.0, 255.0)
  const PRESET_SATURATION := Range(95.0, 255.0)
  const PRESET_VALUE := Range(130.0, 255.0)

  /**
   * Under the preset ranges only the lower saturation and value bounds
   * select anything away: every 8-bit hue passes, and no 8-bit channel
   * exceeds an upper bound of 255.
   */
  lemma PresetSelects(hsv: Px<int>)
    requires ValidPx(hsv)
    ensures Selects(hsv, PRESET_HUE, PRESET_SATURATION, PRESET_VALUE) <==> hsv.c1 >= 95 && hsv.c2 >= 130
  {
  }

  /** The filter bounds __init__ sets, in the order of filter_contours' parameters. */
  const PRESET_CRITERIA := Criteria(
    100.0, 100.0,
    0.0, 1000.0,
    0.0, 1000.0,
    0.0, 100.0,
    1000000.0, 0.0,
    0.0, 1000.0)

  class CenterPipeline {
    var hsvThresholdHue: Range
    var hsvThresholdSaturation: Range
    var hsvThresholdValue: Range
    var hsvThresholdInput: Option<Image<int>>
    var hsvThresholdOutput: Option<Mask>

    var maskInput: Option<Image<int>>
    var maskMask: Option<Mask>
    var maskOutput: Option<Image<int>>

    var findContoursInput: Option<Mask>
    var findContoursExternalOnly: bool
    var findContoursOutput: Option<seq<Contour>>

    var filterContoursContours: Option<seq<Contour>>
    var filterContoursMinArea: real
    var filterContoursMinPerimeter: real
    var filterContoursMinWidth: real
    var filterContoursMaxWidth: real
    var filterContoursMinHeight: real
    var filterContoursMaxHeight: real
    var filterContoursSolidity: Range
    var filterContoursMaxVertices: real
    var filterContoursMinVertices: real
    var filterContoursMinRatio: real
    var filterContoursMaxRatio: real
    var filterContoursOutput: Option<seq<Contour>>

    /** The bounds process hands to filter_contours. */
    function FilterCriteria(): Criteria
      reads this`filterContoursMinArea, this`filterContoursMinPerimeter,
            this`filterContoursMinWidth, this`filterContoursMaxWidth,
            this`filterContoursMinHeight, this`filterContoursMaxHeight,
            this`filterContoursSolidity, this`filterContoursMaxVertices, this`filterContoursMinVertices,
            this`filterContoursMinRatio, this`filterContoursMaxRatio
    {
      Criteria(
        filterContoursMinArea, filterContoursMinPerimeter,
        filterContoursMinWidth, filterContoursMaxWidth,
        filterContoursMinHeight, filterContoursMaxHeight,
        filterContoursSolidity.lo, filterContoursSolidity.hi,
        filterContoursMaxVertices, filterContoursMinVertices,
        filterContoursMinRatio, filterContoursMaxRatio)
    }

    /** __init__: every setting at its preset and no output yet. */
    constructor ()
      ensures hsvThresholdHue == PRESET_HUE
      ensures hsvThresholdSaturation == PRESET_SATURATION
      ensures hsvThresholdValue == PRESET_VALUE
      ensures !findContoursExternalOnly
      ensures FilterCriteria() == PRESET_CRITERIA
      ensures hsvThresholdInput == None && hsvThresholdOutput == None
      ensures maskInput == None && maskMask == None && maskOutput == None
      ensures findContoursInput == None && findContoursOutput == None
      ensures filterContoursContours == None && filterContoursOutput == None
    {
      hsvThresholdHue := PRESET_HUE;
      hsvThresholdSaturation := PRESET_SATURATION;
      hsvThresholdValue := PRESET_VALUE;
      hsvThresholdInput := None;
      hsvThresholdOutput := None;

      maskInput := None;
      maskMask := hsvThresholdOutput;
      maskOutput := None;

      findContoursInput := hsvThresholdOutput;
      findContoursExternalOnly := false;
      findContoursOutput := None;

      filterContoursContours := findContoursOutput;
      filterContoursMinArea := 100.0;
      filterContoursMinPerimeter := 100.0;
      filterContoursMinWidth := 0.0;
      filterContoursMaxWidth := 1000.0;
      filterContoursMinHeight := 0.0;
      filterContoursMaxHeight := 1000.0;
      filterContoursSolidity := Range(0.0, 100.0);
      filterContoursMaxVertices := 1000000.0;
      filterContoursMinVertices := 0.0;
      filterContoursMinRatio := 0.0;
      filterContoursMaxRatio := 1000.0;
      filterContoursOutput := None;
    }

    /** Step HSV_Threshold0 of process. */
    method ThresholdStep(source0: Image<int>, toHsv: Px<int> -> Px<int>)
      modifies this`hsvThresholdInput, this`hsvThresholdOutput
      ensures hsvThresholdInput == Some(source0)
      ensures hsvThresholdOutput == Some(HsvThreshold(source0, toHsv, hsvThresholdHue, hsvThresholdSaturation, hsvThresholdValue))
    {
      hsvThresholdInput := Some(source0);
      hsvThresholdOutput := Some(HsvThreshold(source0, toHsv, hsvThresholdHue, hsvThresholdSaturation, hsvThresholdValue));
    }

    /** Step Mask0 of process: the source under the threshold's mask. */
    method MaskStep(source0: Image<int>)
      requires hsvThresholdOutput.Some? && SameShape(source0, hsvThresholdOutput.value)
      modifies this`maskInput, this`maskMask, this`maskOutput
      ensures maskInput == Some(source0) && maskMask == hsvThresholdOutput
      ensures maskOutput == Some(ApplyMask(source0, hsvThresholdOutput.value).value)
    {
      maskInput := Some(source0);
      maskMask := hsvThresholdOutput;
      maskOutput := Some(ApplyMask(source0, hsvThresholdOutput.value).value);
    }

    /** Step Find_Contours0 of process: contours traced on the threshold's mask. */
    method FindContoursStep(trace: (Mask, RetrievalMode) -> seq<Contour>)
      requires hsvThresholdOutput.Some?
      modifies this`findContoursInput, this`findContoursOutput
      ensures findContoursInput == hsvThresholdOutput
      ensures findContoursOutput == Some(FindContours(hsvThresholdOutput.value, findContoursExternalOnly, trace))
    {
      findContoursInput := hsvThresholdOutput;
      findContoursOutput := Some(FindContours(hsvThresholdOutput.value, findContoursExternalOnly, trace));
    }

    /**
     * Step Filter_Contours0 of process.  When the filter raises, its output
     * field keeps its old value.
     */
    method FilterStep() returns (status: Outcome<FilterError>)
      requires findContoursOutput.Some?
      modifies this`filterContoursContours, this`filterContoursOutput
      ensures filterContoursContours == findContoursOutput
      ensures status.Pass? <==> Filter(findContoursOutput.value, FilterCriteria()).Success?
      ensures status.Pass? ==> filterContoursOutput == Some(Filter(findContoursOutput.value, FilterCriteria()).value)
      ensures status.Pass? ==> Subsequence(filterContoursOutput.value, findContoursOutput.value)
      ensures status.Pass? ==>
                forall c :: c in filterContoursOutput.value <==> c in findContoursOutput.value && Accepted(c, FilterCriteria())
      ensures status.Fail? ==>
                status.error == Filter(findContoursOutput.value, FilterCriteria()).error &&
                filterContoursOutput == old(filterContoursOutput)
    {
      filterContoursContours := findContoursOutput;
      var contours, criteria := findContoursOutput.value, FilterCriteria();
      var filtered := FilterContours(contours, criteria);
      match filtered
      case Failure(e) =>
        status := Fail(e);
      case Success(kept) =>
        FilterIsSubsequence(contours, criteria);
        FilterMembersAll(contours, criteria);
        filterContoursOutput := Some(kept);
        status := Pass;
    }

    /**
     * process: threshold the source, mask the source with the threshold,
     * trace the threshold's contours and filter them with the current
     * bounds.  When the filter raises, the steps before it have already
     * overwritten their outputs and the filter's output keeps its old value.
     */
    method Process(source0: Image<int>, toHsv: Px<int> -> Px<int>, trace: (Mask, RetrievalMode) -> seq<Contour>)
      returns (status: Outcome<FilterError>)
      modifies this`hsvThresholdInput, this`hsvThresholdOutput, this`maskInput, this`maskMask, this`maskOutput,
               this`findContoursInput, this`findContoursOutput, this`filterContoursContours, this`filterContoursOutput
      ensures hsvThresholdInput == Some(source0)
      ensures hsvThresholdOutput == Some(HsvThreshold(source0, toHsv, hsvThresholdHue, hsvThresholdSaturation, hsvThresholdValue))
      ensures maskInput == Some(source0) && maskMask == hsvThresholdOutput
      ensures maskOutput == Some(ApplyMask(source0, hsvThresholdOutput.value).value)
      ensures findContoursInput == hsvThresholdOutput
      ensures findContoursOutput == Some(FindContours(hsvThresholdOutput.value, findContoursExternalOnly, trace))
      ensures filterContoursContours == findContoursOutput
      ensures status.Pass? <==> Filter(findContoursOutput.value, FilterCriteria()).Success?
      ensures status.Pass? ==> filterContoursOutput == Some(Filter(findContoursOutput.value, FilterCriteria()).value)
      ensures status.Pass? ==> Subsequence(filterContoursOutput.value, findContoursOutput.value)
      ensures status.Pass? ==>
                forall c :: c in filterContoursOutput.value <==> c in findContoursOutput.value && Accepted(c, FilterCriteria())
      ensures status.Fail? ==>
                status.error == Filter(findContoursOutput.value, FilterCriteria()).error &&
                filterContoursOutput == old(filterContoursOutput)
    {
      ThresholdStep(source0, toHsv);
      MaskStep(source0);
      FindContoursStep(trace);
      status := FilterStep();
    }
  }

  /** The two colour representations get_center_color returns. */
  datatype CenterColor = CenterColor(bgr: Px<int>, hsv: Px<int>)

  /**
   * get_center_color: runs a fresh pipeline on the source and samples the
   * masked image under the mask.  The colour is the rounded mean of the
   * source's own selected pixels; its HSV form is the conversion of that
   * colour as a one-pixel image.
   */
  method GetCenterColor(source: Image<int>, toHsv: Px<int> -> Px<int>, trace: (Mask, RetrievalMode) -> seq<Contour>)
    returns (p: CenterPipeline, r: Result<CenterColor, FilterError>)
    ensures fresh(p)
    ensures p.maskMask == Some(HsvThreshold(source, toHsv, PRESET_HUE, PRESET_SATURATION, PRESET_VALUE))
    ensures p.hsvThresholdOutput == p.maskMask
    ensures p.maskOutput == Some(ApplyMask(source, p.maskMask.value).value)
    ensures p.findContoursOutput == Some(trace(p.maskMask.value, RetrList))
    ensures r.Success? <==> Filter(p.findContoursOutput.value, PRESET_CRITERIA).Success?
    ensures r.Failure? ==> r.error == Filter(p.findContoursOutput.value, PRESET_CRITERIA).error
    ensures r.Success? ==> p.filterContoursOutput == Some(Filter(p.findContoursOutput.value, PRESET_CRITERIA).value)
    ensures r.Success? ==> r.value.bgr == MeanColor(source, p.maskMask.value)
    ensures r.Success? ==> r.value.hsv == toHsv(r.value.bgr)
    ensures r.Success? && ValidImage(source) ==> ValidPx(r.value.bgr)
  {
    var img := source;
    p := new CenterPipeline();
    assert p.FilterCriteria() == PRESET_CRITERIA && !p.findContoursExternalOnly;
    var status := p.Process(img, toHsv, trace);
    assert p.FilterCriteria() == PRESET_CRITERIA && !p.findContoursExternalOnly;
    assert p.hsvThresholdHue == PRESET_HUE && p.hsvThresholdSaturation == PRESET_SATURATION;
    assert p.hsvThresholdValue == PRESET_VALUE;
    if status.Fail? {
      return p, Failure(status.error);
    }
    var mask := p.maskMask.value;
    MaskedSampleIsSourceSample(img, mask);
    var bgrCenter := MeanColor(p.maskOutput.value, mask);
    if ValidImage(source) {
      MeanIsByte(source, mask);
    }
    var hsvCenter := toHsv(bgrCenter);
    r := Success(CenterColor(bgrCenter, hsvCenter));
  }
}
