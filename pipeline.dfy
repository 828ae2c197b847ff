/** `MilService` as a state machine over values. The state holds the source
    buffer, the working (destination) buffer, the two cached display bitmaps,
    the model image, the model finder context and the model-definition flag;
    each public operation is a function from the old state to the new one.
    `Service.MilService` performs the same operations in place. */
module Pipeline {
  import opened Common
  import opened Blobs
  import opened BlobBounds
  import opened Imaging
  import opened Parameters

  const ThresholdName: string := "Threshold (이진화)"
  const MorphologyName: string := "Morphology (모폴로지)"
  const EdgeName: string := "Edge Detection (엣지 검출)"
  const AdaptiveName: string := "Adaptive Threshold (적응형 이진화)"
  const BlobName: string := "Blob Analysis (블롭 분석)"
  const GmfName: string := "Geometric Model Finder (GMF)"

  /** The string `ProcessImage` returns, by case; the counts are those it embeds. */
  datatype Message =
    | NoImage                              // "이미지 없음."
    | Complete                             // "Processing Complete"
    | BlobsFound(valid: nat, total: nat)   // "검출 성공: {valid}개 (전체 {total}개 중)"
    | ModelDefinitionPending               // "모델 정의 모드입니다. 'Train Model'을 눌러 완료하세요."
    | NoModelDefined                       // "정의된 모델 데이터가 없습니다."
    | GmfFound(count: nat, minScore: real) // "GMF 성공: {count}개 검출 (MinScore: {minScore}%)"
    | GmfNotFound                          // "GMF 검색 실패: 찾은 모델 없음."

  datatype State = State(
    source: Option<Image>,
    dest: Option<Image>,
    original: Option<Bitmap>,
    processed: Option<Bitmap>,
    model: Option<Image>,
    gmf: Option<GmfContext>,
    modelDefinition: bool)

  /** The invariant every reachable state keeps: the buffers are single-band,
      outside model definition a loaded source has a working buffer of its
      own size, and only a model file that could not be read leaves a source
      without a working buffer. */
  predicate Valid(st: State)
  {
    && (st.source.Some? ==> st.source.value.bands == 1 && (st.dest.Some? || st.modelDefinition))
    && (st.dest.Some? ==> st.dest.value.bands == 1)
    && (st.source.Some? && !st.modelDefinition ==> SameSize(st.source.value, st.dest.value))
  }

  /** The service right after construction: no image, a freshly allocated
      model finder context, not defining a model. */
  function Init(): (st: State)
    ensures Valid(st) && st.source.None? && !st.modelDefinition && st.gmf.Some?
  {
    State(None, None, None, None, None, Some(GmfContext(false)), false)
  }

  // ---------------------------------------------------------------------
  // 32-bit arithmetic of the morphology iteration count
  // ---------------------------------------------------------------------

  const TwoTo31: int := 0x8000_0000

  /** Two's-complement wrap-around of a C# `int` result. */
  function Wrap32(x: int): (r: int)
    ensures -TwoTo31 <= r < TwoTo31
    ensures -TwoTo31 <= x < TwoTo31 ==> r == x
    ensures (r - x) % (2 * TwoTo31) == 0
  {
    (x + TwoTo31) % (2 * TwoTo31) - TwoTo31
  }

  /** `kernelLoops`: `(KernelSize - 1) / 2` in C# `int` arithmetic, raised to at least 1. */
  function KernelLoops(kernelSize: Int32): (r: int)
    ensures r >= 1
  {
    var q := Quot(Wrap32(kernelSize - 1), 2);
    if q < 1 then 1 else q
  }

  /** For every kernel size but `int.MinValue` (whose `- 1` wraps around),
      the count is `max(1, (KernelSize - 1) / 2)`; after the clamp C#'s
      truncating division and Dafny's Euclidean one agree. */
  lemma KernelLoopsValue(kernelSize: Int32)
    requires kernelSize > -TwoTo31
    ensures KernelLoops(kernelSize) == if kernelSize >= 3 then (kernelSize - 1) / 2 else 1
    ensures kernelSize >= 3 ==> 2 * KernelLoops(kernelSize) <= kernelSize - 1 < 2 * KernelLoops(kernelSize) + 2
  {
    var q := Quot(kernelSize - 1, 2);
    if kernelSize - 1 < 0 {
      assert q <= 0;
    }
  }

  /** `totalIterations`: `Iterations * kernelLoops`, an `int` product that
      wraps around before it is widened to `long`. */
  function TotalIterations(iterations: Int32, kernelSize: Int32): (r: int)
    ensures -TwoTo31 <= r < TwoTo31
  {
    Wrap32(iterations * KernelLoops(kernelSize))
  }

  /** Without overflow the total is the plain product, and it is at least
      `Iterations` when `Iterations` is positive. */
  lemma TotalIterationsValue(iterations: Int32, kernelSize: Int32)
    requires -TwoTo31 <= iterations * KernelLoops(kernelSize) < TwoTo31
    ensures TotalIterations(iterations, kernelSize) == iterations * KernelLoops(kernelSize)
    ensures iterations >= 1 ==> TotalIterations(iterations, kernelSize) >= iterations
  {
    if iterations >= 1 {
      MulMono(1, KernelLoops(kernelSize), iterations);
    }
  }

  /** The default morphology parameters give one pass of a 3 x 3 kernel. */
  lemma DefaultMorphologyIterations()
    ensures TotalIterations(1, 3) == 1
  {
    KernelLoopsValue(3);
  }

  // ---------------------------------------------------------------------
  // Branches of ProcessImage
  // ---------------------------------------------------------------------

  /** The kernel chosen from the edge method's name, Sobel by default. */
  function EdgeKernelFor(edgeMethod: string): (k: EdgeKernel)
    ensures k == PrewittFast <==> Contains(edgeMethod, "Prewitt")
    ensures k == LaplacianEdge <==> !Contains(edgeMethod, "Prewitt") && Contains(edgeMethod, "Laplacian")
  {
    if Contains(edgeMethod, "Prewitt") then PrewittFast
    else if Contains(edgeMethod, "Laplacian") then LaplacianEdge
    else EdgeDetect
  }

  /** The adaptive condition chosen from the mode's name. */
  function ConditionFor(mode: string): (c: Condition)
    ensures c == Greater <==> Contains(mode, "Bright")
  {
    if Contains(mode, "Bright") then Greater else Less
  }

  /** The default parameter values select the Sobel kernel and bright objects. */
  lemma DefaultSelections()
    ensures EdgeKernelFor("Sobel") == EdgeDetect
    ensures ConditionFor("Bright Ojbect (밝은 물체)") == Greater
  {
    assert "Bright Ojbect (밝은 물체)"[..6] == "Bright";
  }

  /** The morphology branch: a bimodal binarisation, then the named operation
      repeated `TotalIterations` times; an unknown mode stops after the
      binarisation. */
  function MorphologyContent(c: Content, iterations: Int32, kernelSize: Int32, mode: string): Content
  {
    var b := Binarized(c, BimodalGreater);
    var n := TotalIterations(iterations, kernelSize);
    if mode == "Erode" then Morphed(b, Erode, n)
    else if mode == "Dilate" then Morphed(b, Dilate, n)
    else if mode == "Open" then Morphed(b, Open, n)
    else if mode == "Close" then Morphed(b, Close, n)
    else b
  }

  /** The edge branch: convolution, then, for a positive smoothness, a fixed
      binarisation keeping only the stronger edges. */
  function EdgeContent(c: Content, edgeMethod: string, smoothness: Int32): Content
  {
    var e := Convolved(c, EdgeKernelFor(edgeMethod));
    if smoothness > 0 then Binarized(e, FixedGreater(smoothness)) else e
  }

  /** Whether `ProcessImage` has a branch for this name and this kind of
      parameter object (`parameters is ...`). */
  predicate Handles(algorithm: string, p: Option<ParamValues>)
  {
    p.Some? &&
    ((algorithm == ThresholdName && p.value.ThresholdValues?)
     || (algorithm == MorphologyName && p.value.MorphologyValues?)
     || (algorithm == EdgeName && p.value.EdgeValues?)
     || (algorithm == AdaptiveName && p.value.AdaptiveValues?)
     || (algorithm == BlobName && p.value.BlobValues?)
     || (algorithm == GmfName && p.value.GmfValues?))
  }

  /** The common ending: the working buffer becomes the processed bitmap. */
  function Finish(st: State, d: Image, msg: Message): (State, Message)
  {
    (st.(dest := Some(d), processed := ToBitmap(Some(d))), msg)
  }

  /** The blob branch after the reset, with the label image the backend
      produced for the binarised buffer. */
  function BlobBranch(st: State, bin: Image, labels: seq<Label>, minArea: int, drawBox: bool): (State, Message)
    requires |labels| == bin.width * bin.height
  {
    AccumulateInRaster(labels, bin.width, bin.height);
    var m := Accumulate(labels, bin.width, |labels|);
    var marks := if drawBox then Marks(m, minArea, bin.width, bin.height) else map[];
    var color := Image(bin.width, bin.height, 3, DrawMarks(Colorized(bin.content), marks));
    (st.(dest := Some(bin), processed := ToBitmap(Some(color))), BlobsFound(|Qualifying(m, minArea)|, |m|))
  }

  /** The overlay of the drawn marks; drawing nothing leaves the pixels as they are. */
  function DrawMarks(c: Content, marks: map<int, Mark>): Content
  {
    if marks == map[] then c else BlobOverlay(c, marks)
  }

  /** The model finder branch after the reset. */
  function GmfBranch(st: State, d: Image, minScore: real, be: Backend): (State, Message)
  {
    if st.modelDefinition then (st, ModelDefinitionPending)
    else if st.gmf.None? then (st, NoModelDefined)
    else
      var n := be.find(st.gmf.value, d.content, minScore);
      if n > 0 then
        (st.(processed := ToBitmap(Some(Image(d.width, d.height, 3, GmfOverlay(Colorized(d.content), n))))),
         GmfFound(n, minScore))
      else Finish(st, d, GmfNotFound)
  }

  /** `ProcessImage` with a source but a null working buffer: every MIL call
      on it fails silently, so the processed bitmap becomes null. The blob
      branch labels an empty raster and the model finder finds nothing,
      unless one of its guards answers first. */
  function NullRun(st: State, algorithm: string, p: Option<ParamValues>): (State, Message)
  {
    if Handles(algorithm, p) && p.value.BlobValues? then (st.(processed := None), BlobsFound(0, 0))
    else if Handles(algorithm, p) && p.value.GmfValues? then
      if st.modelDefinition then (st, ModelDefinitionPending)
      else if st.gmf.None? then (st, NoModelDefined)
      else (st.(processed := None), GmfNotFound)
    else (st.(processed := None), Complete)
  }

  /** `ProcessImage(algorithm, parameters)`. */
  function Apply(st: State, algorithm: string, p: Option<ParamValues>, be: Backend): (State, Message)
    requires Valid(st)
  {
    if st.source.None? then (st, NoImage)
    else if st.dest.None? then NullRun(st, algorithm, p)
    else
      var d := CopyInto(st.source.value, st.dest.value);
      var reset := st.(dest := Some(d));
      if !Handles(algorithm, p) then Finish(reset, d, Complete)
      else match p.value
        case ThresholdValues(low, high) =>
          Finish(reset, d.(content := Binarized(d.content, InRange(low, high))), Complete)
        case MorphologyValues(iterations, kernelSize, mode) =>
          Finish(reset, d.(content := MorphologyContent(d.content, iterations, kernelSize, mode)), Complete)
        case EdgeValues(edgeMethod, smoothness) =>
          Finish(reset, d.(content := EdgeContent(d.content, edgeMethod, smoothness)), Complete)
        case AdaptiveValues(window, offset, mode) =>
          Finish(reset, d.(content := AdaptiveBinarized(d.content, ConditionFor(mode), window, offset)), Complete)
        case BlobValues(low, high, minArea, drawBox) =>
          var bin := d.(content := Binarized(d.content, InRange(low, high)));
          BlobBranch(reset, bin, be.labels(bin), minArea, drawBox)
        case GmfValues(_, minScore) =>
          GmfBranch(reset, d, minScore, be)
  }

  // ---------------------------------------------------------------------
  // The other state-changing operations
  // ---------------------------------------------------------------------

  /** The single-band source made from a restored file: colour files are
      converted to luminance, others copied. */
  function SourceOf(file: Image): (s: Image)
    ensures s.bands == 1 && SameSize(s, file)
  {
    if file.bands == 3 then Image(file.width, file.height, 1, RgbToLuma(file.content)) else ToGrey(file)
  }

  /** `LoadImage(path)`: source and working buffer both hold the file's grey
      pixels, and both bitmaps show them. The old buffers are freed before
      the file is read; a file that cannot be read leaves every later MIL
      call on null buffers, so both buffers and both bitmaps end up null. */
  function Load(st: State, path: string, be: Backend): (r: State)
  {
    match be.restore(path)
    case None => st.(source := None, dest := None, original := None, processed := None)
    case Some(file) =>
      var s := SourceOf(file);
      st.(source := Some(s), dest := Some(s), original := ToBitmap(Some(s)), processed := ToBitmap(Some(s)))
  }

  /** `CropImage(x, y, w, h)`: the region becomes the new source and working
      buffer. A region with no pixels cannot be allocated: both buffers and
      both bitmaps are then lost. */
  function Crop(st: State, x: int, y: int, w: int, h: int): State
  {
    if st.source.None? then st
    else if w <= 0 || h <= 0 then st.(source := None, dest := None, original := None, processed := None)
    else
      var s := Image(w, h, 1, Region(st.source.value.content, x, y, w, h));
      st.(source := Some(s), dest := Some(s), original := ToBitmap(Some(s)), processed := ToBitmap(Some(s)))
  }

  /** `LoadGmfModelImage(path)`: a new model finder context, the model image,
      a working buffer of the model's size showing it, and model-definition
      mode. A file that cannot be read leaves a null model image, so the
      working buffer sized after it cannot be allocated and is null too. */
  function LoadModel(st: State, path: string, be: Backend): State
  {
    var d := if be.restore(path).Some? then Some(ToGrey(be.restore(path).value)) else None;
    st.(model := be.restore(path), gmf := Some(GmfContext(false)), dest := d,
        processed := ToBitmap(d), modelDefinition := true)
  }

  /** `TrainGmfModel(parameters)`: the context is preprocessed, model
      definition ends, and a loaded source is copied into a working buffer of
      its own size again. */
  function Train(st: State): State
  {
    var st1 := st.(gmf := if st.gmf.Some? then Some(GmfContext(true)) else None, modelDefinition := false);
    if st.source.None? then st1
    else st1.(dest := st.source, processed := ToBitmap(st.source))
  }
}
