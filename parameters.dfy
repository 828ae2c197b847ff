/** The parameter objects the user edits. Every property setter stores the new
    value and raises one `PropertyChanged` notification carrying the property's
    name, but only when the value differs from the stored one. The
    notifications raised so far are kept, in order, in `notified`. */
module Parameters {
  import opened Common

  /** The notifications an equality-gated setter raises when it replaces
      `current` by `next`. */
  function Notify<T(==)>(current: T, next: T, name: string): (r: seq<string>)
    ensures |r| <= 1
    ensures r == [] <==> current == next
    ensures r != [] ==> r == [name]
  {
    if current != next then [name] else []
  }

  /** A snapshot of a parameter object's properties, as `ProcessImage` reads them. */
  datatype ParamValues =
    | ThresholdValues(thresholdValue: Byte, thresholdMax: Byte)
    | MorphologyValues(iterations: Int32, kernelSize: Int32, operationMode: string)
    | EdgeValues(edgeMethod: string, smoothness: Int32)
    | AdaptiveValues(windowSize: Int32, offset: Int32, mode: string)
    | BlobValues(thresholdMin: Byte, blobThresholdMax: Byte, minArea: Int32, drawBox: bool)
    | GmfValues(modelSmoothness: real, minScore: real)
    | RoiValues

  class ThresholdParams {
    var thresholdValue: Byte
    var thresholdMax: Byte
    var notified: seq<string>

    constructor()
      ensures thresholdValue == 128 && thresholdMax == 255 && notified == []
    {
      thresholdValue, thresholdMax, notified := 128, 255, [];
    }

    function Values(): ParamValues
      reads this
    {
      ThresholdValues(thresholdValue, thresholdMax)
    }

    method SetThresholdValue(v: Byte)
      modifies this
      ensures thresholdValue == v && thresholdMax == old(thresholdMax)
      ensures notified == old(notified) + Notify(old(thresholdValue), v, "ThresholdValue")
    {
      if thresholdValue != v {
        thresholdValue := v;
        notified := notified + ["ThresholdValue"];
      }
    }

    method SetThresholdMax(v: Byte)
      modifies this
      ensures thresholdMax == v && thresholdValue == old(thresholdValue)
      ensures notified == old(notified) + Notify(old(thresholdMax), v, "ThresholdMax")
    {
      if thresholdMax != v {
        thresholdMax := v;
        notified := notified + ["ThresholdMax"];
      }
    }
  }

  class MorphologyParams {
    var iterations: Int32
    var kernelSize: Int32
    var operationMode: string
    var notified: seq<string>

    constructor()
      ensures iterations == 1 && kernelSize == 3 && operationMode == "Erode" && notified == []
    {
      iterations, kernelSize, operationMode, notified := 1, 3, "Erode", [];
    }

    function Values(): ParamValues
      reads this
    {
      MorphologyValues(iterations, kernelSize, operationMode)
    }

    method SetIterations(v: Int32)
      modifies this
      ensures iterations == v
      ensures kernelSize == old(kernelSize) && operationMode == old(operationMode)
      ensures notified == old(notified) + Notify(old(iterations), v, "Iterations")
    {
      if iterations != v {
        iterations := v;
        notified := notified + ["Iterations"];
      }
    }

    method SetKernelSize(v: Int32)
      modifies this
      ensures kernelSize == v
      ensures iterations == old(iterations) && operationMode == old(operationMode)
      ensures notified == old(notified) + Notify(old(kernelSize), v, "KernelSize")
    {
      if kernelSize == v {
        return;
      }
      kernelSize := v;
      notified := notified + ["KernelSize"];
    }

    method SetOperationMode(v: string)
      modifies this
      ensures operationMode == v
      ensures iterations == old(iterations) && kernelSize == old(kernelSize)
      ensures notified == old(notified) + Notify(old(operationMode), v, "OperationMode")
    {
      if operationMode != v {
        operationMode := v;
        notified := notified + ["OperationMode"];
      }
    }
  }

  class EdgeParams {
    var edgeMethod: string
    var smoothness: Int32
    var notified: seq<string>

    constructor()
      ensures edgeMethod == "Sobel" && smoothness == 25 && notified == []
    {
      edgeMethod, smoothness, notified := "Sobel", 25, [];
    }

    function Values(): ParamValues
      reads this
    {
      EdgeValues(edgeMethod, smoothness)
    }

    method SetMethod(v: string)
      modifies this
      ensures edgeMethod == v && smoothness == old(smoothness)
      ensures notified == old(notified) + Notify(old(edgeMethod), v, "Method")
    {
      if edgeMethod != v {
        edgeMethod := v;
        notified := notified + ["Method"];
      }
    }

    method SetSmoothness(v: Int32)
      modifies this
      ensures smoothness == v && edgeMethod == old(edgeMethod)
      ensures notified == old(notified) + Notify(old(smoothness), v, "Smoothness")
    {
      if smoothness != v {
        smoothness := v;
        notified := notified + ["Smoothness"];
      }
    }
  }

  class AdaptiveThresholdParams {
    var windowSize: Int32
    var offset: Int32
    var mode: string
    var notified: seq<string>

    constructor()
      ensures windowSize == 35 && offset == 10 && mode == "Bright Ojbect (밝은 물체)" && notified == []
    {
      windowSize, offset, mode, notified := 35, 10, "Bright Ojbect (밝은 물체)", [];
    }

    function Values(): ParamValues
      reads this
    {
      AdaptiveValues(windowSize, offset, mode)
    }

    method SetWindowSize(v: Int32)
      modifies this
      ensures windowSize == v && offset == old(offset) && mode == old(mode)
      ensures notified == old(notified) + Notify(old(windowSize), v, "WindowSize")
    {
      if windowSize != v {
        windowSize := v;
        notified := notified + ["WindowSize"];
      }
    }

    method SetOffset(v: Int32)
      modifies this
      ensures offset == v && windowSize == old(windowSize) && mode == old(mode)
      ensures notified == old(notified) + Notify(old(offset), v, "Offset")
    {
      if offset != v {
        offset := v;
        notified := notified + ["Offset"];
      }
    }

    method SetMode(v: string)
      modifies this
      ensures mode == v && windowSize == old(windowSize) && offset == old(offset)
      ensures notified == old(notified) + Notify(old(mode), v, "Mode")
    {
      if mode != v {
        mode := v;
        notified := notified + ["Mode"];
      }
    }
  }

  class BlobParams {
    var thresholdMin: Byte
    var thresholdMax: Byte
    var minArea: Int32
    var drawBox: bool
    var notified: seq<string>

    constructor()
      ensures thresholdMin == 50 && thresholdMax == 200 && minArea == 100 && drawBox
      ensures notified == []
    {
      thresholdMin, thresholdMax, minArea, drawBox, notified := 50, 200, 100, true, [];
    }

    function Values(): ParamValues
      reads this
    {
      BlobValues(thresholdMin, thresholdMax, minArea, drawBox)
    }

    method SetThresholdMin(v: Byte)
      modifies this
      ensures thresholdMin == v
      ensures thresholdMax == old(thresholdMax) && minArea == old(minArea) && drawBox == old(drawBox)
      ensures notified == old(notified) + Notify(old(thresholdMin), v, "ThresholdMin")
    {
      if thresholdMin != v {
        thresholdMin := v;
        notified := notified + ["ThresholdMin"];
      }
    }

    method SetThresholdMax(v: Byte)
      modifies this
      ensures thresholdMax == v
      ensures thresholdMin == old(thresholdMin) && minArea == old(minArea) && drawBox == old(drawBox)
      ensures notified == old(notified) + Notify(old(thresholdMax), v, "ThresholdMax")
    {
      if thresholdMax != v {
        thresholdMax := v;
        notified := notified + ["ThresholdMax"];
      }
    }

    method SetMinArea(v: Int32)
      modifies this
      ensures minArea == v
      ensures thresholdMin == old(thresholdMin) && thresholdMax == old(thresholdMax) && drawBox == old(drawBox)
      ensures notified == old(notified) + Notify(old(minArea), v, "MinArea")
    {
      if minArea != v {
        minArea := v;
        notified := notified + ["MinArea"];
      }
    }

    method SetDrawBox(v: bool)
      modifies this
      ensures drawBox == v
      ensures thresholdMin == old(thresholdMin) && thresholdMax == old(thresholdMax) && minArea == old(minArea)
      ensures notified == old(notified) + Notify(old(drawBox), v, "DrawBox")
    {
      if drawBox != v {
        drawBox := v;
        notified := notified + ["DrawBox"];
      }
    }
  }

  /** Reserved for region-of-interest settings; it has no properties. */
  class RoiParams {
    var notified: seq<string>

    constructor()
      ensures notified == []
    {
      notified := [];
    }

    function Values(): ParamValues
      reads this
    {
      RoiValues
    }
  }

  class GmfParams {
    var smoothness: real
    var minScore: real
    var notified: seq<string>

    constructor()
      ensures smoothness == 50.0 && minScore == 60.0 && notified == []
    {
      smoothness, minScore, notified := 50.0, 60.0, [];
    }

    function Values(): ParamValues
      reads this
    {
      GmfValues(smoothness, minScore)
    }

    method SetSmoothness(v: real)
      modifies this
      ensures smoothness == v && minScore == old(minScore)
      ensures notified == old(notified) + Notify(old(smoothness), v, "Smoothness")
    {
      if smoothness == v {
        return;
      }
      smoothness := v;
      notified := notified + ["Smoothness"];
    }

    method SetMinScore(v: real)
      modifies this
      ensures minScore == v && smoothness == old(smoothness)
      ensures notified == old(notified) + Notify(old(minScore), v, "MinScore")
    {
      if minScore == v {
        return;
      }
      minScore := v;
      notified := notified + ["MinScore"];
    }
  }

  /** The view model's `CurrentParameters`: null or a reference to one
      parameter object. */
  datatype ParamsRef =
    | NoParams
    | ThresholdRef(threshold: ThresholdParams)
    | MorphologyRef(morphology: MorphologyParams)
    | EdgeRef(edge: EdgeParams)
    | AdaptiveRef(adaptive: AdaptiveThresholdParams)
    | BlobRef(blob: BlobParams)
    | RoiRef(roi: RoiParams)
    | GmfRef(gmf: GmfParams)

  /** The object a reference designates. */
  function Objects(r: ParamsRef): set<object>
  {
    match r
    case NoParams => {}
    case ThresholdRef(p) => {p}
    case MorphologyRef(p) => {p}
    case EdgeRef(p) => {p}
    case AdaptiveRef(p) => {p}
    case BlobRef(p) => {p}
    case RoiRef(p) => {p}
    case GmfRef(p) => {p}
  }

  /** What `ProcessImage` sees of the referenced object: null, or its
      properties. */
  function Snapshot(r: ParamsRef): Option<ParamValues>
    reads Objects(r)
  {
    match r
    case NoParams => None
    case ThresholdRef(p) => Some(p.Values())
    case MorphologyRef(p) => Some(p.Values())
    case EdgeRef(p) => Some(p.Values())
    case AdaptiveRef(p) => Some(p.Values())
    case BlobRef(p) => Some(p.Values())
    case RoiRef(p) => Some(p.Values())
    case GmfRef(p) => Some(p.Values())
  }
}
