/** The main view model: it owns the service, holds the selected algorithm
    and its parameter object, and decides which cached bitmap is displayed.
    Property setters append the name of each property they announce to
    `notified`, in the order the `PropertyChanged` events are raised. The
    open-file dialog's answer arrives as a parameter. */
module ViewModel {
  import opened Common
  import opened Imaging
  import opened Parameters
  import opened Pipeline
  import opened PipelineLaws
  import opened Service

  const GrayName: string := "Gray 처리"

  /** The combo box's entries, in order. */
  const AlgorithmNames: seq<string> := [GrayName, ThresholdName, AdaptiveName, MorphologyName, EdgeName]

  /** The parameter values a fresh selection starts with: only four names
      have a parameter class; every other name, and no name, has none. */
  function DefaultsFor(name: Option<string>): (r: Option<ParamValues>)
    ensures r.Some? <==> name.Some? && name.value in {ThresholdName, AdaptiveName, MorphologyName, EdgeName}
  {
    if name == Some(ThresholdName) then Some(ThresholdValues(128, 255))
    else if name == Some(AdaptiveName) then Some(AdaptiveValues(35, 10, "Bright Ojbect (밝은 물체)"))
    else if name == Some(MorphologyName) then Some(MorphologyValues(1, 3, "Erode"))
    else if name == Some(EdgeName) then Some(EdgeValues("Sobel", 25))
    else None
  }

  /** Each of the four names gets the parameters its own branch of
      `ProcessImage` handles, and the other entries of the list, the blob
      analysis and the model finder get none, so those are processed as
      unknown algorithms. */
  lemma DefaultsMatchBranches(name: string)
    ensures DefaultsFor(Some(name)).Some? ==> Handles(name, DefaultsFor(Some(name)))
    ensures name in {GrayName, BlobName, GmfName} ==> !Handles(name, DefaultsFor(Some(name)))
  {
  }

  class MainViewModel {
    const service: MilService
    var algorithmList: seq<string>
    var selectedAlgorithm: Option<string>
    var currentParameters: ParamsRef
    var showOriginal: bool
    var displayImage: Option<Bitmap>
    var notified: seq<string>

    /** The service's state satisfies the pipeline invariant. */
    predicate Valid()
      reads this, service
    {
      Pipeline.Valid(service.Current())
    }

    constructor()
      ensures Valid() && fresh(service)
      ensures algorithmList == AlgorithmNames
      ensures selectedAlgorithm.None? && currentParameters == NoParams && !showOriginal
      ensures displayImage.None? && notified == []
    {
      service := new MilService();
      algorithmList := AlgorithmNames;
      selectedAlgorithm, currentParameters := None, NoParams;
      showOriginal, displayImage, notified := false, None, [];
    }

    /** The `SelectedAlgorithm` setter: the name is stored and a new default
        parameter object replaces the current one. */
    method SetSelectedAlgorithm(value: Option<string>)
      modifies this`selectedAlgorithm, this`currentParameters, this`notified
      ensures selectedAlgorithm == value
      ensures Snapshot(currentParameters) == DefaultsFor(value)
      ensures forall o :: o in Objects(currentParameters) ==> fresh(o)
      ensures notified == old(notified) + ["SelectedAlgorithm", "CurrentParameters"]
      ensures showOriginal == old(showOriginal) && displayImage == old(displayImage)
      ensures algorithmList == old(algorithmList)
    {
      selectedAlgorithm := value;
      notified := notified + ["SelectedAlgorithm"];
      CreateParametersForAlgorithm(value);
    }

    /** The factory behind the setter. */
    method CreateParametersForAlgorithm(name: Option<string>)
      modifies this`currentParameters, this`notified
      ensures Snapshot(currentParameters) == DefaultsFor(name)
      ensures forall o :: o in Objects(currentParameters) ==> fresh(o)
      ensures notified == old(notified) + ["CurrentParameters"]
    {
      if name == Some(ThresholdName) {
        var p := new ThresholdParams();
        currentParameters := ThresholdRef(p);
      } else if name == Some(AdaptiveName) {
        var p := new AdaptiveThresholdParams();
        currentParameters := AdaptiveRef(p);
      } else if name == Some(MorphologyName) {
        var p := new MorphologyParams();
        currentParameters := MorphologyRef(p);
      } else if name == Some(EdgeName) {
        var p := new EdgeParams();
        currentParameters := EdgeRef(p);
      } else {
        currentParameters := NoParams;
      }
      notified := notified + ["CurrentParameters"];
    }

    /** `UpdateDisplay`: the original image when `ShowOriginal` is set, the
        processed one otherwise. */
    method UpdateDisplay()
      modifies this`displayImage, this`notified
      ensures displayImage == if showOriginal then service.original else service.processed
      ensures notified == old(notified) + ["DisplayImage"]
    {
      if showOriginal {
        displayImage := service.OriginalImage();
      } else {
        displayImage := service.ProcessedImage();
      }
      notified := notified + ["DisplayImage"];
    }

    /** The `ShowOriginal` setter: it only switches between the cached
        bitmaps; the service is not asked to process anything. */
    method SetShowOriginal(value: bool)
      modifies this`showOriginal, this`displayImage, this`notified
      ensures showOriginal == value
      ensures displayImage == if value then service.original else service.processed
      ensures notified == old(notified) + ["ShowOriginal", "DisplayImage"]
    {
      showOriginal := value;
      notified := notified + ["ShowOriginal"];
      UpdateDisplay();
    }

    /** The open-file command: with a file chosen, the service loads it and
        the original image is displayed; a cancelled dialog changes nothing.
        A file the service cannot read leaves no original, so nothing is
        displayed. */
    method LoadImage(dialogOk: bool, path: string, be: Backend)
      requires Valid()
      modifies this`showOriginal, this`displayImage, this`notified, service
      ensures Valid()
      ensures !dialogOk ==> unchanged(this) && unchanged(service)
      ensures dialogOk ==>
        && service.Current() == Load(old(service.Current()), path, be)
        && showOriginal && displayImage == service.original
        && (displayImage.None? <==> be.restore(path).None?)
        && notified == old(notified) + ["ShowOriginal", "DisplayImage", "DisplayImage"]
      ensures algorithmList == old(algorithmList) && selectedAlgorithm == old(selectedAlgorithm)
              && currentParameters == old(currentParameters)
    {
      if dialogOk {
        service.LoadImage(path, be);
        OperationsKeepValid(old(service.Current()), "", None, be, path, 0, 0, 0, 0);
        LoadShowsFile(old(service.Current()), path, be);
        SetShowOriginal(true);
        UpdateDisplay();
      }
    }

    /** The apply command: without a selected algorithm nothing happens;
        otherwise the service processes once with the current parameters and
        the processed image is displayed. */
    method ApplyAlgorithm(be: Backend)
      requires Valid()
      modifies this`showOriginal, this`displayImage, this`notified, service
      ensures Valid()
      ensures selectedAlgorithm.None? || selectedAlgorithm.value == "" ==> unchanged(this) && unchanged(service)
      ensures selectedAlgorithm.Some? && selectedAlgorithm.value != "" ==>
        && service.Current()
           == Apply(old(service.Current()), selectedAlgorithm.value, old(Snapshot(currentParameters)), be).0
        && !showOriginal && displayImage == service.processed
        && notified == old(notified) + ["ShowOriginal", "DisplayImage", "DisplayImage"]
      ensures algorithmList == old(algorithmList) && selectedAlgorithm == old(selectedAlgorithm)
              && currentParameters == old(currentParameters)
    {
      if selectedAlgorithm.None? || selectedAlgorithm.value == "" {
        return;
      }
      var p := Snapshot(currentParameters);
      OperationsKeepValid(service.Current(), selectedAlgorithm.value, p, be, "", 0, 0, 0, 0);
      var _ := service.ProcessImage(selectedAlgorithm.value, p, be);
      SetShowOriginal(false);
      UpdateDisplay();
    }
  }
}
