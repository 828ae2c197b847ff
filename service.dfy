/** `MilService` as the object it is: the buffers, bitmaps, model finder
    context and model-definition flag are fields that each public method
    updates in place. Every method is proved to perform the corresponding
    transition of `Pipeline`, so the laws of `PipelineLaws` hold of it. The
    blob branch runs the imperative pass of `BlobPass` over a label array. */
module Service {
  import opened Common
  import opened Blobs
  import opened BlobBounds
  import opened Imaging
  import opened Parameters
  import opened Pipeline
  import opened BlobPass
  import opened BlobSummary

  class MilService {
    var source: Option<Image>
    var dest: Option<Image>
    var original: Option<Bitmap>
    var processed: Option<Bitmap>
    var model: Option<Image>
    var gmf: Option<GmfContext>
    var modelDefinition: bool

    /** The fields as a `Pipeline` state. */
    function Current(): State
      reads this
    {
      State(source, dest, original, processed, model, gmf, modelDefinition)
    }

    /** The service starts with no image and a new model finder context. */
    constructor()
      ensures Current() == Init()
    {
      source, dest, original, processed, model := None, None, None, None, None;
      gmf := Some(GmfContext(false));
      modelDefinition := false;
    }

    /** `GetOriginalImage()`. */
    function OriginalImage(): (r: Option<Bitmap>)
      reads this
      ensures r == Current().original
    {
      original
    }

    /** `GetProcessedImage()`. */
    function ProcessedImage(): (r: Option<Bitmap>)
      reads this
      ensures r == Current().processed
    {
      processed
    }

    /** `LoadImage(path)`: the old buffers are freed, then the file is read
        into new ones; both bitmaps are made from whatever the buffers are. */
    method LoadImage(path: string, be: Backend)
      modifies this
      ensures Current() == Load(old(Current()), path, be)
    {
      source, dest := None, None;
      var restored := be.restore(path);
      if restored.Some? {
        var file := restored.value;
        var s := if file.bands == 3 then Image(file.width, file.height, 1, RgbToLuma(file.content)) else ToGrey(file);
        source := Some(s);
        dest := Some(s);
      }
      original := ToBitmap(source);
      processed := ToBitmap(dest);
    }

    method ProcessImage(algorithm: string, p: Option<ParamValues>, be: Backend) returns (msg: Message)
      requires Valid(Current())
      modifies this
      ensures (Current(), msg) == Apply(old(Current()), algorithm, p, be)
    {
      if source.None? {
        return NoImage;
      }
      if dest.None? {
        // Every MIL call on the null working buffer fails.
        msg := Complete;
        if Handles(algorithm, p) && p.value.BlobValues? {
          msg := BlobsFound(0, 0);
        } else if Handles(algorithm, p) && p.value.GmfValues? {
          if modelDefinition {
            return ModelDefinitionPending;
          }
          if gmf.None? {
            return NoModelDefined;
          }
          msg := GmfNotFound;
        }
        processed := None;
        return;
      }
      var d := CopyInto(source.value, dest.value);
      dest := Some(d);
      msg := Complete;
      if Handles(algorithm, p) {
        match p.value {
          case ThresholdValues(low, high) =>
            dest := Some(d.(content := Binarized(d.content, InRange(low, high))));
          case MorphologyValues(iterations, kernelSize, mode) =>
            dest := Some(d.(content := MorphologyContent(d.content, iterations, kernelSize, mode)));
          case EdgeValues(edgeMethod, smoothness) =>
            dest := Some(d.(content := EdgeContent(d.content, edgeMethod, smoothness)));
          case AdaptiveValues(window, offset, mode) =>
            dest := Some(d.(content := AdaptiveBinarized(d.content, ConditionFor(mode), window, offset)));
          case BlobValues(low, high, minArea, drawBox) =>
            var bin := d.(content := Binarized(d.content, InRange(low, high)));
            dest := Some(bin);
            msg := BlobPassOf(bin, minArea, drawBox, be);
            return;
          case GmfValues(_, minScore) =>
            if modelDefinition {
              return ModelDefinitionPending;
            }
            if gmf.None? {
              return NoModelDefined;
            }
            var n := be.find(gmf.value, d.content, minScore);
            if n > 0 {
              processed := ToBitmap(Some(Image(d.width, d.height, 3, GmfOverlay(Colorized(d.content), n))));
              return GmfFound(n, minScore);
            }
            msg := GmfNotFound;
        }
      }
      processed := ToBitmap(dest);
    }

    /** The blob branch on the binarised buffer: the label image is read into
        an array, the raster pass builds the accumulators, and the summary
        counts and draws the qualifying blobs. */
    method BlobPassOf(bin: Image, minArea: Int32, drawBox: bool, be: Backend) returns (msg: Message)
      modifies this`processed
      ensures var labels := be.labels(bin);
        && BlobBranch(old(Current()), bin, labels, minArea, drawBox).0.processed == processed
        && BlobBranch(old(Current()), bin, labels, minArea, drawBox).1 == msg
    {
      var labels := be.labels(bin);
      var labelData := new Label[|labels|](i requires 0 <= i < |labels| => labels[i]);
      assert labelData[..] == labels;
      var blobs := CollectBlobs(labelData, bin.width, bin.height);
      AccumulateInRaster(labels, bin.width, bin.height);
      var validCount, marks := Summarize(BlobPass.Snapshot(blobs), minArea, drawBox, bin.width, bin.height);
      processed := ToBitmap(Some(Image(bin.width, bin.height, 3, DrawMarks(Colorized(bin.content), marks))));
      SnapshotKeys(blobs);
      msg := BlobsFound(validCount, |blobs|);
    }

    method CropImage(x: int, y: int, w: int, h: int)
      modifies this
      ensures Current() == Crop(old(Current()), x, y, w, h)
    {
      if source.None? {
        return;
      }
      if w <= 0 || h <= 0 {
        // The region cannot be allocated: the old buffers are freed and the
        // new ones are null.
        source, dest, original, processed := None, None, None, None;
        return;
      }
      var s := Image(w, h, 1, Region(source.value.content, x, y, w, h));
      source := Some(s);
      dest := Some(s);
      original := ToBitmap(source);
      processed := ToBitmap(dest);
    }

    /** `SaveRoiImage`: the region of the source written to the file, if any;
        the service's state does not change. */
    method SaveRoiImage(x: int, y: int, w: int, h: int) returns (exported: Option<Image>)
      ensures exported.Some? <==> source.Some? && w > 0 && h > 0
      ensures exported.Some? ==> exported.value.width == w && exported.value.height == h
                                 && exported.value.content == Region(source.value.content, x, y, w, h)
    {
      if source.None? || w <= 0 || h <= 0 {
        return None;
      }
      return Some(Image(w, h, 1, Region(source.value.content, x, y, w, h)));
    }

    /** `LoadGmfModelImage(path)`: a new context, the model image read from
        the file, and a working buffer of its size holding it. */
    method LoadGmfModelImage(path: string, be: Backend)
      modifies this
      ensures Current() == LoadModel(old(Current()), path, be)
    {
      gmf := Some(GmfContext(false));
      model := be.restore(path);
      if model.Some? {
        dest := Some(ToGrey(model.value));
      } else {
        dest := None;
      }
      modelDefinition := true;
      processed := ToBitmap(dest);
    }

    method TrainGmfModel()
      modifies this
      ensures Current() == Train(old(Current()))
    {
      if gmf.Some? {
        gmf := Some(GmfContext(true));
      }
      modelDefinition := false;
      if source.Some? {
        dest := source;
        processed := ToBitmap(dest);
      }
    }
  }
}
