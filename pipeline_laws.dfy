/** What the service's operations promise, stated over `Pipeline`'s state
    machine: the state invariant, the reset that makes every processing run
    start from the source, the model-definition guard, and the counts the
    blob branch reports. */
module PipelineLaws {
  import opened Common
  import opened Blobs
  import opened BlobBounds
  import opened Imaging
  import opened Parameters
  import opened Pipeline

  // ---------------------------------------------------------------------
  // The invariant
  // ---------------------------------------------------------------------

  /** Every operation keeps the state invariant. */
  lemma OperationsKeepValid(st: State, algorithm: string, p: Option<ParamValues>, be: Backend,
                            path: string, x: int, y: int, w: int, h: int)
    requires Valid(st)
    ensures Valid(Apply(st, algorithm, p, be).0)
    ensures Valid(Load(st, path, be))
    ensures Valid(Crop(st, x, y, w, h))
    ensures Valid(LoadModel(st, path, be))
    ensures Valid(Train(st))
  {
    ApplyFrame(st, algorithm, p, be);
  }

  /** Processing only ever changes the working buffer and the processed
      bitmap; the working buffer keeps its size and stays single-band. */
  lemma ApplyFrame(st: State, algorithm: string, p: Option<ParamValues>, be: Backend)
    requires Valid(st)
    ensures var r := Apply(st, algorithm, p, be).0;
      && r.source == st.source && r.original == st.original && r.model == st.model
      && r.gmf == st.gmf && r.modelDefinition == st.modelDefinition
      && r.dest.Some? == st.dest.Some?
      && (r.dest.Some? ==> SameSize(r.dest.value, st.dest.value) && r.dest.value.bands == 1)
  {
  }

  // ---------------------------------------------------------------------
  // The reset at the start of every run
  // ---------------------------------------------------------------------

  /** Without an image nothing changes and the answer is "no image". */
  lemma NoImageNoChange(st: State, algorithm: string, p: Option<ParamValues>, be: Backend)
    requires Valid(st) && st.source.None?
    ensures Apply(st, algorithm, p, be) == (st, NoImage)
  {
  }

  /** An unknown algorithm name, or a parameter object of the wrong kind,
      still resets the working buffer to the source and shows it. */
  lemma UnhandledShowsSource(st: State, algorithm: string, p: Option<ParamValues>, be: Backend)
    requires Valid(st) && st.source.Some? && !st.modelDefinition && !Handles(algorithm, p)
    ensures var (r, msg) := Apply(st, algorithm, p, be);
      msg == Complete && r.dest == st.source && r.processed == ToBitmap(st.source)
  {
  }

  /** No drift: the result of a run depends on the source and the flags, not
      on what an earlier run left in the working buffer or the processed
      bitmap, as long as the source covers working buffers of one size (or
      both are null). The bitmap differs only where the model finder answers
      early, which leaves the old bitmap on screen. */
  lemma {:induction false} NoDrift(st1: State, st2: State, algorithm: string, p: Option<ParamValues>, be: Backend)
    requires Valid(st1) && Valid(st2) && st1.source.Some?
    requires st2.source == st1.source && st2.gmf == st1.gmf && st2.modelDefinition == st1.modelDefinition
    requires st1.dest.Some? == st2.dest.Some?
    requires st1.dest.Some? ==> Covers(st1.source.value, st1.dest.value) && SameSize(st1.dest.value, st2.dest.value)
    ensures var (r1, m1) := Apply(st1, algorithm, p, be);
      var (r2, m2) := Apply(st2, algorithm, p, be);
      && m1 == m2 && r1.dest == r2.dest
      && (r1.processed == r2.processed || m1 == ModelDefinitionPending || m1 == NoModelDefined)
  {
    if st1.dest.Some? {
      CopyOverwrites(st1.source.value, st1.dest.value, st2.dest.value);
    }
  }

  /** Running the same algorithm twice gives the same result as running it
      once, whenever the source covers the working buffer. */
  lemma {:induction false} ApplyIdempotent(st: State, algorithm: string, p: Option<ParamValues>, be: Backend)
    requires Valid(st) && st.source.Some?
    requires st.dest.Some? ==> Covers(st.source.value, st.dest.value)
    ensures Valid(Apply(st, algorithm, p, be).0)
    ensures Apply(Apply(st, algorithm, p, be).0, algorithm, p, be) == Apply(st, algorithm, p, be)
  {
    var (r, m) := Apply(st, algorithm, p, be);
    ApplyFrame(st, algorithm, p, be);
    NoDrift(st, r, algorithm, p, be);
    ApplyFrame(r, algorithm, p, be);
  }

  /** The exception to both laws: while a model is being defined the working
      buffer has the model's size. When the model is wider or taller than the
      source, the reset copies the source over only part of it, so every
      morphology run starts from the source laid over the last run's output
      rather than from the source alone. Whether the pixels then differ is
      up to the backend: the part outside the source can repeat exactly. */
  lemma DefinitionReadsLastRun(st: State, iterations: Int32, kernelSize: Int32, mode: string, be: Backend)
    requires Valid(st) && st.source.Some? && st.modelDefinition && st.dest.Some?
    requires !Covers(st.source.value, st.dest.value)
    ensures var p := Some(MorphologyValues(iterations, kernelSize, mode));
      var s := st.source.value;
      var r := Apply(st, MorphologyName, p, be).0;
      && Valid(r) && r.dest.Some? && SameSize(r.dest.value, st.dest.value)
      && r.dest.value.content
         == MorphologyContent(Clipped(s.content, s.width, s.height, st.dest.value.content), iterations, kernelSize, mode)
      && Apply(r, MorphologyName, p, be).0.dest.value.content
         == MorphologyContent(Clipped(s.content, s.width, s.height, r.dest.value.content), iterations, kernelSize, mode)
  {
    OperationsKeepValid(st, MorphologyName, Some(MorphologyValues(iterations, kernelSize, mode)), be, "", 0, 0, 0, 0);
  }

  // ---------------------------------------------------------------------
  // Model definition
  // ---------------------------------------------------------------------

  /** Loading a model image always enters model definition with a fresh
      context, and shows the model in a working buffer of its size; a file
      that cannot be read leaves no model image, no working buffer and no
      processed bitmap, and then processing shows nothing. */
  lemma LoadModelEntersDefinition(st: State, path: string, be: Backend)
    requires Valid(st)
    ensures var r := LoadModel(st, path, be);
      && r.gmf == Some(GmfContext(false)) && r.modelDefinition && r.model == be.restore(path)
      && r.source == st.source && r.original == st.original
      && (be.restore(path).Some? ==>
            && r.dest.Some? && SameSize(r.dest.value, be.restore(path).value)
            && r.processed == ToBitmap(r.dest))
      && (be.restore(path).None? ==>
            && r.dest.None? && r.processed.None?
            && (st.source.Some? ==> Apply(r, ThresholdName, Some(ThresholdValues(128, 255)), be) == (r, Complete)))
  {
  }

  /** While a model is being defined, a model-finder run answers that the
      model must be trained first and keeps the bitmap on screen. */
  lemma FindDuringDefinition(st: State, scale: real, minScore: real, be: Backend)
    requires Valid(st) && st.source.Some? && st.modelDefinition
    ensures var (r, msg) := Apply(st, GmfName, Some(GmfValues(scale, minScore)), be);
      msg == ModelDefinitionPending && r.processed == st.processed
  {
  }

  /** Training ends model definition: the context is preprocessed, a loaded
      source is back in the working buffer at its own size, and the next
      model-finder run reports what it found. */
  lemma {:induction false} TrainEndsDefinition(st: State, scale: real, minScore: real, be: Backend)
    requires Valid(st) && st.gmf.Some?
    ensures var t := Train(st);
      && !t.modelDefinition && t.gmf == Some(GmfContext(true))
      && (st.source.Some? ==> t.dest == st.source && t.processed == ToBitmap(st.source))
    ensures st.source.Some? ==>
      var msg := Apply(Train(st), GmfName, Some(GmfValues(scale, minScore)), be).1;
      msg == (var n := be.find(GmfContext(true), st.source.value.content, minScore);
              if n > 0 then GmfFound(n, minScore) else GmfNotFound)
  {
    OperationsKeepValid(st, GmfName, None, be, "", 0, 0, 0, 0);
  }

  /** A newly loaded image is both the source and the working buffer, and
      both bitmaps show it; a colour file is converted to grey. A file that
      cannot be read leaves no image and no bitmap, and nothing to process. */
  lemma LoadShowsFile(st: State, path: string, be: Backend)
    ensures var r := Load(st, path, be);
      && (be.restore(path).Some? ==>
            var file := be.restore(path).value;
            && r.source.Some? && r.dest == r.source && SameSize(r.source.value, file)
            && r.original == r.processed == ToBitmap(r.source)
            && (file.bands == 1 ==> r.source == Some(file))
            && (file.bands == 3 ==> r.source.value.content == RgbToLuma(file.content)))
      && (be.restore(path).None? ==>
            && r.source.None? && r.dest.None?
            && r.original.None? && r.processed.None?
            && Apply(r, ThresholdName, None, be) == (r, NoImage))
  {
  }

  /** A crop with pixels makes the region, `w` by `h`, the new source and
      working buffer; a crop with no pixels loses the image. */
  lemma CropResult(st: State, x: int, y: int, w: int, h: int)
    requires st.source.Some?
    ensures var r := Crop(st, x, y, w, h);
      && (w > 0 && h > 0 ==>
            r.source.Some? && r.dest == r.source && r.source.value.width == w && r.source.value.height == h
            && r.original == r.processed == ToBitmap(r.source))
      && (w <= 0 || h <= 0 ==> r.source.None? && r.dest.None? && r.original.None? && r.processed.None?)
  {
  }

  // ---------------------------------------------------------------------
  // The blob branch
  // ---------------------------------------------------------------------

  /** The buffer the blob branch labels: the source binarised to the range. */
  function BlobInput(st: State, low: int, high: int): (bin: Image)
    requires Valid(st) && st.source.Some? && st.dest.Some?
    ensures SameSize(bin, st.dest.value)
  {
    var d := CopyInto(st.source.value, st.dest.value);
    d.(content := Binarized(d.content, InRange(low, high)))
  }

  /** The blob message counts every distinct label present in the label
      image, and among them those whose area reaches the minimum; the second
      never exceeds the first. A null working buffer labels nothing. */
  lemma {:induction false} BlobCounts(st: State, low: Byte, high: Byte, minArea: Int32, drawBox: bool, be: Backend)
    requires Valid(st) && st.source.Some?
    ensures var msg := Apply(st, BlobName, Some(BlobValues(low, high, minArea, drawBox)), be).1;
      && msg.BlobsFound?
      && msg.valid <= msg.total
      && (st.dest.None? ==> msg == BlobsFound(0, 0))
      && (st.dest.Some? ==>
            var labels := be.labels(BlobInput(st, low, high));
            && msg.total == |PresentLabels(labels)|
            && msg.valid == |LargeLabels(labels, minArea)|)
  {
    if st.dest.None? {
      return;
    }
    var bin := BlobInput(st, low, high);
    var labels := be.labels(bin);
    AccumulateInRaster(labels, bin.width, bin.height);
    QualifyingLarge(labels, bin.width, minArea);
    QualifyingAtMostAll(Accumulate(labels, bin.width, |labels|), minArea);
  }

  /** Raising the minimum area never increases the number of blobs reported. */
  lemma {:induction false} BlobCountMonotone(st: State, low: Byte, high: Byte, a1: Int32, a2: Int32, drawBox: bool, be: Backend)
    requires Valid(st) && st.source.Some? && a1 <= a2
    ensures Apply(st, BlobName, Some(BlobValues(low, high, a2, drawBox)), be).1.valid
         <= Apply(st, BlobName, Some(BlobValues(low, high, a1, drawBox)), be).1.valid
  {
    if st.dest.None? {
      return;
    }
    var bin := BlobInput(st, low, high);
    var labels := be.labels(bin);
    AccumulateInRaster(labels, bin.width, bin.height);
    QualifyingMonotone(Accumulate(labels, bin.width, |labels|), a1, a2);
  }
}
