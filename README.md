# IndyVision image-processing core, modelled in Dafny

IndyVision is a WPF application for machine-vision experiments on top of the
Matrox Imaging Library (MIL). This project models the parts of it that are
independent of MIL and WPF, and proves what they promise:

- **The processing service** (`MilService`) holds these state variables:
  - a pristine single-band source buffer;
  - a working buffer;
  - the cached original and processed display bitmaps;
  - a model image and a model-finder context;
  - the model-definition flag.

  Every `ProcessImage` call first copies the source back into the working
  buffer and then dispatches on the algorithm name. `Pipeline` models this as
  pure transitions over a `State` value. `Service.MilService` is the same
  object with fields, and its methods are proved to perform those transitions.
  `PipelineLaws` proves the following about them:
  - the state invariant;
  - the "no image" answer;
  - that an unknown algorithm shows the source;
  - absence of drift, and idempotence;
  - the model-definition guard;
  - the counts in the blob message.
- **The blob statistics pass.**
  - `Blobs` specifies it as a fold over the row-major label image.
  - `BlobPass` is the pass itself: nested loops that create and update
    `BlobInfo` objects held in a dictionary.
  - `BlobSummary` is the loop over the dictionary that counts and draws the
    qualifying blobs.
  - `BlobBounds` proves the geometric bounds: area within the bounding box,
    total area, and one entry per present label.
- **The display conversion** (`ConvertMilToBitmap`, in `DisplayBuffer`). It
  rounds the stride up to a multiple of four and copies rows into a
  zero-filled array.
- **The viewport and the region of interest** (`MainWindow`).
  - `Viewport` holds the geometry over real numbers.
  - `Window.MainWindow` holds the gesture state machine.
- **The parameter objects** (`Parameters`). Their defaults are fixed, and
  their setters are equality-gated and raise one notification each.
- **The view model** (`ViewModel.MainViewModel`). It handles algorithm
  selection, parameter creation, the original/processed display switch,
  loading and applying.

The MIL library is an opaque backend.
- Buffer contents are terms of backend operations (`Imaging.Content`). The
  same operations on the same inputs give the same pixels. Nothing else is
  assumed about what an operation computes, in particular not that different
  terms give different pixels.
- File restoring, connected-component labelling and model finding are the
  three function fields of `Imaging.Backend`.
- The label image is an input: a sequence of 16-bit labels with one per
  pixel, row by row.
- MIL errors are silent: the service turns off error reporting
  (MilService.cs:90), so a call that fails returns without throwing, and a
  buffer it should have allocated stays null. Every operation is modelled by
  this one rule. A file that cannot be read, a zero-sized allocation and a
  call on a null buffer all fail this way, and `ConvertMilToBitmap` of a null
  buffer gives no bitmap (MilService.cs:601).

Two behaviours of the window's code that the model keeps as they are:
- Region drawing and panning are not exclusive. A middle-button press starts
  a pan while a region is being drawn, and a left press in a region mode
  starts a region while a pan is active. Moves then update the region only
  (MainWindow.xaml.cs:119, 134, 191, 221).
- The region survives crop and save. The code keeps `_currentRoiRect` and
  only hides its rectangle (MainWindow.xaml.cs:309, 331).

## Model

| member | source | states |
|---|---|---|
| Common.Quot | MilService.cs:221 | C# integer division truncates toward zero. For non-negative operands it equals Euclidean division, and quotient × divisor = dividend − remainder. |
| Common.ContainsWindow | MilService.cs:260-265 | `string.Contains` holds exactly when the needle occurs at some position of the string. |
| Blobs.GrowWellFormed | MilService.cs:368-377 | Updating a well-formed accumulator with a pixel keeps min ≤ max on both axes, area ≥ 1, and each sum between area·min and area·max. |
| Blobs.AccumulateStats | MilService.cs:351-381 | After any prefix of the raster, a label has an entry iff it is positive and occurs. The entry's area is the number of pixels carrying that label, and its sums are the sums of their column and row indices. Its max column is below the width, and the entry is well formed. |
| Blobs.AccumulateInBox | MilService.cs:363-377 | Every pixel carrying a label lies inside that label's bounding box. |
| Blobs.AccumulateTight | MilService.cs:363-377 | Each of the four box edges is touched by a pixel of the label, so the box is the least one. |
| Blobs.CentroidInBox | MilService.cs:420-421 | The integer centroid `SumX/Area`, `SumY/Area` lies within the bounding box. |
| Blobs.PadLow | MilService.cs:414-415 | The padded low edge lies in [0, v], at most 5 below v, and exactly 5 below unless it was clamped to 0. |
| Blobs.PadHigh | MilService.cs:416-417 | The padded high edge lies in [v, limit−1], at most 5 above v, and exactly 5 above unless it was clamped to limit−1. |
| Blobs.MarkInside | MilService.cs:404-421 | A drawn mark is within the image: 0 ≤ left ≤ minX, maxX ≤ right ≤ width−1, the same for y, and the drawn centre lies inside the blob's box. |
| Blobs.QualifyingAtMostAll | MilService.cs:403-410 | At most as many blobs qualify as there are blobs. |
| Blobs.QualifyingMonotone | MilService.cs:403-410 | Raising the minimum area gives a subset of the qualifying labels, and so never more of them. |
| BlobBounds.AreaWithinBox | MilService.cs:363-377 | A blob's area is at most (maxX−minX+1)·(maxY−minY+1). |
| BlobBounds.AccumulateInRaster | MilService.cs:351-381 | Over a width × height raster, every entry is well formed with its box inside the raster. |
| BlobBounds.TotalAreaAccumulate | MilService.cs:351-381 | The areas of all entries add up to the number of non-zero pixels. |
| BlobBounds.AccumulateKeys | MilService.cs:351-381 | After the whole raster, the labels with an entry are exactly the positive labels present in the image. |
| BlobBounds.QualifyingLarge | MilService.cs:403-410 | The qualifying labels are exactly the present labels with at least `MinArea` pixels. There are as many entries as present labels. |
| BlobPass.BlobInfo.constructor | MilService.cs:363 | A new accumulator is the one-pixel blob at (x, y). |
| BlobPass.BlobInfo.Add | MilService.cs:368-377 | The in-place update is the specification's `Grow` of the old value. |
| BlobPass.VisitPixel | MilService.cs:357-378 | One pixel of the loop: the dictionary's values afterwards are `Visit` of the values before. Distinct labels keep distinct objects, and new objects are fresh. |
| BlobPass.CollectBlobs | MilService.cs:351-381 | The nested raster loops leave a dictionary whose values equal `Accumulate` over the whole label array, each label owning its own object. |
| BlobSummary.Summarize | MilService.cs:400-446 | In any enumeration order, the counter equals the number of qualifying blobs. With boxes drawn, the marks are those of exactly the qualifying blobs, and none are drawn otherwise. |
| DisplayBuffer.PaddedStride | MilService.cs:619 | The padded stride, computed as (n + 3) − (n + 3) mod 4, which equals `(n + 3) & ~3` for n ≥ 0, is a multiple of 4, at least n and below n + 4. |
| DisplayBuffer.PaddedStrideLeast | MilService.cs:645 | No multiple of 4 that is at least n is below the padded stride. |
| DisplayBuffer.PaddedRows | MilService.cs:626-633 | In the padded array, byte c of row r is byte c of source row r for c < row length, and 0 in the padding. |
| DisplayBuffer.PaddedUnpadded | MilService.cs:622-625 | When the strides are equal, padding leaves the data as it is. |
| DisplayBuffer.CopyRows | MilService.cs:628-632 | The row-copy loop into a zero-initialised array produces exactly the padded layout. |
| DisplayBuffer.ToRaster | MilService.cs:599-666 | There is a bitmap iff there are 1 or 3 bands. Its stride is the padded one and its data the padded layout. Equal strides reuse `milData` itself; otherwise a fresh array is used. |
| Imaging.CopyInto | MilService.cs:174 | `MbufCopy` keeps the destination's size and bands. Between equal sizes it copies the source's pixels exactly. A source at least as large both ways fills the destination with its top-left window; otherwise only the overlap is overwritten and the rest keeps its pixels. |
| Imaging.CopyOverwrites | MilService.cs:174 | When the source covers the destination, the copy does not depend on the destination's old pixels. |
| Imaging.ToGrey | MilService.cs:140-143 | Copying into a single-band buffer keeps the size, and is exact for a single-band image. |
| Imaging.ToBitmap | MilService.cs:601-666 | A missing buffer or a band count other than 1 or 3 gives no bitmap. Otherwise the bitmap has the buffer's size and pixels, Gray8 exactly for one band. |
| Parameters.Notify | AlgorithmParameters.cs:23-26 | An assignment raises at most one event. It raises none iff the value is unchanged, and otherwise exactly one carrying the property's name. |
| Parameters.ThresholdParams.constructor | AlgorithmParameters.cs:33-57 | Defaults 128 and 255, no events. |
| Parameters.ThresholdParams.SetThresholdValue | AlgorithmParameters.cs:36-54 | Stores the value, leaves the other field alone, and raises `ThresholdValue` once iff the value changed. |
| Parameters.ThresholdParams.SetThresholdMax | AlgorithmParameters.cs:58-62 | As above, for `ThresholdMax`. |
| Parameters.MorphologyParams.constructor | AlgorithmParameters.cs:68-95 | Defaults 1, 3, "Erode", no events. |
| Parameters.MorphologyParams.SetIterations | AlgorithmParameters.cs:69-80 | Equality-gated store of `Iterations`, one event, other fields unchanged. |
| Parameters.MorphologyParams.SetKernelSize | AlgorithmParameters.cs:83-93 | The early-return form: the same promise for `KernelSize`. |
| Parameters.MorphologyParams.SetOperationMode | AlgorithmParameters.cs:96-107 | Equality-gated store of `OperationMode`. |
| Parameters.EdgeParams.constructor | AlgorithmParameters.cs:113-127 | Defaults "Sobel" and 25, no events. |
| Parameters.EdgeParams.SetMethod | AlgorithmParameters.cs:114-125 | Equality-gated store of `Method`. |
| Parameters.EdgeParams.SetSmoothness | AlgorithmParameters.cs:128-139 | Equality-gated store of `Smoothness`. |
| Parameters.AdaptiveThresholdParams.constructor | AlgorithmParameters.cs:145-175 | Defaults 35, 10, "Bright Ojbect (밝은 물체)", no events. |
| Parameters.AdaptiveThresholdParams.SetWindowSize | AlgorithmParameters.cs:146-157 | Equality-gated store of `WindowSize`. |
| Parameters.AdaptiveThresholdParams.SetOffset | AlgorithmParameters.cs:161-172 | Equality-gated store of `Offset`. |
| Parameters.AdaptiveThresholdParams.SetMode | AlgorithmParameters.cs:176-187 | Equality-gated store of `Mode`. |
| Parameters.BlobParams.constructor | AlgorithmParameters.cs:193-223 | Defaults 50, 200, 100, true, no events. |
| Parameters.BlobParams.SetThresholdMin | AlgorithmParameters.cs:194-198 | Equality-gated store of `ThresholdMin`. |
| Parameters.BlobParams.SetThresholdMax | AlgorithmParameters.cs:201-205 | Equality-gated store of `ThresholdMax`. |
| Parameters.BlobParams.SetMinArea | AlgorithmParameters.cs:209-220 | Equality-gated store of `MinArea`. |
| Parameters.BlobParams.SetDrawBox | AlgorithmParameters.cs:224-235 | Equality-gated store of `DrawBox`. |
| Parameters.RoiParams.constructor | AlgorithmParameters.cs:238-241 | No fields, no events. |
| Parameters.GmfParams.constructor | AlgorithmParameters.cs:247-261 | Defaults 50.0 and 60.0, no events. |
| Parameters.GmfParams.SetSmoothness | AlgorithmParameters.cs:248-257 | The early-return form for `Smoothness`. |
| Parameters.GmfParams.SetMinScore | AlgorithmParameters.cs:262-271 | The early-return form for `MinScore`. |
| Pipeline.Init | MilService.cs:67-71 | The new service has no image, a model-finder context, is not defining a model, and satisfies the invariant. |
| Pipeline.Wrap32 | MilService.cs:224 | C# `int` wrap-around: the result is in range, equals the input when the input is in range, and is congruent to it modulo 2^32. |
| Pipeline.KernelLoopsValue | MilService.cs:221-222 | The loop count is `(KernelSize−1)/2` for sizes ≥ 3 and 1 otherwise, for every size but `int.MinValue`, where `KernelSize − 1` wraps. |
| Pipeline.TotalIterationsValue | MilService.cs:224 | Without overflow, the total is `Iterations × kernelLoops`, which is at least `Iterations` for positive `Iterations`. |
| Pipeline.DefaultMorphologyIterations | MilService.cs:221-224 | The default parameters give one iteration. |
| Pipeline.EdgeKernelFor | MilService.cs:258-272 | Prewitt iff the name contains "Prewitt"; Laplacian iff it contains "Laplacian" and not "Prewitt"; the edge-detect kernel otherwise. |
| Pipeline.ConditionFor | MilService.cs:299 | The "greater" condition iff the mode contains "Bright". |
| Pipeline.DefaultSelections | MilService.cs:258-299 | The default edge method selects the edge-detect kernel, and the default mode selects bright objects. |
| Pipeline.SourceOf | MilService.cs:130-143 | The source made from a file is single-band and has the file's size. |
| PipelineLaws.OperationsKeepValid | MilService.cs:103-908 | Processing, loading, cropping, loading a model and training all keep the invariant. The invariant: the buffers are single-band, outside model definition a source has a working buffer of its size, and a source lacks a working buffer only during model definition. |
| PipelineLaws.ApplyFrame | MilService.cs:165-592 | Processing never changes the source, the original bitmap, the model, the context or the flag. The working buffer keeps its size and band count. |
| PipelineLaws.NoImageNoChange | MilService.cs:167 | Without a source, the answer is "이미지 없음." and nothing changes. |
| PipelineLaws.UnhandledShowsSource | MilService.cs:169-177 | Outside model definition, an unknown name, or a parameter object of the wrong kind, leaves the working buffer equal to the source, shows it, and answers "Processing Complete". |
| PipelineLaws.NoDrift | MilService.cs:174 | Two states with the same source and flags, whose working buffers have one size that the source covers (or are both null), give the same answer and working buffer, whatever earlier runs left behind. The bitmap also agrees, except on the model finder's early answers. |
| PipelineLaws.ApplyIdempotent | MilService.cs:165-592 | From a state whose working buffer the source covers, or is null, running the same algorithm twice equals running it once. |
| PipelineLaws.DefinitionReadsLastRun | MilService.cs:758-762 | In model definition with a working buffer wider or taller than the source, each morphology run starts from the source laid over the previous run's output, so earlier runs can show through. |
| PipelineLaws.LoadModelEntersDefinition | MilService.cs:744-766 | Loading a model always sets the flag, allocates a new context and stores what was read. A readable model gets a working buffer of its size, shown as the processed bitmap. An unreadable one leaves no model, no working buffer and no processed bitmap, after which processing shows nothing. The source and the original bitmap are kept either way. |
| PipelineLaws.FindDuringDefinition | MilService.cs:475 | During model definition, a model-finder run answers that training is pending and keeps the bitmap on screen. |
| PipelineLaws.TrainEndsDefinition | MilService.cs:873-908 | Training clears the flag and preprocesses the context, and the source is back in the working buffer and on screen. The next model-finder run reports exactly what the backend finds. |
| PipelineLaws.LoadShowsFile | MilService.cs:103-161 | After loading, the source and the working buffer are the same grey image of the file's size, and both bitmaps show it. A grey file is taken as it is; a colour file is converted to luminance. A file that cannot be read leaves no source, no working buffer and no bitmaps, and processing answers "no image". |
| PipelineLaws.CropResult | MilService.cs:687-719 | A crop with pixels makes a w × h region both source and working buffer, shown in both bitmaps. A crop without pixels loses both buffers and both bitmaps. |
| PipelineLaws.BlobInput | MilService.cs:320-325 | The buffer that is labelled has the working buffer's size. |
| PipelineLaws.BlobCounts | MilService.cs:403-450 | The blob message's total is the number of distinct labels present. Its valid count is the number of those with at least `MinArea` pixels, and valid ≤ total. A null working buffer reports 0 of 0. |
| PipelineLaws.BlobCountMonotone | MilService.cs:403-410 | Raising `MinArea` never increases the valid count. |
| Service.MilService.constructor | MilService.cs:67-71 | The fields hold the initial state. |
| Service.MilService.OriginalImage | MilService.cs:595 | Returns the cached original bitmap. |
| Service.MilService.ProcessedImage | MilService.cs:596 | Returns the cached processed bitmap. |
| Service.MilService.LoadImage | MilService.cs:103-161 | The fields afterwards are `Load` of the fields before: the buffers are freed first, and an unreadable file leaves them and both bitmaps null. |
| Service.MilService.ProcessImage | MilService.cs:165-592 | The new fields and the answer are `Apply` of the old fields. |
| Service.MilService.BlobPassOf | MilService.cs:327-452 | The array pass followed by the summary loop produces the processed bitmap and message of the specification's blob branch. |
| Service.MilService.CropImage | MilService.cs:687-719 | The fields afterwards are `Crop` of the fields before. |
| Service.MilService.SaveRoiImage | MilService.cs:722-741 | Exports a w × h region of the source iff there is a source and the region has pixels; changes nothing. |
| Service.MilService.LoadGmfModelImage | MilService.cs:744-766 | The fields afterwards are `LoadModel` of the fields before, including the null model and working buffer an unreadable file leaves. |
| Service.MilService.TrainGmfModel | MilService.cs:873-908 | The fields afterwards are `Train` of the fields before. |
| Viewport.ScreenImageInverse | MainWindow.xaml.cs:277-280 | Mapping image → screen and screen → image are inverse to each other. |
| Viewport.FitScale | MainWindow.xaml.cs:73-81 | The fitted scale is positive and at most 0.95, and the scaled image fits the border both ways. |
| Viewport.FitScaleTight | MainWindow.xaml.cs:73-81 | The scale is the cap 0.95, or the image fills 95% of the border's width or height. |
| Viewport.FitCentred | MainWindow.xaml.cs:84-88 | Both scales are equal, and the margins are non-negative and equal on opposite sides. |
| Viewport.FitExample | MainWindow.xaml.cs:73-88 | An 800 × 600 border and a 400 × 300 image give scale 0.95 and translation (210, 157.5). |
| Viewport.ZoomFactor | MainWindow.xaml.cs:106 | 1.2 for a forward wheel; otherwise the factor whose product with 1.2 is 1. |
| Viewport.ZoomAnchored | MainWindow.xaml.cs:101-113 | The image point under the cursor is the same before and after a zoom. |
| Viewport.ZoomInThenOut | MainWindow.xaml.cs:106-112 | Zooming in and then out at the same point restores the view. |
| Viewport.PanFollowsCursor | MainWindow.xaml.cs:136-139 | Returning to the press point restores the translation, and the image point grabbed at the press stays under the cursor. |
| Viewport.Normalize | MainWindow.xaml.cs:267-273 | The stored rectangle never has negative width or height. |
| Viewport.NormalizeSpans | MainWindow.xaml.cs:267-273 | The rectangle is symmetric in its two points and spans exactly from the lesser to the greater of each coordinate. |
| Viewport.OnScreenCorners | MainWindow.xaml.cs:277-295 | The drawn rectangle's corners are the screen images of the region's corners. |
| Viewport.Clamp | MainWindow.xaml.cs:125-128 | The clamped end point lies in [0, W] × [0, H], and a point already there is unchanged. |
| Viewport.DragWithin | MainWindow.xaml.cs:119-131 | A drag that starts inside the image and has a clamped end point gives a rectangle within the image. |
| Viewport.Trunc | MainWindow.xaml.cs:306 | The `(int)` cast truncates toward zero. |
| Viewport.TruncAdd | MainWindow.xaml.cs:306 | Truncating two non-negative parts never exceeds truncating their sum. |
| Viewport.RegionOf | MainWindow.xaml.cs:300-306 | The corrected guard passes only regions at least one pixel wide and high. |
| Viewport.RegionAsWritten | MainWindow.xaml.cs:300-306 | The guard as written passes a rectangle iff its real width and height are positive, and the extents it passes are their truncations, possibly 0. |
| Viewport.RegionAsWrittenEmpty | MainWindow.xaml.cs:300-306 | A 0.5 × 10 rectangle passes the guard as written as a region 0 pixels wide. |
| Viewport.RegionOfWithin | MainWindow.xaml.cs:300-328 | For a rectangle within the image, the corrected guard passes exactly those at least one pixel each way, and the region it passes lies inside the image. Where both guards pass, they agree. |
| Window.MainWindow.constructor | MainWindow.xaml.cs:12-24 | Identity transform, no gesture, an empty region. |
| Window.MainWindow.FitImageToScreen | MainWindow.xaml.cs:53-96 | No change without an image or with a zero extent; otherwise the transform is `Fit`. |
| Window.MainWindow.MouseWheel | MainWindow.xaml.cs:101-113 | Without an image nothing changes; otherwise the view is `Zoom` of the old view at the cursor. |
| Window.MainWindow.UpdateRoiVisual | MainWindow.xaml.cs:265-296 | Stores the normalised rectangle and returns its on-screen rectangle. |
| Window.MainWindow.MouseDown | MainWindow.xaml.cs:186-238 | In a region mode, with the left button and an image: a press inside the image starts a region there, lying within the image, and keeps the pan state and the view; a press outside does nothing. Otherwise a middle press with an image starts a pan from the current translation and keeps the region state, and any other press does nothing. A region within the image stays within it. |
| Window.MainWindow.MouseMove | MainWindow.xaml.cs:115-140 | While drawing, the region follows the clamped cursor and the view does not move. Otherwise a pan moves the translation with the cursor. A region that lay within the image before the move still does after it. |
| Window.MainWindow.MouseUp | MainWindow.xaml.cs:240-262 | Any release ends a region; only a middle release ends a pan. |
| Window.MainWindow.CropRegion | MainWindow.xaml.cs:298-334 | The crop and save items pass the corrected guard's region, at least one pixel each way. |
| Window.ThinRoiLosesImage | MainWindow.xaml.cs:300-306 | As written, a 0.5-pixel-wide rectangle reaches the service as a zero-width crop, whose buffers cannot be allocated, so the service loses its image. |
| Window.CorrectedCropKeepsImage | MilService.cs:687-719 | Through the corrected guard, a crop keeps an image of the region's size. |
| ViewModel.DefaultsFor | MainViewModel.cs:117-139 | Only the Threshold, Adaptive Threshold, Morphology and Edge Detection names get parameters. |
| ViewModel.DefaultsMatchBranches | MainViewModel.cs:117-139 | Each of the four names gets the kind of parameters its processing branch handles. "Gray 처리", blob analysis and the model finder get none, so they are processed as unknown algorithms. |
| ViewModel.MainViewModel.constructor | MainViewModel.cs:19-37 | A new service, and the five names in the listed order. |
| ViewModel.MainViewModel.SetSelectedAlgorithm | MainViewModel.cs:87-101 | Stores the name and replaces the parameters with fresh objects holding the defaults for that name, so nothing carries over. The algorithm list and the display are kept. |
| ViewModel.MainViewModel.CreateParametersForAlgorithm | MainViewModel.cs:117-139 | The new parameters are fresh and hold `DefaultsFor(name)`. |
| ViewModel.MainViewModel.UpdateDisplay | MainViewModel.cs:143-151 | Displays the original bitmap iff `ShowOriginal`, and the processed one otherwise. |
| ViewModel.MainViewModel.SetShowOriginal | MainViewModel.cs:61-75 | Switches the display between the cached bitmaps only; the service is not modified. |
| ViewModel.MainViewModel.LoadImage | MainViewModel.cs:159-173 | A cancelled dialog changes nothing. A chosen file is loaded and the original is displayed with `ShowOriginal` set; nothing is displayed exactly when the file cannot be read. The algorithm list, the selection and the parameters are kept. |
| ViewModel.MainViewModel.ApplyAlgorithm | MainViewModel.cs:176-190 | Without a selected name nothing happens. Otherwise the service performs `Apply` once with the current parameters, and the processed image is displayed with `ShowOriginal` cleared. The algorithm list, the selection and the parameters are kept. |

## Left out

- The MIL primitives are free constructors of `Imaging.Content`, or the fields
  of `Imaging.Backend`: binarisation, morphology, convolution, adaptive
  thresholding, labelling, model finding, drawing and `MbufRestore`. Their
  pixel results are not modelled.
- Buffer lifetime (`FreeImages`, `Cleanup`, `MbufFree`) and the allocation
  handles are not modelled; a null buffer is `None`. `MbufChild2d` with a
  region partly outside the image is modelled only through the opaque
  `Region` content.
- The model finder's configuration (`MmodControl` calls) is left out. So are
  its scores, the drawing of found models, and `PreviewGmfModel`. Only the
  model-definition flag, the context's preprocessed state and the number found
  are kept.
- `TrainGmfModel` takes a `GmfParams` argument that its active code never
  reads, so the model's method takes none.
- `Service.MilService.SaveRoiImage` returns the exported region instead of
  writing a file. The file path and the format chosen by the extension are
  I/O.
- The WPF mechanics are not modelled:
  - `BitmapSource.Create`, DPI, layout updates and dispatcher scheduling;
  - mouse capture, cursors and visibility;
  - the mouse-coordinate text and the file dialogs. A dialog's answer is a
    parameter.
- Subscribers to `PropertyChanged` are not modelled. Events are recorded as
  the list of property names raised.
- `ProcessImage`'s returned text is the `Pipeline.Message` datatype. The Korean
  wording appears only in comments, and the model finder's score is a `real`.
- Floating point: the viewport geometry is proved over real numbers. The
  rounding of the `double` arithmetic is not modelled.
- Viewport.Trunc: does not model the unspecified result of casting a `double`
  outside the `int` range. The rectangles reaching it lie within the image.
- Pipeline.KernelLoops: the multiplication `Iterations * kernelLoops` wraps
  around as a C# `int` (`Wrap32`) rather than being excluded. A
  `totalIterations` that is zero or negative is passed to the opaque
  morphology term as it is.
- BlobSummary.Summarize: the loop reads the accumulators' values, taken once
  from the dictionary's `BlobInfo` objects by `BlobPass.Snapshot`, rather than
  the objects themselves. Nothing changes them during the loop, so the values
  read are the same.
- Blob coordinates are `long` in the source and unbounded integers here. No
  overflow is possible for images whose pixel count fits in memory.
- `MainWindow.xaml.cs` calls `CropImage` and `SaveRoiImage` on the view model.
  `MainViewModel.cs` in this repository does not define them, so the window's
  crop and save items are modelled as returning the region they hand on.
  The crop item then re-fits the view (MainWindow.xaml.cs:311); that call is
  not modelled.
- Window.MainWindow.CropRegion: returns the region of the corrected guard
  (`Viewport.RegionOf`), not the one the code passes. The code passes
  `Viewport.RegionAsWritten`, which lets a region under one pixel wide or
  high through as zero (see "## Findings").
- The `try`/`catch` in `LoadImage` (MilService.cs:110-160) never sees an
  exception from MIL, whose errors are silent, and so is not modelled.
- PipelineLaws.UnhandledShowsSource: holds outside model definition only.
  During definition the working buffer has the model's size
  (MilService.cs:758-762). The reset copy at MilService.cs:174 fills it
  with the source's top-left window, or only partly when the model is
  wider or taller than the source; either way it is not the source.
- PipelineLaws.NoDrift: holds only when the source covers both working
  buffers, which have one size. Outside model definition the invariant
  guarantees this. During definition a model wider or taller than the source
  (MilService.cs:758-762) is only partly overwritten by the reset at
  MilService.cs:174, so earlier runs can show through;
  `PipelineLaws.DefinitionReadsLastRun` states how.
- PipelineLaws.ApplyIdempotent: holds only when the source covers the
  working buffer, for the same reason as `NoDrift`.
- Parameters.GmfParams.SetSmoothness: the `double` properties are `real`
  here. A NaN, for which `==` is false even against itself, would store and
  raise an event on every assignment (AlgorithmParameters.cs:253, 267). The
  model has no NaN.
- Window.MainWindow.MouseMove: requires an image while a region is drawn.
  The code reads the bitmap's size at MainWindow.xaml.cs:127 without a null
  check, so it would throw there. A region can only be started on an image.
- The mouse-coordinate display (MainWindow.xaml.cs:153-178) is a
  presentation detail, and is left out.

## Findings

| source | as written | input that shows it | evidently intended | confidence | as-written member | corrected member |
|---|---|---|---|---|---|---|
| MainWindow.xaml.cs:300-306 | The crop and save guards test the `double` width and height of the region for `<= 0`, then pass their `(int)` truncations. | A region 0.5 wide and 10 high (easily drawn while zoomed in) passes the guard. It calls `CropImage(0, 0, 0, 10)`, which cannot allocate a zero-width buffer, and, MIL errors being silent, the service is left with no source, working buffer or bitmaps. The region is drawn only when the selected algorithm's name contains "ROI", which no entry of this build's algorithm list does. | Only a region at least one whole pixel wide and high reaches the service. | low, not executed | Window.ThinRoiLosesImage | Viewport.RegionOfWithin |
