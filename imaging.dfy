/** The image-processing backend, seen from the service: MIL buffers are
    values whose pixel content is the term of backend operations that
    produced it. The same operations on the same inputs give the same
    pixels; nothing else is assumed, in particular not the converse: two
    different terms may well stand for the same pixels. */
module Imaging {
  import opened Common
  import opened Blobs

  /** `MimBinarize` modes used by the service. */
  datatype BinarizeMode =
    | InRange(low: int, high: int)      // M_IN_RANGE, inclusive bounds
    | BimodalGreater                    // M_BIMODAL + M_GREATER, threshold chosen by the backend
    | FixedGreater(threshold: int)      // M_FIXED + M_GREATER

  /** Binary morphology operations. */
  datatype MorphOp = Erode | Dilate | Open | Close

  /** `MimConvolve` kernels. */
  datatype EdgeKernel = EdgeDetect | PrewittFast | LaplacianEdge

  /** `MimBinarizeAdaptive` conditions. */
  datatype Condition = Greater | Less

  /** Pixel content of a buffer, as the term that produced it. */
  datatype Content =
    | File(path: string)                                   // what `MbufRestore` read
    | RgbToLuma(of: Content)                               // `MimConvert(M_RGB_TO_L)`
    | FirstBand(of: Content)                               // `MbufCopy` into fewer bands
    | Clipped(src: Content, srcWidth: nat, srcHeight: nat, under: Content)
                                                           // `MbufCopy` between different sizes
    | Region(of: Content, x: int, y: int, w: int, h: int)  // copy of a child buffer
    | Binarized(of: Content, mode: BinarizeMode)
    | Morphed(of: Content, op: MorphOp, iterations: int)
    | Convolved(of: Content, kernel: EdgeKernel)
    | AdaptiveBinarized(of: Content, condition: Condition, window: int, offset: int)
    | Colorized(of: Content)                               // `MbufCopy` of a grey buffer into 3 bands
    | BlobOverlay(of: Content, marks: map<int, Mark>)      // boxes, dots and texts of the blob branch
    | GmfOverlay(of: Content, found: nat)                  // boxes, edges and crosses of the found models

  /** A MIL buffer: size, number of bands and pixel content. */
  datatype Image = Image(width: nat, height: nat, bands: nat, content: Content)

  /** WPF pixel formats produced for display. */
  datatype PixelFormat = Gray8 | Bgr24

  /** A display bitmap made from a buffer. */
  datatype Bitmap = Bitmap(format: PixelFormat, width: nat, height: nat, content: Content)

  /** State of the geometric model finder context. */
  datatype GmfContext = GmfContext(preprocessed: bool)

  /** `MimLabel` followed by `MbufGet`: one 16-bit label per pixel, row by row. */
  type Labeler = f: Image -> seq<Label> | forall img :: |f(img)| == img.width * img.height
    witness (img: Image) => seq(img.width * img.height, i => 0)

  /** What the backend library decides: file contents (`None` for a file
      `MbufRestore` cannot read), labelling and model finding. */
  datatype Backend = Backend(
    restore: string -> Option<Image>,
    labels: Labeler,
    find: (GmfContext, Content, real) -> nat)

  /** A buffer with the same size as another. */
  predicate SameSize(a: Image, b: Image)
  {
    a.width == b.width && a.height == b.height
  }

  /** The source is at least as large as the destination both ways, so a
      copy clipped to the destination reaches every destination pixel. */
  predicate Covers(src: Image, dst: Image)
  {
    src.width >= dst.width && src.height >= dst.height
  }

  /** `MbufCopy(src, dst)` between single-band buffers: `dst` keeps its size
      and receives `src`'s pixels, clipped to the overlap of the two when the
      sizes differ. A covering source fills `dst` with its own top-left
      window; otherwise the part of `dst` outside `src` keeps its pixels. */
  function CopyInto(src: Image, dst: Image): (r: Image)
    ensures SameSize(r, dst) && r.bands == dst.bands
    ensures SameSize(src, dst) ==> r.content == src.content
    ensures Covers(src, dst) && !SameSize(src, dst) ==>
      r.content == Region(src.content, 0, 0, dst.width, dst.height)
    ensures !Covers(src, dst) ==> r.content == Clipped(src.content, src.width, src.height, dst.content)
  {
    if SameSize(src, dst) then dst.(content := src.content)
    else if Covers(src, dst) then dst.(content := Region(src.content, 0, 0, dst.width, dst.height))
    else dst.(content := Clipped(src.content, src.width, src.height, dst.content))
  }

  /** A covering source overwrites the whole destination: the copy does not
      depend on what the destination held before. */
  lemma CopyOverwrites(src: Image, d1: Image, d2: Image)
    requires Covers(src, d1) && SameSize(d1, d2) && d1.bands == d2.bands
    ensures CopyInto(src, d1) == CopyInto(src, d2)
  {
  }

  /** `MbufCopy` into a freshly allocated grey buffer of the same size: for a
      grey source the copy is exact. */
  function ToGrey(img: Image): (r: Image)
    ensures SameSize(r, img) && r.bands == 1
    ensures img.bands == 1 ==> r == img
  {
    if img.bands == 1 then img else Image(img.width, img.height, 1, FirstBand(img.content))
  }

  /** `ConvertMilToBitmap`: no bitmap for a missing buffer or for a band count
      other than 1 (Gray8) or 3 (Bgr24). The pixels are kept as the buffer's
      content term; `DisplayBuffer.ToRaster` models the same conversion on
      the bytes, with the padded row layout. */
  function ToBitmap(img: Option<Image>): (r: Option<Bitmap>)
    ensures r.Some? <==> img.Some? && (img.value.bands == 1 || img.value.bands == 3)
    ensures r.Some? ==> r.value.width == img.value.width && r.value.height == img.value.height
                        && r.value.content == img.value.content
                        && (r.value.format == Gray8 <==> img.value.bands == 1)
  {
    match img
    case None => None
    case Some(i) =>
      if i.bands == 1 then Some(Bitmap(Gray8, i.width, i.height, i.content))
      else if i.bands == 3 then Some(Bitmap(Bgr24, i.width, i.height, i.content))
      else None
  }
}
