/** `MilService.ConvertMilToBitmap`: turning the pixels of a MIL buffer into the
    byte array of a WPF bitmap. MIL hands rows of exactly `width * bands`
    bytes; a WPF bitmap wants every row to start on a 4-byte boundary, so each
    row is copied into a zero-initialised array whose stride is rounded up. */
module DisplayBuffer {
  import opened Common
  import opened Imaging

  /** The source clears the two low bits of `n + 3` with `(n + 3) & ~3`.
      Here the same stride is computed arithmetically; for `n >= 0` the two
      agree, giving the least multiple of 4 that is at least `n`. */
  function PaddedStride(n: nat): (s: nat)
    ensures s % 4 == 0 && n <= s < n + 4
  {
    (n + 3) - (n + 3) % 4
  }

  /** No smaller multiple of 4 holds a row of `n` bytes. */
  lemma PaddedStrideLeast(n: nat, m: int)
    requires m % 4 == 0 && m >= n
    ensures PaddedStride(n) <= m
  {
  }

  /** Position of column `c` of row `r` in rows of `stride` bytes. */
  function Index(r: int, c: int, stride: int): int
  {
    r * stride + c
  }

  /** The padded bytes after the first `rows` rows have been copied: byte `c`
      of row `r` is byte `c` of source row `r` when `r < rows` and
      `c < rowLen`, and 0 everywhere else. */
  function Filled(src: seq<Byte>, rowLen: nat, stride: nat, height: nat, rows: nat): (r: seq<Byte>)
    requires rowLen <= stride && |src| == rowLen * height
    ensures |r| == stride * height
  {
    seq(stride * height, i requires 0 <= i < stride * height =>
      ProductPositive(i, stride, height);
      if i / stride < rows && i % stride < rowLen then (RowBelowHeight(i, stride, height);
                                   RowMajorBound(i / stride, i % stride, rowLen, height);
                                   src[Index(i / stride, i % stride, rowLen)])
      else 0)
  }

  /** Before any row is copied, every byte is 0. */
  lemma FilledNone(src: seq<Byte>, rowLen: nat, stride: nat, height: nat)
    requires rowLen <= stride && |src| == rowLen * height
    ensures Filled(src, rowLen, stride, height, 0) == seq(stride * height, i => 0)
  {
  }

  /** The bitmap bytes: every source row, padded with zeros to `stride`. */
  function Padded(src: seq<Byte>, rowLen: nat, stride: nat, height: nat): (r: seq<Byte>)
    requires rowLen <= stride && |src| == rowLen * height
    ensures |r| == stride * height
  {
    Filled(src, rowLen, stride, height, height)
  }

  /** `Array.Copy` of source row `y` to the start of row `y` of `d`. */
  function CopyRow(d: seq<Byte>, src: seq<Byte>, y: nat, rowLen: nat, stride: nat): (r: seq<Byte>)
    requires y * stride + rowLen <= |d| && y * rowLen + rowLen <= |src|
    ensures |r| == |d|
  {
    seq(|d|, j requires 0 <= j < |d| =>
      if y * stride <= j < y * stride + rowLen then src[y * rowLen + (j - y * stride)] else d[j])
  }

  /** Copying row `y` extends the filled rows by one. */
  lemma CopyRowStep(src: seq<Byte>, rowLen: nat, stride: nat, height: nat, y: nat)
    requires rowLen <= stride && |src| == rowLen * height && y < height
    ensures y * stride + rowLen <= stride * height && y * rowLen + rowLen <= |src|
    ensures CopyRow(Filled(src, rowLen, stride, height, y), src, y, rowLen, stride)
            == Filled(src, rowLen, stride, height, y + 1)
  {
    MulMono(y + 1, height, stride);
    MulMono(y + 1, height, rowLen);
    var before := Filled(src, rowLen, stride, height, y);
    var after := Filled(src, rowLen, stride, height, y + 1);
    var copied := CopyRow(before, src, y, rowLen, stride);
    forall i | 0 <= i < stride * height
      ensures copied[i] == after[i]
    {
      var r, c := i / stride, i % stride;
      assert i == r * stride + c;
      if r < y {
        MulMono(r + 1, y, stride);
      } else if r > y {
        MulMono(y + 1, r, stride);
      }
    }
  }

  /** Row by row, the padded bytes hold the source row followed by zeros. */
  lemma PaddedRows(src: seq<Byte>, rowLen: nat, stride: nat, height: nat, r: nat, c: nat)
    requires rowLen <= stride && |src| == rowLen * height
    requires r < height && c < stride
    ensures 0 <= Index(r, c, stride) < stride * height
    ensures c < rowLen ==> 0 <= Index(r, c, rowLen) < |src|
    ensures Padded(src, rowLen, stride, height)[Index(r, c, stride)] ==
      if c < rowLen then src[Index(r, c, rowLen)] else 0
  {
    RowMajorBound(r, c, stride, height);
    RowMajor(r, c, stride);
    if c < rowLen {
      RowMajorBound(r, c, rowLen, height);
    }
  }

  /** When no padding is needed the source bytes are the bitmap bytes. */
  lemma PaddedUnpadded(src: seq<Byte>, rowLen: nat, height: nat)
    requires |src| == rowLen * height
    ensures Padded(src, rowLen, rowLen, height) == src
  {
    var p := Padded(src, rowLen, rowLen, height);
    forall i | 0 <= i < |src|
      ensures p[i] == src[i]
    {
      ProductPositive(i, rowLen, height);
      RowBelowHeight(i, rowLen, height);
      assert Index(i / rowLen, i % rowLen, rowLen) == i;
    }
  }

  /** A WPF bitmap's pixel array: format, size, row stride and bytes. */
  datatype Raster = Raster(format: PixelFormat, width: nat, height: nat, stride: nat, data: array<Byte>)

  /** `ConvertMilToBitmap` once `MbufGet` has delivered `milData`, the
      `bands`-band buffer's `width * bands * height` bytes. `Imaging.ToBitmap`
      models the same conversion on content terms, without the byte layout. */
  method ToRaster(milData: array<Byte>, width: nat, height: nat, bands: nat) returns (r: Option<Raster>)
    requires bands == 1 || bands == 3 ==> milData.Length == width * bands * height
    ensures r.Some? <==> bands == 1 || bands == 3
    ensures r.Some? ==>
      && r.value.format == (if bands == 1 then Gray8 else Bgr24)
      && r.value.width == width && r.value.height == height
      && r.value.stride == PaddedStride(width * bands)
      && r.value.data[..] == Padded(milData[..], width * bands, r.value.stride, height)
    ensures r.Some? && r.value.stride == width * bands ==> r.value.data == milData
    ensures r.Some? && r.value.stride != width * bands ==> fresh(r.value.data)
  {
    if bands != 1 && bands != 3 {
      return None;
    }
    var milStride := width * bands;
    var wpfStride := PaddedStride(milStride);
    var format := if bands == 1 then Gray8 else Bgr24;
    if milStride == wpfStride {
      PaddedUnpadded(milData[..], milStride, height);
      return Some(Raster(format, width, height, wpfStride, milData));
    }
    var wpfData := CopyRows(milData, milStride, wpfStride, height);
    return Some(Raster(format, width, height, wpfStride, wpfData));
  }

  /** The row loop: a zero-filled array of `stride * height` bytes receives
      each source row of `rowLen` bytes (`Array.Copy`) at the start of its row. */
  method CopyRows(src: array<Byte>, rowLen: nat, stride: nat, height: nat) returns (dst: array<Byte>)
    requires rowLen <= stride && src.Length == rowLen * height
    ensures fresh(dst)
    ensures dst[..] == Padded(src[..], rowLen, stride, height)
  {
    ghost var pixels := src[..];
    dst := new Byte[stride * height](i => 0);
    FilledNone(pixels, rowLen, stride, height);
    var y := 0;
    while y < height
      invariant 0 <= y <= height
      invariant dst[..] == Filled(pixels, rowLen, stride, height, y)
    {
      CopyRowStep(pixels, rowLen, stride, height, y);
      ghost var before := dst[..];
      var dstRow, srcRow := y * stride, y * rowLen;
      forall k | 0 <= k < rowLen {
        dst[dstRow + k] := src[srcRow + k];
      }
      assert dst[..] == CopyRow(before, pixels, y, rowLen, stride);
      y := y + 1;
    }
  }
}
