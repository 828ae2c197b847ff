/** The imperative blob pass of `MilService.ProcessImage`: nested loops over
    the label image that create and update `BlobInfo` objects held in a
    dictionary, then a loop over the dictionary's values that counts the blobs
    large enough and computes what is drawn for each. Both are proved against
    the value-level specification in `Blobs`. */
module BlobPass {
  import opened Common
  import opened Blobs
  import opened BlobBounds

  /** The mutable accumulator of one label. */
  class BlobInfo {
    var minX: int
    var maxX: int
    var minY: int
    var maxY: int
    var area: int
    var sumX: int
    var sumY: int

    /** The object initialiser used for a label's first pixel. */
    constructor(x: int, y: int)
      ensures Value() == Start(x, y)
    {
      minX, maxX, minY, maxY, area, sumX, sumY := x, x, y, y, 1, x, y;
    }

    /** One more pixel `(x, y)` of the label: the updates of the existing
        entry, in the order the raster loop performs them. */
    method Add(x: int, y: int)
      modifies this
      ensures Value() == Grow(old(Value()), x, y)
    {
      area := area + 1;
      sumX := sumX + x;
      sumY := sumY + y;
      if x < minX { minX := x; }
      if x > maxX { maxX := x; }
      if y < minY { minY := y; }
      if y > maxY { maxY := y; }
    }

    /** The accumulator's fields as a value. */
    function Value(): Blob
      reads this
    {
      Blob(minX, maxX, minY, maxY, area, sumX, sumY)
    }
  }

  /** The dictionary's accumulators as values. */
  function Snapshot(blobs: map<int, BlobInfo>): map<int, Blob>
    reads blobs.Values
  {
    map k | k in blobs :: blobs[k].Value()
  }

  /** Different labels own different accumulator objects. */
  predicate Distinct(blobs: map<int, BlobInfo>)
  {
    forall a, b :: a in blobs && b in blobs && a != b ==> blobs[a] != blobs[b]
  }

  /** The body of the raster loops for one foreground or background pixel:
      a new label gets a new accumulator, a known label has its accumulator
      updated in place. */
  method VisitPixel(blobs: map<int, BlobInfo>, lab: int, x: int, y: int) returns (r: map<int, BlobInfo>)
    requires Distinct(blobs)
    modifies blobs.Values
    ensures Distinct(r)
    ensures forall o :: o in r.Values ==> o in blobs.Values || fresh(o)
    ensures Snapshot(r) == Visit(old(Snapshot(blobs)), lab, x, y)
  {
    ghost var before := Snapshot(blobs);
    r := blobs;
    if lab > 0 {
      if lab !in blobs {
        var created := new BlobInfo(x, y);
        r := blobs[lab := created];
        assert Snapshot(r) == before[lab := Start(x, y)];
      } else {
        var info := blobs[lab];
        ghost var b := info.Value();
        info.Add(x, y);
        ghost var after := Snapshot(blobs);
        forall k | k in blobs
          ensures after[k] == before[lab := Grow(b, x, y)][k]
        {
          if k != lab {
            assert blobs[k] != info;
          }
        }
        assert after == before[lab := Grow(b, x, y)];
      }
    }
  }

  /** The raster loops: visit pixel `(x, y)` at index `y * width + x`, create
      an accumulator for a new label and update the existing one otherwise.
      The dictionary ends equal to the specification `Accumulate`. */
  method CollectBlobs(labelData: array<Label>, width: nat, height: nat) returns (blobs: map<int, BlobInfo>)
    requires labelData.Length == width * height
    ensures Distinct(blobs)
    ensures forall o :: o in blobs.Values ==> fresh(o)
    ensures Snapshot(blobs) == Accumulate(labelData[..], width, labelData.Length)
  {
    ghost var labels := labelData[..];
    ghost var rowStart := 0;
    blobs := map[];
    var y := 0;
    while y < height
      invariant 0 <= y <= height && rowStart == y * width
      invariant Distinct(blobs)
      invariant forall o :: o in blobs.Values ==> fresh(o)
      invariant Snapshot(blobs) == Accumulate(labels, width, rowStart)
    {
      RowFits(y, width, height);
      var x := 0;
      while x < width
        invariant 0 <= x <= width && rowStart + x <= |labels|
        invariant Distinct(blobs)
        invariant forall o :: o in blobs.Values ==> fresh(o)
        invariant Snapshot(blobs) == Accumulate(labels, width, rowStart + x)
      {
        PixelIndex(y, x, width, height);
        var index := y * width + x;
        var lab := labelData[index];
        blobs := VisitPixel(blobs, lab, x, y);
        x := x + 1;
      }
      NextRow(y, width);
      rowStart := rowStart + width;
      y := y + 1;
    }
    NextRow(height, width);
  }

  lemma RowFits(y: nat, width: nat, height: nat)
    requires y < height
    ensures y * width + width <= width * height
  {
    MulMono(y + 1, height, width);
  }

  lemma NextRow(y: nat, width: nat)
    ensures (y + 1) * width == y * width + width && y * width == width * y
  {
  }

  /** Pixel `(x, y)` of a `width` x `height` raster sits at index
      `y * width + x`, inside the raster, in column `x` of row `y`. */
  lemma PixelIndex(y: nat, x: nat, width: nat, height: nat)
    requires x < width && y < height
    ensures 0 <= y * width + x < width * height
    ensures (y * width + x) % width == x && (y * width + x) / width == y
  {
    RowMajor(y, x, width);
    RowMajorBound(y, x, width, height);
  }

  /** The snapshot has an entry for every label of the dictionary. */
  lemma SnapshotKeys(blobs: map<int, BlobInfo>)
    ensures Snapshot(blobs).Keys == blobs.Keys
  {
  }
}
