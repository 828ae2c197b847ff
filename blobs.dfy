/** The blob statistics of `MilService.ProcessImage` (blob branch), as values.

    The raster pass visits the label image in row-major order; pixel `i` lies in
    column `i % width` and row `i / width`. Every non-zero label owns one
    accumulator holding its bounding box, its area and the sums of its pixels'
    coordinates. `Accumulate(labels, width, n)` is the dictionary after the
    first `n` pixels; the lemmas below say what it holds in terms of the label
    image alone. */
module Blobs {
  import opened Common

  /** A pixel of the 16-bit unsigned label image; 0 is background. */
  type Label = x: int | 0 <= x <= 65535

  /** Margin, in pixels, added around each drawn box. */
  const Padding: int := 5

  /** The fields of one `BlobInfo` accumulator. */
  datatype Blob = Blob(minX: int, maxX: int, minY: int, maxY: int, area: int, sumX: int, sumY: int)

  /** The accumulator created for a label's first pixel. */
  function Start(x: int, y: int): Blob
  {
    Blob(x, x, y, y, 1, x, y)
  }

  /** The accumulator after one more pixel of its label. */
  function Grow(b: Blob, x: int, y: int): Blob
  {
    Blob(if x < b.minX then x else b.minX,
         if x > b.maxX then x else b.maxX,
         if y < b.minY then y else b.minY,
         if y > b.maxY then y else b.maxY,
         b.area + 1, b.sumX + x, b.sumY + y)
  }

  /** One step of the raster pass: pixel `(x, y)` carries `lab`. */
  function Visit(m: map<int, Blob>, lab: int, x: int, y: int): map<int, Blob>
  {
    if lab <= 0 then m
    else if lab !in m then m[lab := Start(x, y)]
    else m[lab := Grow(m[lab], x, y)]
  }

  /** The dictionary after the first `n` pixels of the raster pass. */
  function Accumulate(labels: seq<Label>, width: nat, n: nat): map<int, Blob>
    requires n <= |labels| && (n == 0 || width > 0)
  {
    if n == 0 then map[]
    else Visit(Accumulate(labels, width, n - 1), labels[n - 1], (n - 1) % width, (n - 1) / width)
  }

  // ---------------------------------------------------------------------
  // Independent descriptions of a label's pixels
  // ---------------------------------------------------------------------

  /** Pixel `i`, among the first `n`, carries label `k`. */
  predicate IsPixel(labels: seq<Label>, n: nat, k: int, i: int)
  {
    0 <= i < n <= |labels| && labels[i] == k
  }

  /** Number of the first `n` pixels carrying label `k`. */
  function CountLabel(labels: seq<Label>, k: int, n: nat): nat
    requires n <= |labels|
  {
    if n == 0 then 0 else CountLabel(labels, k, n - 1) + (if labels[n - 1] == k then 1 else 0)
  }

  /** Sum of the columns of the first `n` pixels carrying label `k`. */
  function SumColumns(labels: seq<Label>, k: int, width: nat, n: nat): int
    requires n <= |labels| && (n == 0 || width > 0)
  {
    if n == 0 then 0
    else SumColumns(labels, k, width, n - 1) + (if labels[n - 1] == k then (n - 1) % width else 0)
  }

  /** Sum of the rows of the first `n` pixels carrying label `k`. */
  function SumRows(labels: seq<Label>, k: int, width: nat, n: nat): int
    requires n <= |labels| && (n == 0 || width > 0)
  {
    if n == 0 then 0
    else SumRows(labels, k, width, n - 1) + (if labels[n - 1] == k then (n - 1) / width else 0)
  }

  /** Number of the first `n` pixels that are not background. */
  function CountForeground(labels: seq<Label>, n: nat): nat
    requires n <= |labels|
  {
    if n == 0 then 0 else CountForeground(labels, n - 1) + (if labels[n - 1] > 0 then 1 else 0)
  }

  /** The invariant of every accumulator: a non-empty box whose area and
      coordinate sums are consistent with it. */
  predicate WellFormed(b: Blob)
  {
    && 0 <= b.minX <= b.maxX
    && 0 <= b.minY <= b.maxY
    && b.area >= 1
    && b.area * b.minX <= b.sumX <= b.area * b.maxX
    && b.area * b.minY <= b.sumY <= b.area * b.maxY
  }

  /** Pixel `i` of a raster `width` wide lies inside the box of `b`. */
  predicate InBox(b: Blob, width: nat, i: int)
    requires width > 0
  {
    b.minX <= i % width <= b.maxX && b.minY <= i / width <= b.maxY
  }

  /** The box of `b` is tight: each of its four edges touches a pixel of `k`. */
  ghost predicate Tight(labels: seq<Label>, width: nat, n: nat, k: int, b: Blob)
    requires width > 0
  {
    && (exists i :: IsPixel(labels, n, k, i) && i % width == b.minX)
    && (exists i :: IsPixel(labels, n, k, i) && i % width == b.maxX)
    && (exists i :: IsPixel(labels, n, k, i) && i / width == b.minY)
    && (exists i :: IsPixel(labels, n, k, i) && i / width == b.maxY)
  }

  /** One coordinate of `Grow`: the sum stays between `area * min` and
      `area * max` when a value is added and the bounds are widened to it. */
  lemma GrowBound(area: int, lo: int, hi: int, sum: int, v: int)
    requires area >= 1 && area * lo <= sum <= area * hi
    ensures var lo', hi' := (if v < lo then v else lo), (if v > hi then v else hi);
      (area + 1) * lo' <= sum + v <= (area + 1) * hi'
  {
    var lo', hi' := (if v < lo then v else lo), (if v > hi then v else hi);
    MulMono(lo', lo, area);
    MulMono(hi, hi', area);
    assert (area + 1) * lo' == area * lo' + lo';
    assert (area + 1) * hi' == area * hi' + hi';
  }

  lemma GrowWellFormed(b: Blob, x: int, y: int)
    requires WellFormed(b) && x >= 0 && y >= 0
    ensures WellFormed(Grow(b, x, y))
  {
    GrowBound(b.area, b.minX, b.maxX, b.sumX, x);
    GrowBound(b.area, b.minY, b.maxY, b.sumY, y);
  }

  /** `k`'s entry in `m` agrees with a count and two coordinate sums. */
  predicate EntryAgrees(m: map<int, Blob>, k: int, width: int, count: int, sx: int, sy: int)
  {
    && count >= 0
    && (k in m <==> k > 0 && count > 0)
    && (count == 0 ==> sx == 0 && sy == 0)
    && (k in m ==> m[k].area == count && m[k].sumX == sx && m[k].sumY == sy
                   && WellFormed(m[k]) && m[k].maxX < width)
  }

  /** One raster step keeps `k`'s entry in agreement with its pixels. */
  lemma VisitAgrees(m: map<int, Blob>, k: int, width: int, count: int, sx: int, sy: int,
                    lab: int, x: int, y: int)
    requires EntryAgrees(m, k, width, count, sx, sy) && 0 <= x < width && y >= 0
    ensures EntryAgrees(Visit(m, lab, x, y), k, width,
                        count + (if lab == k then 1 else 0),
                        sx + (if lab == k then x else 0),
                        sy + (if lab == k then y else 0))
  {
    if lab == k && k > 0 && k in m {
      GrowWellFormed(m[k], x, y);
    }
  }

  /** After the first `n` pixels, label `k` has an entry exactly when `k` is
      positive and some pixel carries it; that entry's area is the number of
      such pixels, its sums are the sums of their coordinates, and it is
      well formed. */
  lemma {:induction false} AccumulateStats(labels: seq<Label>, width: nat, n: nat, k: int)
    requires n <= |labels| && (n == 0 || width > 0)
    ensures k in Accumulate(labels, width, n) <==> k > 0 && CountLabel(labels, k, n) > 0
    ensures k in Accumulate(labels, width, n) ==>
      && Accumulate(labels, width, n)[k].area == CountLabel(labels, k, n)
      && Accumulate(labels, width, n)[k].sumX == SumColumns(labels, k, width, n)
      && Accumulate(labels, width, n)[k].sumY == SumRows(labels, k, width, n)
      && WellFormed(Accumulate(labels, width, n)[k])
      && Accumulate(labels, width, n)[k].maxX < width
  {
    AccumulateAgrees(labels, width, n, k);
  }

  lemma {:induction false} AccumulateAgrees(labels: seq<Label>, width: nat, n: nat, k: int)
    requires n <= |labels| && (n == 0 || width > 0)
    ensures EntryAgrees(Accumulate(labels, width, n), k, width, CountLabel(labels, k, n),
                        SumColumns(labels, k, width, n), SumRows(labels, k, width, n))
  {
    if n > 0 {
      AccumulateAgrees(labels, width, n - 1, k);
      VisitAgrees(Accumulate(labels, width, n - 1), k, width, CountLabel(labels, k, n - 1),
                  SumColumns(labels, k, width, n - 1), SumRows(labels, k, width, n - 1),
                  labels[n - 1], (n - 1) % width, (n - 1) / width);
    }
  }

  /** `a`'s box lies inside `b`'s box. */
  predicate BoxWithin(a: Blob, b: Blob)
  {
    b.minX <= a.minX && a.maxX <= b.maxX && b.minY <= a.minY && a.maxY <= b.maxY
  }

  /** Every pixel carrying `k` lies inside the box of `k`'s entry. */
  lemma {:induction false} AccumulateInBox(labels: seq<Label>, width: nat, n: nat, k: int, i: int)
    requires n <= |labels| && width > 0
    requires k in Accumulate(labels, width, n) && IsPixel(labels, n, k, i)
    ensures InBox(Accumulate(labels, width, n)[k], width, i)
  {
    var m := Accumulate(labels, width, n - 1);
    var x, y := (n - 1) % width, (n - 1) / width;
    var b := Accumulate(labels, width, n)[k];
    assert Accumulate(labels, width, n) == Visit(m, labels[n - 1], x, y);
    if i < n - 1 {
      AccumulateStats(labels, width, n - 1, k);
      CountPositive(labels, k, n - 1, i);
      AccumulateInBox(labels, width, n - 1, k, i);
      assert BoxWithin(m[k], b);
    } else {
      AccumulateStats(labels, width, n, k);
      assert i % width == x && i / width == y;
      if k in m {
        assert b == Grow(m[k], x, y);
      } else {
        assert b == Start(x, y);
      }
    }
  }

  /** The box of `k`'s entry is the smallest holding `k`'s pixels: each of its
      edges touches one of them. */
  lemma {:induction false} AccumulateTight(labels: seq<Label>, width: nat, n: nat, k: int)
    requires n <= |labels| && width > 0
    requires k in Accumulate(labels, width, n)
    ensures Tight(labels, width, n, k, Accumulate(labels, width, n)[k])
  {
    var m := Accumulate(labels, width, n - 1);
    var x, y := (n - 1) % width, (n - 1) / width;
    var b := Accumulate(labels, width, n)[k];
    assert Accumulate(labels, width, n) == Visit(m, labels[n - 1], x, y);
    if k !in m {
      assert IsPixel(labels, n, k, n - 1);
    } else {
      AccumulateTight(labels, width, n - 1, k);
      var a := m[k];
      var i0 :| IsPixel(labels, n - 1, k, i0) && i0 % width == a.minX;
      var i1 :| IsPixel(labels, n - 1, k, i1) && i1 % width == a.maxX;
      var i2 :| IsPixel(labels, n - 1, k, i2) && i2 / width == a.minY;
      var i3 :| IsPixel(labels, n - 1, k, i3) && i3 / width == a.maxY;
      assert IsPixel(labels, n, k, i0) && IsPixel(labels, n, k, i1);
      assert IsPixel(labels, n, k, i2) && IsPixel(labels, n, k, i3);
      if labels[n - 1] == k {
        assert IsPixel(labels, n, k, n - 1);
      }
    }
  }

  /** A pixel carrying `k` makes `k`'s count positive. */
  lemma {:induction false} CountPositive(labels: seq<Label>, k: int, n: nat, i: int)
    requires IsPixel(labels, n, k, i)
    ensures CountLabel(labels, k, n) > 0
  {
    if i < n - 1 {
      CountPositive(labels, k, n - 1, i);
    }
  }

  // ---------------------------------------------------------------------
  // Centroid, padded box and the drawing instructions of one blob
  // ---------------------------------------------------------------------

  /** Integer centre of gravity `(SumX / Area, SumY / Area)` with the C#
      `long` division, which truncates toward zero. */
  function Centroid(b: Blob): (int, int)
    requires b.area != 0
  {
    (Quot(b.sumX, b.area), Quot(b.sumY, b.area))
  }

  /** The centroid of a well-formed accumulator lies inside its box. */
  lemma CentroidInBox(b: Blob)
    requires WellFormed(b)
    ensures b.minX <= Centroid(b).0 <= b.maxX
    ensures b.minY <= Centroid(b).1 <= b.maxY
  {
    QuotBetween(b.sumX, b.area, b.minX, b.maxX);
    QuotBetween(b.sumY, b.area, b.minY, b.maxY);
  }

  /** The padded left or top edge: `v - Padding`, but never below 0. */
  function PadLow(v: int): (r: int)
    requires v >= 0
    ensures 0 <= r <= v
    ensures v - r <= Padding
    ensures r > 0 ==> v - r == Padding
  {
    if v > Padding then v - Padding else 0
  }

  /** The padded right or bottom edge: `v + Padding`, but never past the last
      pixel `limit - 1`. */
  function PadHigh(v: int, limit: int): (r: int)
    requires 0 <= v < limit
    ensures v <= r <= limit - 1
    ensures r - v <= Padding
    ensures r < limit - 1 ==> r - v == Padding
  {
    if v + Padding < limit then v + Padding else limit - 1
  }

  /** What is drawn for one qualifying blob: the padded box, the centroid
      dot and the text `(centerX, centerY, area)`. */
  datatype Mark = Mark(left: int, top: int, right: int, bottom: int, centerX: int, centerY: int, area: int)

  /** The drawing instructions of one blob in a `width` x `height` image. */
  function MarkOf(b: Blob, width: int, height: int): Mark
    requires WellFormed(b) && b.maxX < width && b.maxY < height
  {
    var c := Centroid(b);
    Mark(PadLow(b.minX), PadLow(b.minY), PadHigh(b.maxX, width), PadHigh(b.maxY, height), c.0, c.1, b.area)
  }

  /** The drawn box contains the blob's box and stays inside the image, and the
      drawn centre lies inside the blob's box. */
  lemma MarkInside(b: Blob, width: int, height: int)
    requires WellFormed(b) && b.maxX < width && b.maxY < height
    ensures var mk := MarkOf(b, width, height);
      && 0 <= mk.left <= b.minX && b.maxX <= mk.right <= width - 1
      && 0 <= mk.top <= b.minY && b.maxY <= mk.bottom <= height - 1
      && b.minX <= mk.centerX <= b.maxX && b.minY <= mk.centerY <= b.maxY
  {
    CentroidInBox(b);
  }

  // ---------------------------------------------------------------------
  // Filtering by area
  // ---------------------------------------------------------------------

  /** The labels whose blob is large enough: `Area >= MinArea`, inclusive. */
  function Qualifying(m: map<int, Blob>, minArea: int): set<int>
  {
    set k | k in m && m[k].area >= minArea
  }

  /** Never more qualifying blobs than blobs. */
  lemma QualifyingAtMostAll(m: map<int, Blob>, minArea: int)
    ensures |Qualifying(m, minArea)| <= |m|
  {
    SubsetCard(Qualifying(m, minArea), m.Keys);
  }

  /** Raising the minimum area never lets more blobs through. */
  lemma QualifyingMonotone(m: map<int, Blob>, low: int, high: int)
    requires low <= high
    ensures Qualifying(m, high) <= Qualifying(m, low)
    ensures |Qualifying(m, high)| <= |Qualifying(m, low)|
  {
    SubsetCard(Qualifying(m, high), Qualifying(m, low));
  }

  /** Every accumulator of the finished pass is well formed and inside the raster. */
  predicate AllWellFormed(m: map<int, Blob>, width: int, height: int)
  {
    forall k :: k in m ==> WellFormed(m[k]) && m[k].maxX < width && m[k].maxY < height
  }

  /** The drawing instructions of all qualifying blobs, one per label. */
  function Marks(m: map<int, Blob>, minArea: int, width: int, height: int): map<int, Mark>
    requires AllWellFormed(m, width, height)
  {
    map k | k in Qualifying(m, minArea) :: MarkOf(m[k], width, height)
  }
}
