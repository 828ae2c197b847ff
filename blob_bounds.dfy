/** Global facts about the blob dictionary of the raster pass: a blob never
    has more pixels than its bounding box holds, the accumulators stay inside
    the raster, and the areas of all blobs add up to the number of foreground
    pixels. */
module BlobBounds {
  import opened Common
  import opened Blobs

  /** Number of the first `n` pixels of a raster `width` wide lying in `b`'s box. */
  function CountInBox(b: Blob, width: nat, n: nat): nat
    requires width > 0
  {
    if n == 0 then 0 else CountInBox(b, width, n - 1) + (if InBox(b, width, n - 1) then 1 else 0)
  }

  /** Number of `t` in `[0, j)` with `lo <= t <= hi`. */
  function CountBetween(lo: int, hi: int, j: nat): nat
  {
    if j == 0 then 0 else CountBetween(lo, hi, j - 1) + (if lo <= j - 1 <= hi then 1 else 0)
  }

  lemma {:induction false} CountBetweenValue(lo: int, hi: int, j: nat)
    requires 0 <= lo <= hi
    ensures CountBetween(lo, hi, j) == if j <= lo then 0 else if j <= hi + 1 then j - lo else hi + 1 - lo
  {
    if j > 0 {
      CountBetweenValue(lo, hi, j - 1);
    }
  }

  /** The number of pixels of `b`'s box before column `c` of row `r`: the full
      rows of the box already passed, plus the part of row `r`. */
  function BoxPrefix(b: Blob, r: int, c: nat): int
  {
    CountBetween(b.minY, b.maxY, if r < 0 then 0 else r) * (b.maxX - b.minX + 1)
    + (if b.minY <= r <= b.maxY then CountBetween(b.minX, b.maxX, c) else 0)
  }

  /** Passing the last column of a row moves to the start of the next row. */
  lemma BoxPrefixNextRow(b: Blob, r: nat, width: nat)
    requires 0 <= b.minX <= b.maxX < width && 0 <= b.minY <= b.maxY
    ensures BoxPrefix(b, r + 1, 0) == BoxPrefix(b, r, width - 1)
      + (if b.minY <= r <= b.maxY && b.minX <= width - 1 <= b.maxX then 1 else 0)
  {
    var w := b.maxX - b.minX + 1;
    CountBetweenValue(b.minX, b.maxX, width);
    var cy := CountBetween(b.minY, b.maxY, r);
    assert (cy + 1) * w == cy * w + w;
  }

  /** Closed form of `CountInBox` at pixel `(c, r)`. */
  lemma {:induction false} CountInBoxAt(b: Blob, width: nat, n: nat, r: nat, c: nat)
    requires 0 <= b.minX <= b.maxX < width && 0 <= b.minY <= b.maxY
    requires c < width && n == r * width + c
    ensures CountInBox(b, width, n) == BoxPrefix(b, r, c)
    decreases n
  {
    if c > 0 {
      RowMajor(r, c - 1, width);
      CountInBoxAt(b, width, n - 1, r, c - 1);
    } else if r > 0 {
      assert n - 1 == (r - 1) * width + (width - 1);
      RowMajor(r - 1, width - 1, width);
      CountInBoxAt(b, width, n - 1, r - 1, width - 1);
      BoxPrefixNextRow(b, r - 1, width);
    }
  }

  /** Closed form of `CountInBox`. */
  lemma CountInBoxFormula(b: Blob, width: nat, n: nat)
    requires width > 0 && 0 <= b.minX <= b.maxX < width && 0 <= b.minY <= b.maxY
    ensures CountInBox(b, width, n) == BoxPrefix(b, n / width, n % width)
  {
    CountInBoxAt(b, width, n, n / width, n % width);
  }

  /** If every pixel of `k` lies in `b`'s box, `k` has at most as many pixels
      as the box has pixels so far. */
  lemma {:induction false} CountLabelInBox(labels: seq<Label>, width: nat, n: nat, k: int, b: Blob)
    requires n <= |labels| && width > 0
    requires forall i :: IsPixel(labels, n, k, i) ==> InBox(b, width, i)
    ensures CountLabel(labels, k, n) <= CountInBox(b, width, n)
  {
    if n > 0 {
      forall i | IsPixel(labels, n - 1, k, i)
        ensures InBox(b, width, i)
      {
        assert IsPixel(labels, n, k, i);
      }
      CountLabelInBox(labels, width, n - 1, k, b);
      if labels[n - 1] == k {
        assert IsPixel(labels, n, k, n - 1);
      }
    }
  }

  /** The box prefix never exceeds the whole box. */
  lemma BoxPrefixBound(b: Blob, r: nat, c: nat)
    requires 0 <= b.minX <= b.maxX && 0 <= b.minY <= b.maxY
    ensures BoxPrefix(b, r, c) <= (b.maxX - b.minX + 1) * (b.maxY - b.minY + 1)
  {
    var w, h := b.maxX - b.minX + 1, b.maxY - b.minY + 1;
    var cy := CountBetween(b.minY, b.maxY, r);
    var cx := CountBetween(b.minX, b.maxX, c);
    CountBetweenValue(b.minY, b.maxY, r);
    CountBetweenValue(b.minX, b.maxX, c);
    if b.minY <= r <= b.maxY {
      assert BoxPrefix(b, r, c) == cy * w + cx;
      RowsBound(cy, cx, w, h);
    } else {
      assert BoxPrefix(b, r, c) == cy * w;
      RowsBound(cy, 0, w, h);
    }
  }

  /** `cy` full rows of `w` plus a partial row of `cx` fit in `h` rows when
      the partial row is one of them. */
  lemma RowsBound(cy: int, cx: int, w: int, h: int)
    requires w >= 1 && 0 <= cx <= w && 0 <= cy && (cx == 0 ==> cy <= h) && (cx > 0 ==> cy <= h - 1)
    ensures cy * w + cx <= w * h
  {
    if cx > 0 {
      MulMono(cy, h - 1, w);
      assert (h - 1) * w + w == w * h;
    } else {
      MulMono(cy, h, w);
    }
  }

  /** A blob's area never exceeds the area of its bounding box. */
  lemma AreaWithinBox(labels: seq<Label>, width: nat, n: nat, k: int)
    requires n <= |labels| && width > 0
    requires k in Accumulate(labels, width, n)
    ensures var b := Accumulate(labels, width, n)[k];
      b.area <= (b.maxX - b.minX + 1) * (b.maxY - b.minY + 1)
  {
    var b := Accumulate(labels, width, n)[k];
    AccumulateStats(labels, width, n, k);
    forall i | IsPixel(labels, n, k, i)
      ensures InBox(b, width, i)
    {
      AccumulateInBox(labels, width, n, k, i);
    }
    CountLabelInBox(labels, width, n, k, b);
    CountInBoxFormula(b, width, n);
    BoxPrefixBound(b, n / width, n % width);
  }

  /** After the whole `width` x `height` raster, every accumulator is well
      formed and its box lies inside the raster. */
  lemma AccumulateInRaster(labels: seq<Label>, width: nat, height: nat)
    requires |labels| == width * height
    ensures width == 0 ==> |labels| == 0
    ensures AllWellFormed(Accumulate(labels, width, |labels|), width, height)
  {
    var m := Accumulate(labels, width, |labels|);
    forall k | k in m
      ensures WellFormed(m[k]) && m[k].maxX < width && m[k].maxY < height
    {
      AccumulateStats(labels, width, |labels|, k);
      AccumulateTight(labels, width, |labels|, k);
      var i :| IsPixel(labels, |labels|, k, i) && i / width == m[k].maxY;
      RowBelowHeight(i, width, height);
    }
  }

  // ---------------------------------------------------------------------
  // Total area
  // ---------------------------------------------------------------------

  /** Some label of a non-empty dictionary. */
  ghost function Pick(m: map<int, Blob>): (k: int)
    requires m != map[]
    ensures k in m
  {
    HasElement(m.Keys);
    var k :| k in m; k
  }

  /** The sum of the areas of all blobs in `m`. */
  ghost function TotalArea(m: map<int, Blob>): int
    decreases |m|
  {
    if m == map[] then 0 else var k := Pick(m); m[k].area + TotalArea(m - {k})
  }

  /** `TotalArea` may take out any blob first. */
  lemma {:induction false} TotalAreaRemove(m: map<int, Blob>, k: int)
    requires k in m
    ensures TotalArea(m) == m[k].area + TotalArea(m - {k})
    decreases |m|
  {
    var j := Pick(m);
    if j != k {
      TotalAreaRemove(m - {j}, k);
      TotalAreaRemove(m - {k}, j);
      assert m - {j} - {k} == m - {k} - {j};
    }
  }

  /** The raster pass loses and double-counts no pixel: the areas of all blobs
      add up to the number of foreground pixels. */
  lemma {:induction false} TotalAreaAccumulate(labels: seq<Label>, width: nat, n: nat)
    requires n <= |labels| && (n == 0 || width > 0)
    ensures TotalArea(Accumulate(labels, width, n)) == CountForeground(labels, n)
  {
    if n > 0 {
      TotalAreaAccumulate(labels, width, n - 1);
      var m := Accumulate(labels, width, n - 1);
      var lab := labels[n - 1];
      var m' := Visit(m, lab, (n - 1) % width, (n - 1) / width);
      assert Accumulate(labels, width, n) == m';
      if lab > 0 {
        TotalAreaRemove(m', lab);
        if lab in m {
          TotalAreaRemove(m, lab);
          assert m' - {lab} == m - {lab};
        } else {
          assert m' - {lab} == m;
        }
      }
    }
  }

  // ---------------------------------------------------------------------
  // The labels that get an entry
  // ---------------------------------------------------------------------

  /** The non-background labels that occur in the label image. */
  function PresentLabels(labels: seq<Label>): set<int>
  {
    set i | 0 <= i < |labels| && labels[i] > 0 :: labels[i] as int
  }

  /** A positive count comes from some pixel. */
  lemma {:induction false} CountWitness(labels: seq<Label>, k: int, n: nat)
    requires n <= |labels| && CountLabel(labels, k, n) > 0
    ensures exists i :: IsPixel(labels, n, k, i)
  {
    if labels[n - 1] == k {
      assert IsPixel(labels, n, k, n - 1);
    } else {
      CountWitness(labels, k, n - 1);
      var i :| IsPixel(labels, n - 1, k, i);
      assert IsPixel(labels, n, k, i);
    }
  }

  /** After the whole raster, exactly the labels present in the image have an
      entry, one each. */
  lemma AccumulateKeys(labels: seq<Label>, width: nat)
    requires |labels| == 0 || width > 0
    ensures Accumulate(labels, width, |labels|).Keys == PresentLabels(labels)
  {
    var m := Accumulate(labels, width, |labels|);
    forall k | k in m
      ensures k in PresentLabels(labels)
    {
      AccumulateStats(labels, width, |labels|, k);
      CountWitness(labels, k, |labels|);
      var i :| IsPixel(labels, |labels|, k, i);
      assert labels[i] as int == k;
    }
    forall k | k in PresentLabels(labels)
      ensures k in m
    {
      var i :| 0 <= i < |labels| && labels[i] > 0 && labels[i] as int == k;
      CountPositive(labels, k, |labels|, i);
      AccumulateStats(labels, width, |labels|, k);
    }
  }

  /** The labels of the present blobs whose area reaches a minimum. */
  function LargeLabels(labels: seq<Label>, minArea: int): set<int>
  {
    set k | k in PresentLabels(labels) && CountLabel(labels, k, |labels|) >= minArea
  }

  /** The qualifying entries are exactly the present labels with enough pixels. */
  lemma QualifyingLarge(labels: seq<Label>, width: nat, minArea: int)
    requires |labels| == 0 || width > 0
    ensures Qualifying(Accumulate(labels, width, |labels|), minArea) == LargeLabels(labels, minArea)
    ensures |Accumulate(labels, width, |labels|)| == |PresentLabels(labels)|
  {
    var m := Accumulate(labels, width, |labels|);
    AccumulateKeys(labels, width);
    forall k | k in m
      ensures m[k].area == CountLabel(labels, k, |labels|)
    {
      AccumulateStats(labels, width, |labels|, k);
    }
    assert |m| == |m.Keys|;
  }
}
