/** The `foreach` of `MilService.ProcessImage` over the blob dictionary's
    values: it counts the blobs large enough and collects what is drawn for
    each of them, proved against `Qualifying` and `Marks` whatever order the
    dictionary enumerates its entries in. */
module BlobSummary {
  import opened Common
  import opened Blobs

  /** The labels among `done` whose blob is large enough. */
  function QualifyingAmong(snap: map<int, Blob>, minArea: int, done: set<int>): set<int>
  {
    Qualifying(snap, minArea) * done
  }

  /** The drawing instructions of the qualifying blobs among `done`. */
  function MarksAmong(snap: map<int, Blob>, minArea: int, done: set<int>, width: int, height: int): map<int, Mark>
    requires AllWellFormed(snap, width, height)
  {
    map k | k in QualifyingAmong(snap, minArea, done) :: MarkOf(snap[k], width, height)
  }

  /** Taking one more blob `k` into account. */
  lemma AmongStep(snap: map<int, Blob>, minArea: int, done: set<int>, k: int, width: int, height: int)
    requires AllWellFormed(snap, width, height) && k in snap && k !in done
    ensures snap[k].area >= minArea ==>
      && QualifyingAmong(snap, minArea, done + {k}) == QualifyingAmong(snap, minArea, done) + {k}
      && |QualifyingAmong(snap, minArea, done + {k})| == |QualifyingAmong(snap, minArea, done)| + 1
      && MarksAmong(snap, minArea, done + {k}, width, height)
         == MarksAmong(snap, minArea, done, width, height)[k := MarkOf(snap[k], width, height)]
    ensures snap[k].area < minArea ==>
      && QualifyingAmong(snap, minArea, done + {k}) == QualifyingAmong(snap, minArea, done)
      && MarksAmong(snap, minArea, done + {k}, width, height) == MarksAmong(snap, minArea, done, width, height)
  {
  }

  /** The `foreach` over the dictionary's values, in whatever order it
      enumerates them: the number of blobs with `Area >= minArea` and, when
      boxes are drawn, the drawing instructions of each of them. `snap` holds
      the accumulators' values, which the loop only reads. */
  method Summarize(snap: map<int, Blob>, minArea: int, drawBox: bool, width: int, height: int)
    returns (validCount: nat, marks: map<int, Mark>)
    requires AllWellFormed(snap, width, height)
    ensures validCount == |Qualifying(snap, minArea)|
    ensures marks == if drawBox then Marks(snap, minArea, width, height) else map[]
  {
    var remaining := snap.Keys;
    ghost var done: set<int> := {};
    validCount, marks := 0, map[];
    while remaining != {}
      invariant remaining <= snap.Keys && done == snap.Keys - remaining
      invariant validCount == |QualifyingAmong(snap, minArea, done)|
      invariant !drawBox ==> marks == map[]
      invariant drawBox ==> marks == MarksAmong(snap, minArea, done, width, height)
      decreases remaining
    {
      HasElement(remaining);
      var k :| k in remaining;
      var blob := snap[k];
      Tally(snap, minArea, done, k, width, height, drawBox, validCount, marks);
      if blob.area >= minArea {
        validCount := validCount + 1;
        if drawBox {
          marks := marks[k := MarkOf(blob, width, height)];
        }
      }
      remaining := remaining - {k};
      done := done + {k};
    }
    AmongAll(snap, minArea, done, width, height);
  }

  /** One iteration of the summary loop keeps its invariant: the count and
      the drawing instructions, updated for blob `k`, are those of `done + {k}`. */
  lemma Tally(snap: map<int, Blob>, minArea: int, done: set<int>, k: int, width: int, height: int,
              drawBox: bool, count: int, marks: map<int, Mark>)
    requires AllWellFormed(snap, width, height) && k in snap && k !in done
    requires count == |QualifyingAmong(snap, minArea, done)|
    requires drawBox ==> marks == MarksAmong(snap, minArea, done, width, height)
    ensures (if snap[k].area >= minArea then count + 1 else count)
            == |QualifyingAmong(snap, minArea, done + {k})|
    ensures drawBox ==>
      (if snap[k].area >= minArea then marks[k := MarkOf(snap[k], width, height)] else marks)
      == MarksAmong(snap, minArea, done + {k}, width, height)
  {
    AmongStep(snap, minArea, done, k, width, height);
  }

  /** Once every label is taken into account, the partial results are the
      whole ones. */
  lemma AmongAll(snap: map<int, Blob>, minArea: int, done: set<int>, width: int, height: int)
    requires AllWellFormed(snap, width, height) && snap.Keys <= done
    ensures QualifyingAmong(snap, minArea, done) == Qualifying(snap, minArea)
    ensures MarksAmong(snap, minArea, done, width, height) == Marks(snap, minArea, width, height)
  {
  }
}
