/**
 * Section 6 of las2potree.py (lines 77, 93-108): the PDAL pipeline built from
 * the tile list and the area of interest. One reader per tile, in tile order,
 * then reprojection to the shapefile's CRS, the crop to its bounds, the
 * "Withheld" range filter and a single LAS writer.
 */
module Pipeline {
  import opened Boundary

  /** A closed interval [lo, hi] of one axis. */
  datatype Interval = Interval(lo: real, hi: real)

  /** The crop bounds "([x0, x1], [y0, y1])" of line 77, before formatting as text. */
  datatype CropBox = CropBox(x: Interval, y: Interval)

  /** A per-axis writer option (offset_x/y/z, scale_x/y/z). */
  datatype Axes = Axes(x: string, y: string, z: string)

  /** One stage descriptor of the pipeline, tagged by its PDAL type. */
  datatype Stage =
    | Read(filename: string)
    | Reproject(outSrs: string)
    | Crop(bounds: CropBox)
    | Range(limits: string)
    | Write(filename: string, compression: string, forward: string, offset: Axes, scale: Axes)

  /** The "type" field of each descriptor. */
  function TypeName(s: Stage): string {
    match s
    case Read(_) => "readers.las"
    case Reproject(_) => "filters.reprojection"
    case Crop(_) => "filters.crop"
    case Range(_) => "filters.range"
    case Write(_, _, _, _, _) => "writers.las"
  }

  const WithheldLimits: string := "Withheld[0:0]"
  const Compression: string := "lazperf"
  const ForwardAll: string := "all"
  const AutoAxes: Axes := Axes("auto", "auto", "auto")

  /** Line 77: the x pair takes total_bounds[0] and [2], the y pair [1] and [3]. */
  function CropBoxOf(b: Bounds): CropBox {
    CropBox(Interval(b.minx, b.maxx), Interval(b.miny, b.maxy))
  }

  /** Line 93: one reader per tile. */
  function ReadStages(tiles: seq<string>): seq<Stage> {
    seq(|tiles|, i requires 0 <= i < |tiles| => Read(tiles[i]))
  }

  /** Lines 94-108: the four stages appended after the readers. */
  function TailStages(aoi: Aoi, outputPath: string): seq<Stage> {
    [ Reproject(aoi.crs.wkt),
      Crop(CropBoxOf(aoi.bounds)),
      Range(WithheldLimits),
      Write(outputPath, Compression, ForwardAll, AutoAxes, AutoAxes) ]
  }

  /** The whole pipeline_stages list. */
  function PipelineSpec(tiles: seq<string>, aoi: Aoi, outputPath: string): seq<Stage> {
    ReadStages(tiles) + TailStages(aoi, outputPath)
  }

  /** Lines 93-108: the comprehension followed by .extend. */
  method BuildPipeline(tiles: seq<string>, aoi: Aoi, outputPath: string) returns (stages: seq<Stage>)
    ensures stages == PipelineSpec(tiles, aoi, outputPath)
  {
    stages := [];
    var i := 0;
    while i < |tiles|
      invariant 0 <= i <= |tiles|
      invariant |stages| == i
      invariant forall k :: 0 <= k < i ==> stages[k] == Read(tiles[k])
    {
      stages := stages + [Read(tiles[i])];
      i := i + 1;
    }
    stages := stages + [
      Reproject(aoi.crs.wkt),
      Crop(CropBoxOf(aoi.bounds)),
      Range(WithheldLimits),
      Write(outputPath, Compression, ForwardAll, AutoAxes, AutoAxes)
    ];
  }

  /** Where every stage sits and which input each field comes from. */
  lemma PipelineLayout(tiles: seq<string>, aoi: Aoi, outputPath: string)
    ensures var p, n := PipelineSpec(tiles, aoi, outputPath), |tiles|;
      && |p| == n + 4
      && (forall i :: 0 <= i < n ==> p[i] == Read(tiles[i]) && TypeName(p[i]) == "readers.las")
      && p[n] == Reproject(aoi.crs.wkt)
      && p[n + 1] == Crop(CropBox(Interval(aoi.bounds.minx, aoi.bounds.maxx),
                                  Interval(aoi.bounds.miny, aoi.bounds.maxy)))
      && p[n + 2] == Range("Withheld[0:0]")
      && p[n + 3] == Write(outputPath, "lazperf", "all", Axes("auto", "auto", "auto"), Axes("auto", "auto", "auto"))
      && TypeName(p[n]) == "filters.reprojection" && TypeName(p[n + 1]) == "filters.crop"
      && TypeName(p[n + 2]) == "filters.range" && TypeName(p[n + 3]) == "writers.las"
  {
  }

  // ---------------------------------------------------------------------
  // An independent validator of the stage order: readers, then reprojection,
  // then crop, then the range filter, then the writer.

  function Rank(s: Stage): nat {
    match s
    case Read(_) => 0
    case Reproject(_) => 1
    case Crop(_) => 2
    case Range(_) => 3
    case Write(_, _, _, _, _) => 4
  }

  /** How many stages of p have rank k. */
  function Count(p: seq<Stage>, k: nat): nat {
    if p == [] then 0 else (if Rank(p[0]) == k then 1 else 0) + Count(p[1..], k)
  }

  /**
   * A well-formed pipeline: stages ordered by rank, at least one reader and
   * exactly one stage of each other kind.
   */
  predicate WellFormed(p: seq<Stage>) {
    && (forall i, j :: 0 <= i < j < |p| ==> Rank(p[i]) <= Rank(p[j]))
    && Count(p, 0) >= 1
    && Count(p, 1) == 1 && Count(p, 2) == 1 && Count(p, 3) == 1 && Count(p, 4) == 1
  }

  lemma {:induction false} CountAppend(a: seq<Stage>, b: seq<Stage>, k: nat)
    ensures Count(a + b, k) == Count(a, k) + Count(b, k)
  {
    if a == [] {
      assert a + b == b;
    } else {
      assert (a + b)[1..] == a[1..] + b;
      CountAppend(a[1..], b, k);
    }
  }

  lemma {:induction false} CountReads(tiles: seq<string>, k: nat)
    ensures Count(ReadStages(tiles), k) == if k == 0 then |tiles| else 0
  {
    if tiles != [] {
      assert ReadStages(tiles)[1..] == ReadStages(tiles[1..]);
      CountReads(tiles[1..], k);
    }
  }

  lemma {:induction false} CountWitness(p: seq<Stage>, k: nat)
    requires Count(p, k) >= 1
    ensures exists i :: 0 <= i < |p| && Rank(p[i]) == k
  {
    if Rank(p[0]) != k {
      CountWitness(p[1..], k);
      var i :| 0 <= i < |p[1..]| && Rank(p[1..][i]) == k;
      assert Rank(p[i + 1]) == k;
    }
  }

  lemma {:induction false} CountTwo(p: seq<Stage>, i: nat, j: nat)
    requires i < j < |p| && Rank(p[i]) == Rank(p[j])
    ensures Count(p, Rank(p[i])) >= 2
  {
    var k := Rank(p[i]);
    if i == 0 {
      CountAtLeastOne(p[1..], j - 1, k);
    } else {
      CountTwo(p[1..], i - 1, j - 1);
    }
  }

  lemma {:induction false} CountAtLeastOne(p: seq<Stage>, i: nat, k: nat)
    requires i < |p| && Rank(p[i]) == k
    ensures Count(p, k) >= 1
  {
    if i > 0 {
      CountAtLeastOne(p[1..], i - 1, k);
    }
  }

  lemma CountTail(aoi: Aoi, outputPath: string, k: nat)
    ensures Count(TailStages(aoi, outputPath), k) == if 1 <= k <= 4 then 1 else 0
  {
    var t := TailStages(aoi, outputPath);
    assert t[1..][1..][1..][1..] == [];
    assert Count(t[1..][1..][1..], k) == if k == 4 then 1 else 0;
    assert Count(t[1..][1..], k) == if 3 <= k <= 4 then 1 else 0;
  }

  /** The rank of every stage of the built pipeline: readers first, then ranks 1 to 4. */
  lemma {:induction false} PipelineRanks(tiles: seq<string>, aoi: Aoi, outputPath: string, i: nat)
    requires i < |PipelineSpec(tiles, aoi, outputPath)|
    ensures Rank(PipelineSpec(tiles, aoi, outputPath)[i]) == if i < |tiles| then 0 else i - |tiles| + 1
  {
    var readers, tail := ReadStages(tiles), TailStages(aoi, outputPath);
    if i >= |tiles| {
      assert PipelineSpec(tiles, aoi, outputPath)[i] == tail[i - |tiles|];
    }
  }

  /** For a non-empty tile list the builder's output passes the validator. */
  lemma PipelineWellFormed(tiles: seq<string>, aoi: Aoi, outputPath: string)
    requires tiles != []
    ensures WellFormed(PipelineSpec(tiles, aoi, outputPath))
  {
    var p := PipelineSpec(tiles, aoi, outputPath);
    forall i, j | 0 <= i < j < |p| ensures Rank(p[i]) <= Rank(p[j]) {
      PipelineRanks(tiles, aoi, outputPath, i);
      PipelineRanks(tiles, aoi, outputPath, j);
    }
    var readers, tail := ReadStages(tiles), TailStages(aoi, outputPath);
    CountAppend(readers, tail, 0);
    CountAppend(readers, tail, 1);
    CountAppend(readers, tail, 2);
    CountAppend(readers, tail, 3);
    CountAppend(readers, tail, 4);
    CountReads(tiles, 0);
    CountReads(tiles, 1);
    CountReads(tiles, 2);
    CountReads(tiles, 3);
    CountReads(tiles, 4);
    CountTail(aoi, outputPath, 1);
    CountTail(aoi, outputPath, 2);
    CountTail(aoi, outputPath, 3);
    CountTail(aoi, outputPath, 4);
  }

  /** In a well-formed pipeline the single writer is the last stage. */
  lemma WriterLast(p: seq<Stage>) returns (w: nat)
    requires WellFormed(p)
    ensures w == |p| - 1 && p[w].Write?
    ensures forall i :: 0 <= i < |p| && p[i].Write? ==> i == w
  {
    CountWitness(p, 4);
    w :| 0 <= w < |p| && Rank(p[w]) == 4;
    if w != |p| - 1 {
      CountTwo(p, w, |p| - 1);
    }
    forall i | 0 <= i < |p| && p[i].Write? ensures i == w {
      if i != w {
        CountTwo(p, i, w);
        assert false;
      }
    }
  }

  /** What the validator guarantees: the writer is last and unique, readers come first. */
  lemma WellFormedShape(p: seq<Stage>)
    requires WellFormed(p)
    ensures |p| >= 5
    ensures p[0].Read? && p[|p| - 1].Write?
    ensures forall i :: 0 <= i < |p| && p[i].Write? ==> i == |p| - 1
    ensures forall i, j :: 0 <= i < |p| && 0 <= j < |p| && p[i].Read? && !p[j].Read? ==> i < j
  {
    var w := WriterLast(p);
    CountWitness(p, 0);
    CountWitness(p, 1);
    CountWitness(p, 2);
    CountWitness(p, 3);
    var a :| 0 <= a < |p| && Rank(p[a]) == 1;
    var b :| 0 <= b < |p| && Rank(p[b]) == 2;
    var c :| 0 <= c < |p| && Rank(p[c]) == 3;
    assert 0 < a < b < c < w;
  }
}
