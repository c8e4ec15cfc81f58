/**
 * The script of las2potree.py read top to bottom, from the tile search up to
 * the elevation lookup (lines 44-134). Every foreign call is an input: the
 * os.walk listing, os.path.exists and gpd.read_file of the shapefile, the
 * PDAL run and the `pdal info` output.
 */
module Script {
  import opened Wrappers
  import opened Outcomes
  import opened Tiles
  import opened Boundary
  import opened Pipeline
  import opened Execution
  import opened Elevation

  datatype Environment = Environment(
    walk: seq<WalkStep>,
    shapefileExists: bool,
    shapefile: Option<Shapefile>,
    pdal: PdalResult,
    info: InfoOutput)

  /** What the run holds once the merged file exists and its elevation range is known. */
  datatype Merged = Merged(
    tiles: seq<string>,
    aoi: Aoi,
    stages: seq<Stage>,
    count: nat,
    minZ: real,
    maxZ: real)

  /** Lines 44-134; `outputPath` is final_laz_path (line 39). */
  function Run(env: Environment, outputPath: string): Step<Merged> {
    var tiles := Keep(Discovered(env.walk));
    match Preflight(tiles, env.shapefileExists, env.shapefile)
    case Exit(code, why) => Exit(code, why)
    case Continue(aoi) =>
      var stages := PipelineSpec(tiles, aoi, outputPath);
      match PipelineOutcome(env.pdal)
      case Exit(code, why) => Exit(code, why)
      case Continue(count) =>
        var range := ElevationRange(env.info);
        Continue(Merged(tiles, aoi, stages, count, range.0, range.1))
  }

  /** A walk that lists no .las/.laz name ends the run with code 1 before the shapefile is looked at. */
  lemma RunWithoutTiles(env: Environment, outputPath: string)
    requires forall i :: 0 <= i < |Discovered(env.walk)| ==> !IsPointCloudName(Discovered(env.walk)[i].name)
    ensures Run(env, outputPath) == Exit(1, NoTiles)
  {
    KeepEmpty(Discovered(env.walk));
  }

  /** Past the checks, a run of PDAL that keeps no point ends with code 0 and nothing after it. */
  lemma RunWithoutPoints(env: Environment, outputPath: string)
    requires Keep(Discovered(env.walk)) != [] && env.shapefileExists
    requires env.shapefile.Some? && env.shapefile.value.crs.Some?
    requires env.pdal == Executed(0)
    ensures Run(env, outputPath) == Exit(0, NoPoints)
  {
  }

  /** Every stop is exit code 1, except the "0 points" stop, which is code 0. */
  lemma RunExitCodes(env: Environment, outputPath: string)
    ensures var r := Run(env, outputPath);
      r.Exit? ==> (r.code == 0 <==> r.reason == NoPoints) && (r.code == 0 || r.code == 1)
  {
  }

  /**
   * A run that gets through carries a non-empty tile list taken from the walk,
   * a pipeline that passes the validator and whose writer targets outputPath,
   * a positive point count, and the elevation range of the inspection.
   */
  lemma RunCompleted(env: Environment, outputPath: string)
    requires Run(env, outputPath).Continue?
    ensures var m := Run(env, outputPath).value;
      && m.tiles == Keep(Discovered(env.walk)) && m.tiles != []
      && m.aoi.crs == env.shapefile.value.crs.value
      && m.aoi.bounds == env.shapefile.value.totalBounds
      && WellFormed(m.stages)
      && m.stages[|m.stages| - 1].filename == outputPath
      && env.pdal == Executed(m.count) && m.count > 0
      && (m.minZ, m.maxZ) == ElevationRange(env.info)
  {
    var m := Run(env, outputPath).value;
    PipelineWellFormed(m.tiles, m.aoi, outputPath);
    PipelineLayout(m.tiles, m.aoi, outputPath);
  }
}
