/**
 * Sections 3 and 4 of las2potree.py (lines 52-76): the fixed sequence of
 * checks made before any processing. Each failed check prints a message and
 * ends the run with exit code 1; the first failure wins.
 */
module Boundary {
  import opened Wrappers
  import opened Outcomes

  /** A coordinate reference system, known to the model only by its WKT text. */
  datatype Crs = Crs(wkt: string)

  /** GeoDataFrame.total_bounds, in its order: [minx, miny, maxx, maxy]. */
  datatype Bounds = Bounds(minx: real, miny: real, maxx: real, maxy: real)

  /** What gpd.read_file returns, as far as the script uses it. */
  datatype Shapefile = Shapefile(crs: Option<Crs>, totalBounds: Bounds)

  /** The area of interest the later sections work with. */
  datatype Aoi = Aoi(crs: Crs, bounds: Bounds)

  /**
   * The checks of lines 52-73. `shapefileExists` is os.path.exists; `loaded`
   * is gpd.read_file, None when it raised.
   */
  function Preflight(tiles: seq<string>, shapefileExists: bool, loaded: Option<Shapefile>): (r: Step<Aoi>)
    ensures r.Exit? ==> r.code == 1
    ensures r == Exit(1, NoTiles) <==> tiles == []
    ensures r == Exit(1, ShapefileMissing) <==> tiles != [] && !shapefileExists
    ensures r == Exit(1, ShapefileUnreadable) <==> tiles != [] && shapefileExists && loaded.None?
    ensures r == Exit(1, MissingCrs) <==>
      tiles != [] && shapefileExists && loaded.Some? && loaded.value.crs.None?
    ensures r.Continue? <==>
      tiles != [] && shapefileExists && loaded.Some? && loaded.value.crs.Some?
    ensures r.Continue? ==> r.value == Aoi(loaded.value.crs.value, loaded.value.totalBounds)
  {
    if tiles == [] then Exit(1, NoTiles)
    else if !shapefileExists then Exit(1, ShapefileMissing)
    else match loaded
      case None => Exit(1, ShapefileUnreadable)
      case Some(gdf) =>
        match gdf.crs
        case None => Exit(1, MissingCrs)
        case Some(crs) => Continue(Aoi(crs, gdf.totalBounds))
  }
}
