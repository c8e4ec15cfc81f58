# las2potree core, modelled in Dafny

`las2potree.py` prepares a tiled bathymetric point cloud for the Potree web
viewer: it finds the `.las`/`.laz` tiles under a data root, checks the
area-of-interest shapefile, builds and runs a PDAL pipeline that merges,
reprojects, crops and filters the tiles into one `.laz` file, reads the Z
range of the result, and derives the viewer's initial camera from the
shapefile bounds. The script has no functions; this model turns each numbered
section of its decision and construction logic into Dafny definitions:

- `Tiles` (section 3): the name test as written (`SuffixTest`) and a
  last-four-characters form proved equivalent to it (`IsPointCloudName`),
  the nested walk loops as two methods (the inner loop over one directory's
  files is `KeepStepFiles`) proved equal to a specification function `Keep`,
  and the lemmas that fix what `Keep` keeps, in which order, with duplicates.
- `Boundary` (the no-tiles check of section 3, lines 52-54, and section 4):
  the four pre-flight checks and their order.
- `Pipeline` (sections 4 and 6: the crop box of line 77 and the stage list of lines 93-108): the tagged stage datatype, the builder
  method, the layout of its result and an independent validator of the
  stage order (`WellFormed`) that the builder's output passes.
- `Execution` (section 6, try/except): point count or exception to
  continue / exit 0 / exit 1.
- `Elevation` (section 7): the third statistic's range or the fixed fallback.
- `View` (section 9): center, camera and look-at over `real`, with the
  diagonal given with its defining equation.
- `Script`: lines 44-134 chained as the script runs them, from the walk to
  the elevation range; the view of section 9 is computed separately by
  `View.ComputeView` from the bounds and that range.
- `Outcomes`, `Wrappers`: the `Continue | Exit(code, reason)` step type and `Option`.

The script checks for an empty tile list before it builds the pipeline, so
the builder accepts any list and is validated only for non-empty lists. The
script has no special case for a zero diagonal: the arithmetic already puts
the camera on the center then, which `View.DegenerateView` proves.

## Model

| member | source | states |
|---|---|---|
| `Tiles.JoinPath` | las2potree.py:50 | definition of `os.path.join(root, file)`; properties in `JoinPathParts` |
| `Tiles.JoinPathParts` | las2potree.py:50 | the joined path starts with the directory and ends with the bare file name |
| `Tiles.SuffixTest` | las2potree.py:49 | definition of `file.lower().endswith((".las", ".laz"))`; properties in `PointCloudNameByLastFour`, `KeptNameExamples`, `RejectedNameExamples` |
| `Tiles.PointCloudNameByLastFour` | las2potree.py:49 | the lower-cased name ends with `.las` or `.laz` iff its last four characters are `.`, `l`/`L`, `a`/`A`, `s`/`S`/`z`/`Z` |
| `Tiles.KeptNameExamples` | las2potree.py:49 | `tile_07.LAS`, `Wreck.LaZ` and `.las` are kept |
| `Tiles.RejectedNameExamples` | las2potree.py:49 | `tile.las.bak`, `las` and `tile.lasx` are not kept |
| `Tiles.Discovered` | las2potree.py:47-48 | definition of the files the walk lists, in visiting order; matched by the loops in `DiscoverTiles` |
| `Tiles.Keep` | las2potree.py:46-50 | definition of the tile list built from the discovered files; properties in `KeepBound`, `KeepAppend`, `KeepMembership`, `KeepEmpty`, `KeepAllPass` |
| `Tiles.KeepBound` | las2potree.py:46-50 | at most one tile per discovered file |
| `Tiles.KeepAppend` | las2potree.py:46-50 | keeping distributes over concatenation of discovered files, so tiles appear in discovery order and repeated files stay repeated |
| `Tiles.KeepContains` | las2potree.py:47-50 | the path of every discovered file that passes the name test is among the tiles |
| `Tiles.KeepSource` | las2potree.py:47-50 | every tile is the joined path of some discovered file that passes the name test |
| `Tiles.KeepMembership` | las2potree.py:47-50 | a path is a tile iff some discovered file passes the name test and joins to that path |
| `Tiles.KeepEmpty` | las2potree.py:46-54 | the tile list is empty iff no discovered name passes the test |
| `Tiles.KeepAllPass` | las2potree.py:47-50 | when every name passes, tile i is exactly the path of discovered file i (no de-duplication) |
| `Tiles.KeepStepFiles` | las2potree.py:48-50 | the inner loop appends to the tiles so far exactly `Keep` of one directory's files, in listing order |
| `Tiles.DiscoverTiles` | las2potree.py:46-50 | the nested loops over the walk return exactly `Keep` of the discovered files in walk order |
| `Boundary.Preflight` | las2potree.py:52-76 | exit 1 for no tiles (checked first), else for a missing shapefile, else for an unreadable one, else for a missing CRS, each iff its condition; otherwise continue with the shapefile's CRS and total bounds |
| `Pipeline.CropBoxOf` | las2potree.py:77 | definition of the crop box `([minx, maxx], [miny, maxy])`; properties in `PipelineLayout` |
| `Pipeline.PipelineSpec` | las2potree.py:93-108 | definition of the stage list; properties in `PipelineLayout`, `PipelineRanks`, `PipelineWellFormed`; computed by `BuildPipeline` |
| `Pipeline.BuildPipeline` | las2potree.py:93-108 | the comprehension plus `.extend` yields exactly the reader stages followed by the four fixed stages |
| `Pipeline.PipelineLayout` | las2potree.py:77-108 | n tiles give n+4 stages; stage i < n is `readers.las` on tile i; then reprojection to the CRS's WKT, crop `([minx, maxx], [miny, maxy])`, `filters.range` with `Withheld[0:0]`, and `writers.las` on the output path with `lazperf`, forward `all`, all offsets and scales `auto` |
| `Pipeline.PipelineRanks` | las2potree.py:93-108 | stage i of the built list is a reader for i < n and otherwise has rank i - n + 1 (reproject, crop, range, write) |
| `Pipeline.PipelineWellFormed` | las2potree.py:93-108 | for a non-empty tile list the stage list passes the order validator: readers, reproject, crop, range, write, one each after the readers |
| `Pipeline.WriterLast` | las2potree.py:93-108 | in a validated stage list the writer is the last stage and no other stage is a writer |
| `Pipeline.WellFormedShape` | las2potree.py:93-108 | any validated stage list starts with a reader, ends with the only writer, and has every reader before every other stage |
| `Execution.TryBlock` | las2potree.py:110-116 | definition of how the try block ends (count, `sys.exit(0)` or an exception); properties in `PipelineOutcome` |
| `Execution.Handle` | las2potree.py:117-119 | definition of the handler, which lets SystemExit through and turns an exception into exit 1; properties in `PipelineOutcome` |
| `Execution.PipelineOutcome` | las2potree.py:109-119 | a positive count continues with that count; a count of 0 exits with code 0 ("no points"); an exception exits with code 1 carrying its message; no other codes |
| `Elevation.ZStatistic` | las2potree.py:126-132 | definition of the lookup of the third statistic's minimum and maximum; properties in `InspectElevation` |
| `Elevation.ElevationRange` | las2potree.py:124-134 | definition of the range or the (-40, -5) fallback; properties in `InspectElevation` |
| `Elevation.InspectElevation` | las2potree.py:124-134 | when the third statistic has both a minimum and a maximum they are the range; on every other outcome the range is exactly (-40, -5) |
| `View.ComputeView` | las2potree.py:167-184 | the center is the midpoint of the bounds and of the elevation range; look-at equals the center; the camera is 1.2·d behind along y and 0.5·d above, at the same x |
| `View.DiagonalUnique` | las2potree.py:172-174 | the non-negative diagonal is unique, so the view does not depend on how it was computed |
| `View.SpanWithinDiagonal` | las2potree.py:172-174 | neither horizontal extent exceeds the diagonal |
| `View.DegenerateView` | las2potree.py:167-184 | camera equals look-at iff the bounds have zero extent in x and in y |
| `View.CameraDistance` | las2potree.py:176-184 | the camera sits 1.3·d from the look-at point |
| `View.ViewTranslates` | las2potree.py:167-184 | shifting the bounds and the elevations shifts center, camera and look-at by the same offset |
| `View.SquareExample` | las2potree.py:167-184 | bounds (0,0,10,10), elevations (0,10): center (5,5,5), camera x 5, y in (-11.9716, -11.9704), z in (12.071, 12.0715) |
| `View.PointExample` | las2potree.py:167-184 | bounds (0,0,0,0), elevations (0,0): center, camera and look-at are all the origin |
| `Script.Run` | las2potree.py:44-134 | definition of the chained sections; properties in `RunWithoutTiles`, `RunWithoutPoints`, `RunExitCodes`, `RunCompleted` |
| `Script.RunWithoutTiles` | las2potree.py:44-54 | a walk with no `.las`/`.laz` name ends the run with exit 1 before anything else |
| `Script.RunWithoutPoints` | las2potree.py:109-116 | past the checks, a PDAL count of 0 ends the run with exit 0 and no later section |
| `Script.RunExitCodes` | las2potree.py:52-119 | every stop has code 1 except the "no points" stop, which has code 0 |
| `Script.RunCompleted` | las2potree.py:44-134 | a run that gets through has non-empty tiles from the walk, the shapefile's CRS and bounds, a validated pipeline writing to the output path, a positive count and the inspected elevation range |

## Left out

- Directory walking (`os.walk`), `os.path.exists`, `gpd.read_file` and `total_bounds`: foreign library calls; their results are inputs (`WalkStep` lists, a boolean, an `Option<Shapefile>` and a `Bounds`).
- Tiles.JoinPath: models `os.path.join` for a bare file name with `/` as the separator; the Windows separator and drive handling of `ntpath` are not modelled.
- Tiles.SuffixTest: `str.lower` is modelled on the ASCII letters A-Z only; every other character is left unchanged, so Unicode case mapping is not modelled.
- The text formatting of the crop bounds and of floats (line 77): the crop stage carries the four numbers as a structured `CropBox` in the order the text writes them.
- `json.dumps` of the pipeline and PDAL's own execution (lines 110-111): the outcome is an input (`PdalResult`).
- The `pdal info` subprocess and its JSON parsing (lines 126-128): the outcome is an input (`InfoOutput`); the model keeps the lookup of the third statistic and its two keys.
- Deleting the stale output file and the stale Potree directory (lines 88-90, 147-150), creating the output directory (lines 82-84) and the PotreeConverter run (lines 139-160): file-system and process I/O.
- HTML templating and writing (lines 188-277), the web server, socket probe, browser launch and interrupt cleanup (lines 280-310): I/O, processes, networking.
- The `**0.5` square root (line 174) and IEEE floating point: the view is computed over `real`, with the diagonal passed in together with `d >= 0 && d*d == sx*sx + sy*sy`; `1.2` and `0.5` are exact there.
- `print` output is not modelled. The message printed before each `sys.exit` (lines 53, 61, 67, 72, 115, 118) is represented by the exit's `Reason`; the informational messages and the fallback warning of line 133 are dropped.
- pointclouds/shipwreck_small_23/cloud.js is converter output with no logic.
