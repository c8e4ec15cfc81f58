/**
 * Section 7 of las2potree.py (lines 124-134): the elevation range of the
 * merged file. `pdal info --stats` reports one statistic per dimension and the
 * script reads the third one as Z. Every failure along the way (the tool, the
 * JSON, a missing key or index) is caught and replaced by a fixed range.
 */
module Elevation {
  import opened Wrappers

  /** One entry of metadata['stats']['statistic']; a key may be absent. */
  datatype Statistic = Statistic(minimum: Option<real>, maximum: Option<real>)

  /**
   * What the `pdal info` call produced: the process failed, its output was
   * not JSON, or it parsed, with the 'statistic' list when the keys are there.
   */
  datatype InfoOutput = ToolFailed | Unparsable | Parsed(statistics: Option<seq<Statistic>>)

  /** Index of the Z dimension in the statistics list (line 129). */
  const ZIndex: nat := 2

  /** Line 134. */
  const FallbackMin: real := -40.0
  const FallbackMax: real := -5.0

  /** Lines 126-130 without an exception: the (minimum, maximum) of the third statistic. */
  function ZStatistic(info: InfoOutput): Option<(real, real)> {
    match info
    case Parsed(Some(stats)) =>
      if |stats| > ZIndex && stats[ZIndex].minimum.Some? && stats[ZIndex].maximum.Some?
      then Some((stats[ZIndex].minimum.value, stats[ZIndex].maximum.value))
      else None
    case _ => None
  }

  /**
   * Lines 124-134: min_z, max_z start at 0, 0, are overwritten by the lookup
   * when it succeeds and by the fallback when anything raises.
   */
  method InspectElevation(info: InfoOutput) returns (minZ: real, maxZ: real)
    ensures info.Parsed? && info.statistics.Some? && |info.statistics.value| >= 3
            && info.statistics.value[2].minimum.Some? && info.statistics.value[2].maximum.Some?
            ==> minZ == info.statistics.value[2].minimum.value && maxZ == info.statistics.value[2].maximum.value
    ensures !(info.Parsed? && info.statistics.Some? && |info.statistics.value| >= 3
              && info.statistics.value[2].minimum.Some? && info.statistics.value[2].maximum.Some?)
            ==> minZ == -40.0 && maxZ == -5.0
    ensures (minZ, maxZ) == ElevationRange(info)
  {
    minZ, maxZ := 0.0, 0.0;
    var found := ZStatistic(info);
    if found.Some? {
      minZ, maxZ := found.value.0, found.value.1;
    } else {
      minZ, maxZ := FallbackMin, FallbackMax;
    }
  }

  /** The range the method leaves behind, for use by functions and lemmas. */
  function ElevationRange(info: InfoOutput): (real, real) {
    match ZStatistic(info)
    case Some(range) => range
    case None => (FallbackMin, FallbackMax)
  }
}
