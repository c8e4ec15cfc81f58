/**
 * What each section of las2potree.py hands to the next one: either the run
 * goes on with a value, or it ends through sys.exit with a code. The reason
 * records which of the script's messages was printed before the exit.
 */
module Outcomes {

  datatype Reason =
    | NoTiles                         // lines 52-54
    | ShapefileMissing                // lines 60-62
    | ShapefileUnreadable             // lines 64-68
    | MissingCrs                      // lines 70-73
    | NoPoints                        // lines 114-116
    | PipelineFailed(message: string) // lines 117-119

  datatype Step<+T> = Continue(value: T) | Exit(code: int, reason: Reason)
}
