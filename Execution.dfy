/**
 * Section 6 of las2potree.py, lines 109-119: what the PDAL run means for the
 * rest of the script. Inside the try block a positive point count lets the run
 * go on and a count of zero calls sys.exit(0); the handler catches Exception,
 * which SystemExit is not, so exit code 0 survives the handler while any error
 * raised by pdal.Pipeline or execute() ends the run with code 1.
 */
module Execution {
  import opened Outcomes

  /** What pdal.Pipeline(...).execute() did: a point count, or an exception and its message. */
  datatype PdalResult = Executed(count: nat) | Raised(message: string)

  /** How the try block of lines 109-116 ends. */
  datatype TryEnd = Completed(count: nat) | SystemExit(code: int) | Exception(message: string)

  /** Lines 110-116. */
  function TryBlock(r: PdalResult): TryEnd {
    match r
    case Raised(m) => Exception(m)
    case Executed(count) => if count > 0 then Completed(count) else SystemExit(0)
  }

  /** Lines 117-119: only an Exception reaches the handler; SystemExit passes through it. */
  function Handle(t: TryEnd): Step<nat> {
    match t
    case Completed(count) => Continue(count)
    case SystemExit(code) => Exit(code, NoPoints)
    case Exception(m) => Exit(1, PipelineFailed(m))
  }

  /**
   * The outcome of lines 109-119: a positive count goes on with that count,
   * zero stops with code 0, an exception stops with code 1.
   */
  function PipelineOutcome(r: PdalResult): (s: Step<nat>)
    ensures s.Continue? <==> r.Executed? && r.count > 0
    ensures s.Continue? ==> s.value == r.count
    ensures s == Exit(0, NoPoints) <==> r == Executed(0)
    ensures s.Exit? && s.code == 1 <==> r.Raised?
    ensures r.Raised? ==> s == Exit(1, PipelineFailed(r.message))
    ensures s.Exit? ==> s.code == 0 || s.code == 1
  {
    Handle(TryBlock(r))
  }
}
