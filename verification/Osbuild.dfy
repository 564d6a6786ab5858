/** What osbuild reports while it runs. */
module Osbuild {
  /** A progress report and its nested reports, outermost first. */
  datatype Progress = NoProgress | Progress(message: string, done: int, total: int, sub: Progress)

  /** Durations are in nanoseconds. */
  datatype Status = Status(progress: Progress, message: string, trace: string, pipeline: string, duration: int)

  /** How deep the report is nested. */
  function Depth(p: Progress): nat {
    match p
    case NoProgress => 0
    case Progress(_, _, _, sub) => 1 + Depth(sub)
  }

  /** The report at a nesting level. */
  function Nested(p: Progress, i: nat): (r: Progress)
    requires i < Depth(p)
    ensures r.Progress? && Depth(r) == Depth(p) - i
    decreases i
  {
    if i == 0 then p else Nested(p.sub, i - 1)
  }
}
