/** Running osbuild under a terminal progress bar: the loop over its status stream, the build log and trace list, and
    the life of the process. */
module StatusLoop {
  import opened Wrappers
  import opened Osbuild
  import opened Bar
  import opened Metrics
  import opened Text

  /** How the status stream ends, and how waiting for the process does. */
  datatype Ending = EndOfStream | ParseError
  datatype Wait = ExitedWell | ExitedBadly | NotReaped

  /** What the outside decides of a run. */
  datatype World = World(
    pipeOk: bool, startOk: bool, statuses: seq<Status>, ending: Ending, wait: Wait, output: string, signalOk: bool)

  datatype RunError =
    | NoPipe
    | NotStarted
    | StatusUnreadable
    | BuildFailed(traces: seq<string>, output: string)
    | AlsoNotSignalled(err: RunError)

  datatype ProcessEvent = Started | Waited(result: Wait) | Interrupted

  class Process {
    var events: seq<ProcessEvent>

    constructor ()
      ensures events == []
    {
      events := [];
    }

    method Happens(e: ProcessEvent)
      modifies this
      ensures events == old(events) + [e]
    {
      events := events + [e];
    }
  }

  function Max(a: nat, b: nat): nat {
    if a >= b then a else b
  }

  function MaxDepth(statuses: seq<Status>): nat {
    if statuses == [] then 0
    else Max(MaxDepth(statuses[..|statuses| - 1]), Depth(statuses[|statuses| - 1].progress))
  }

  predicate Fits(n: int) {
    -0x8000_0000_0000_0000 <= n < 0x8000_0000_0000_0000
  }

  /** What level i shows for a report that reaches it. */
  function LevelFor(p: Progress, i: nat): (level: Level)
    requires i < Depth(p)
    ensures level.prefix == Nested(p, i).message
    ensures Fits(Nested(p, i).done + 1) ==> level.current == Nested(p, i).done + 1
    ensures Fits(Nested(p, i).total + 1) ==> level.total == Nested(p, i).total + 1
  {
    var n := Nested(p, i);
    LevelOf(n.message, n.done, n.total)
  }

  predicate Reaches(statuses: seq<Status>, k: nat, i: nat) {
    k < |statuses| && i < Depth(statuses[k].progress)
  }

  ghost predicate LastReaching(statuses: seq<Status>, k: nat, i: nat) {
    Reaches(statuses, k, i) && forall j: nat :: k < j ==> !Reaches(statuses, j, i)
  }

  /** The level is what the last status that reached level i said. */
  ghost predicate LastSaid(statuses: seq<Status>, i: nat, level: Level) {
    exists k: nat :: LastReaching(statuses, k, i) && level == LevelFor(statuses[k].progress, i)
  }

  /** Level i holds what the last status that reached it said, or what it held before any did. */
  ghost predicate HoldsLast(before: seq<Level>, statuses: seq<Status>, i: nat, level: Level) {
    || LastSaid(statuses, i, level)
    || ((forall k: nat :: !Reaches(statuses, k, i)) && i < |before| && level == before[i])
  }

  ghost predicate LevelsAfter(before: seq<Level>, statuses: seq<Status>, levels: seq<Level>) {
    && |levels| == Max(|before|, MaxDepth(statuses))
    && forall i :: 0 <= i < |levels| ==> HoldsLast(before, statuses, i, levels[i])
  }

  /** What the levels of a fresh bar are: as many as the greatest depth reported, each with the message and the counters,
      shifted by one, of the last status that reached it. */
  ghost predicate ShowsLast(statuses: seq<Status>, levels: seq<Level>) {
    && |levels| == MaxDepth(statuses)
    && forall i :: 0 <= i < |levels| ==> LastSaid(statuses, i, levels[i])
  }

  function TracesOf(st: Status): seq<string> {
    (if st.message != "" then [st.message] else []) + (if st.trace != "" then [st.trace] else [])
  }

  function AllTraces(statuses: seq<Status>): seq<string> {
    if statuses == [] then [] else AllTraces(statuses[..|statuses| - 1]) + TracesOf(statuses[|statuses| - 1])
  }

  function AsLines(traces: seq<string>): string {
    if traces == [] then "" else AsLines(traces[..|traces| - 1]) + traces[|traces| - 1] + "\n"
  }

  /** The last message that was not empty. */
  function LastMessage(before: string, statuses: seq<Status>): string {
    if statuses == [] then before
    else
      var message := statuses[|statuses| - 1].message;
      if message != "" then message else LastMessage(before, statuses[..|statuses| - 1])
  }

  ghost predicate IsReport(text: string, statuses: seq<Status>) {
    exists sorted :: SlowestFirst(sorted) && multiset(sorted) == multiset(AllRecorded(statuses)) && text == Report(sorted)
  }

  // ---- One status

  lemma LevelsAfterOneMore(before: seq<Level>, statuses: seq<Status>, levels: seq<Level>, st: Status, levels': seq<Level>)
    requires LevelsAfter(before, statuses, levels)
    requires |levels'| == Max(|levels|, Depth(st.progress))
    requires forall i :: 0 <= i < |levels'| ==>
      levels'[i] == if i < Depth(st.progress) then LevelFor(st.progress, i) else levels[i]
    ensures LevelsAfter(before, statuses + [st], levels')
  {
    var all := statuses + [st];
    assert all[..|all| - 1] == statuses;
    forall i | 0 <= i < |levels'| ensures HoldsLast(before, all, i, levels'[i]) {
      if i < Depth(st.progress) {
        assert LastReaching(all, |statuses|, i);
      } else {
        assert HoldsLast(before, statuses, i, levels[i]);
        assert forall k: nat :: Reaches(all, k, i) <==> Reaches(statuses, k, i);
        if k: nat :| LastReaching(statuses, k, i) && levels[i] == LevelFor(statuses[k].progress, i) {
          assert LastReaching(all, k, i);
        }
      }
    }
  }

  /** The inner loop over the nested reports: no level is ever set before the one above it exists. */
  method ShowProgress(bar: TerminalProgressBar, progress: Progress) returns (warned: bool)
    modifies bar`subLevels
    ensures !warned
    ensures var before := old(bar.subLevels);
      && |bar.subLevels| == Max(|before|, Depth(progress))
      && forall i :: 0 <= i < |bar.subLevels| ==>
         bar.subLevels[i] == if i < Depth(progress) then LevelFor(progress, i) else before[i]
    ensures forall i :: 0 <= i < Depth(progress) ==>
      && bar.subLevels[i].prefix == Nested(progress, i).message
      && (-0x8000_0000_0000_0000 <= Nested(progress, i).done + 1 < 0x8000_0000_0000_0000 ==>
          bar.subLevels[i].current == Nested(progress, i).done + 1)
      && (-0x8000_0000_0000_0000 <= Nested(progress, i).total + 1 < 0x8000_0000_0000_0000 ==>
          bar.subLevels[i].total == Nested(progress, i).total + 1)
  {
    warned := false;
    var i := 0;
    var p := progress;
    while p.Progress?
      invariant i + Depth(p) == Depth(progress)
      invariant p.Progress? ==> p == Nested(progress, i)
      invariant !warned
      invariant |bar.subLevels| == Max(|old(bar.subLevels)|, i)
      invariant forall j :: 0 <= j < |bar.subLevels| ==>
        bar.subLevels[j] == if j < i then LevelFor(progress, j) else old(bar.subLevels[j])
      decreases p
    {
      NestedStep(progress, i);
      var err := bar.SetProgress(i, p.message, p.done, p.total);
      if err.Some? {
        warned := true;
      }
      i := i + 1;
      p := p.sub;
    }
  }

  lemma {:induction false} NestedStep(p: Progress, i: nat)
    requires i < Depth(p)
    ensures i + 1 < Depth(p) ==> Nested(p, i + 1) == Nested(p, i).sub
    decreases i
  {
    if i == 0 {
    } else {
      NestedStep(p.sub, i - 1);
    }
  }

  // ---- The whole run

  method OneStatus(bar: TerminalProgressBar, st: Status, oss: OsbuildStageMetrics, metrics: bool, traces: seq<string>, log: string)
    returns (tracesMsgs: seq<string>, logged: string, warned: bool)
    modifies bar`subLevels, bar`message, oss
    ensures !warned
    ensures var before := old(bar.subLevels);
      && |bar.subLevels| == Max(|before|, Depth(st.progress))
      && forall i :: 0 <= i < |bar.subLevels| ==>
         bar.subLevels[i] == if i < Depth(st.progress) then LevelFor(st.progress, i) else before[i]
    ensures bar.message == if st.message != "" then st.message else old(bar.message)
    ensures forall i :: 0 <= i < Depth(st.progress) ==>
      && bar.subLevels[i].prefix == Nested(st.progress, i).message
      && (-0x8000_0000_0000_0000 <= Nested(st.progress, i).done + 1 < 0x8000_0000_0000_0000 ==>
          bar.subLevels[i].current == Nested(st.progress, i).done + 1)
      && (-0x8000_0000_0000_0000 <= Nested(st.progress, i).total + 1 < 0x8000_0000_0000_0000 ==>
          bar.subLevels[i].total == Nested(st.progress, i).total + 1)
    ensures tracesMsgs == traces + (if st.message != "" then [st.message] else []) + (if st.trace != "" then [st.trace] else [])
    ensures logged == log + (if st.message != "" then st.message + "\n" else "") + (if st.trace != "" then st.trace + "\n" else "")
    ensures tracesMsgs == traces + TracesOf(st) && (log == AsLines(traces) ==> logged == AsLines(tracesMsgs))
    ensures oss.durations == old(oss.durations) + if metrics then Recorded(st) else []
  {
    tracesMsgs, logged := traces, log;
    warned := ShowProgress(bar, st.progress);
    if st.message != "" {
      bar.SetMessage(st.message);
    }
    if st.message != "" {
      tracesMsgs := tracesMsgs + [st.message];
      logged := logged + (st.message + "\n");
    }
    if st.trace != "" {
      tracesMsgs := tracesMsgs + [st.trace];
      logged := logged + (st.trace + "\n");
    }
    assert tracesMsgs == traces + TracesOf(st);
    AsLinesGrows(traces, st);
    if metrics {
      oss.Add(st);
    }
  }

  /** The status loop: every status up to the end of the stream. */
  method FollowStatuses(bar: TerminalProgressBar, all: seq<Status>, oss: OsbuildStageMetrics, metrics: bool)
    returns (tracesMsgs: seq<string>, logged: string, warned: bool)
    requires oss.durations == []
    modifies bar`subLevels, bar`message, oss
    ensures !warned
    ensures LevelsAfter(old(bar.subLevels), all, bar.subLevels)
    ensures old(bar.subLevels) == [] ==> ShowsLast(all, bar.subLevels)
    ensures forall i: nat, k: nat :: LastReaching(all, k, i) ==>
      && i < |bar.subLevels| && bar.subLevels[i].prefix == Nested(all[k].progress, i).message
      && (-0x8000_0000_0000_0000 <= Nested(all[k].progress, i).done + 1 < 0x8000_0000_0000_0000 ==>
          bar.subLevels[i].current == Nested(all[k].progress, i).done + 1)
      && (-0x8000_0000_0000_0000 <= Nested(all[k].progress, i).total + 1 < 0x8000_0000_0000_0000 ==>
          bar.subLevels[i].total == Nested(all[k].progress, i).total + 1)
    ensures bar.message == LastMessage(old(bar.message), all)
    ensures tracesMsgs == AllTraces(all) && logged == AsLines(tracesMsgs)
    ensures oss.durations == if metrics then AllRecorded(all) else []
  {
    tracesMsgs, logged, warned := [], "", false;
    assert all[..0] == [] && MaxDepth([]) == 0;
    for n := 0 to |all|
      invariant !warned
      invariant LevelsAfter(old(bar.subLevels), all[..n], bar.subLevels)
      invariant bar.message == LastMessage(old(bar.message), all[..n])
      invariant tracesMsgs == AllTraces(all[..n]) && logged == AsLines(tracesMsgs)
      invariant oss.durations == if metrics then AllRecorded(all[..n]) else []
    {
      ghost var levels := bar.subLevels;
      OneMoreStatus(all, n, old(bar.message));
      var warnedNow: bool;
      tracesMsgs, logged, warnedNow := OneStatus(bar, all[n], oss, metrics, tracesMsgs, logged);
      warned := warned || warnedNow;
      LevelsAfterOneMore(old(bar.subLevels), all[..n], levels, all[n], bar.subLevels);
    }
    assert all[..|all|] == all;
    LastReportsHold(old(bar.subLevels), all, bar.subLevels);
    if old(bar.subLevels) == [] {
      LevelsFromFresh(all, bar.subLevels);
    }
  }

  /** The events of a run's process, given how its stream and its process end. */
  function ExpectedEvents(world: World): seq<ProcessEvent> {
    if !world.pipeOk || !world.startOk then []
    else if world.ending == ParseError then [Started, Interrupted]
    else if world.wait == NotReaped then [Started, Waited(NotReaped), Interrupted]
    else [Started, Waited(world.wait)]
  }

  /** What a run returns; a failure to interrupt the process is added to why it was interrupted. */
  function ExpectedError(world: World): Option<RunError> {
    var joined := (err: RunError) => if world.signalOk then err else AlsoNotSignalled(err);
    var failed := BuildFailed(AllTraces(world.statuses), world.output);
    if !world.pipeOk then Some(NoPipe)
    else if !world.startOk then Some(NotStarted)
    else if world.ending == ParseError then Some(joined(StatusUnreadable))
    else if world.wait == NotReaped then Some(joined(failed))
    else if world.wait == ExitedBadly then Some(failed)
    else None
  }

  predicate Reaped(events: seq<ProcessEvent>) {
    exists i :: 0 <= i < |events| && events[i].Waited? && events[i].result != NotReaped
  }

  function Interrupts(events: seq<ProcessEvent>): nat {
    multiset(events)[Interrupted]
  }

  /** The process is interrupted at most once, as the last thing, and exactly when it was started, the run failed and
      it has not been reaped; it is never waited for after an interrupt. */
  lemma InterruptedIffNotReaped(world: World)
    ensures var events := ExpectedEvents(world);
      && Interrupts(events) == (if events != [] && ExpectedError(world).Some? && !Reaped(events) then 1 else 0)
      && (forall i :: 0 <= i < |events| && events[i] == Interrupted ==> i == |events| - 1)
      && (ExpectedError(world).None? ==> Reaped(events))
      && (ExpectedError(world).Some? && ExpectedError(world).value.AlsoNotSignalled? ==> Interrupts(events) == 1)
  {
    var events := ExpectedEvents(world);
    if events != [] && world.ending == EndOfStream {
      assert events[1] == Waited(world.wait);
    }
  }

  /** In every run: nil is returned only when the stream ended and the wait succeeded; the process is interrupted
      exactly when the run fails before it has been reaped, once; progress is never reported out of order; and the
      metrics reach the captured output once, on success only. */
  method RunOSBuildWithProgress(bar: TerminalProgressBar, process: Process, world: World, metrics: bool)
    returns (err: Option<RunError>, tracesMsgs: seq<string>, logged: string, warned: bool)
    requires process.events == []
    modifies bar`subLevels, bar`message, bar`buf, process
    ensures !warned && err == ExpectedError(world) && process.events == ExpectedEvents(world)
    ensures err.None? <==> world.pipeOk && world.startOk && world.ending.EndOfStream? && world.wait.ExitedWell?
    ensures !world.pipeOk ==> err == Some(NoPipe)
    ensures world.pipeOk && !world.startOk ==> err == Some(NotStarted)
    ensures world.pipeOk && world.startOk && err.Some? ==>
      && (err.value.AlsoNotSignalled? <==> Interrupted in process.events && !world.signalOk)
      && var cause := if err.value.AlsoNotSignalled? then err.value.err else err.value;
         cause == if world.ending.ParseError? then StatusUnreadable else BuildFailed(tracesMsgs, world.output)
    ensures process.events ==
      if !world.pipeOk || !world.startOk then []
      else [Started] + (if world.ending.EndOfStream? then [Waited(world.wait)] else [])
           + (if world.ending.ParseError? || world.wait.NotReaped? then [Interrupted] else [])
    ensures !world.pipeOk || !world.startOk ==>
      bar.subLevels == old(bar.subLevels) && bar.message == old(bar.message) && tracesMsgs == [] && logged == ""
    ensures world.pipeOk && world.startOk ==>
      && LevelsAfter(old(bar.subLevels), world.statuses, bar.subLevels)
      && (old(bar.subLevels) == [] ==> ShowsLast(world.statuses, bar.subLevels))
      && bar.message == LastMessage(old(bar.message), world.statuses)
      && tracesMsgs == AllTraces(world.statuses) && logged == AsLines(tracesMsgs)
    ensures if metrics && world.pipeOk && world.startOk && world.ending.EndOfStream? && world.wait.ExitedWell?
      then exists text :: IsReport(text, world.statuses) && bar.buf == old(bar.buf) + text
      else bar.buf == old(bar.buf)
  {
    err, tracesMsgs, logged, warned := None, [], "", false;
    if !world.pipeOk {
      err := Some(NoPipe);
      return;
    }
    if !world.startOk {
      err := Some(NotStarted);
      return;
    }
    process.Happens(Started);
    var oss := new OsbuildStageMetrics();
    tracesMsgs, logged, warned := FollowStatuses(bar, world.statuses, oss, metrics);
    var reaped := false;
    if world.ending == ParseError {
      err := Some(StatusUnreadable);
    } else {
      process.Happens(Waited(world.wait));
      reaped := world.wait != NotReaped;
      if world.wait != ExitedWell {
        err := Some(BuildFailed(tracesMsgs, world.output));
      } else if metrics {
        var text := oss.String();
        assert IsReport(text, world.statuses);
        bar.Write(text);
      }
    }
    // deferred: be gentle to a process that has not been reaped
    if err.Some? && !reaped {
      process.Happens(Interrupted);
      if !world.signalOk {
        err := Some(AlsoNotSignalled(err.value));
      }
    }
  }

  lemma {:induction false} DepthWithinMax(statuses: seq<Status>, k: nat)
    requires k < |statuses|
    ensures Depth(statuses[k].progress) <= MaxDepth(statuses)
    decreases |statuses|
  {
    if k == |statuses| - 1 {
    } else {
      DepthWithinMax(statuses[..|statuses| - 1], k);
    }
  }

  lemma LastReportHolds(before: seq<Level>, statuses: seq<Status>, levels: seq<Level>, k: nat, i: nat)
    requires LevelsAfter(before, statuses, levels) && LastReaching(statuses, k, i)
    ensures i < |levels| && levels[i] == LevelFor(statuses[k].progress, i)
  {
    DepthWithinMax(statuses, k);
    assert HoldsLast(before, statuses, i, levels[i]);
    assert Reaches(statuses, k, i);
    var j: nat :| LastReaching(statuses, j, i) && levels[i] == LevelFor(statuses[j].progress, i);
    assert j == k;
  }

  lemma LastReportsHold(before: seq<Level>, statuses: seq<Status>, levels: seq<Level>)
    requires LevelsAfter(before, statuses, levels)
    ensures forall i: nat, k: nat :: LastReaching(statuses, k, i) ==>
      i < |levels| && levels[i] == LevelFor(statuses[k].progress, i)
  {
    forall i: nat, k: nat | LastReaching(statuses, k, i)
      ensures i < |levels| && levels[i] == LevelFor(statuses[k].progress, i)
    {
      LastReportHolds(before, statuses, levels, k, i);
    }
  }

  lemma LevelsFromFresh(statuses: seq<Status>, levels: seq<Level>)
    requires LevelsAfter([], statuses, levels)
    ensures ShowsLast(statuses, levels)
  {
    forall i | 0 <= i < |levels| ensures LastSaid(statuses, i, levels[i]) {
      assert HoldsLast([], statuses, i, levels[i]);
    }
  }

  lemma AsLinesAppend(traces: seq<string>, trace: string)
    ensures AsLines(traces + [trace]) == AsLines(traces) + trace + "\n"
  {
    assert (traces + [trace])[..|traces|] == traces;
  }

  lemma AsLinesGrows(traces: seq<string>, st: Status)
    ensures var first := if st.message != "" then AsLines(traces) + (st.message + "\n") else AsLines(traces);
      AsLines(traces + TracesOf(st)) == if st.trace != "" then first + (st.trace + "\n") else first
  {
    var first := if st.message != "" then traces + [st.message] else traces;
    AsLinesAppend(traces, st.message);
    AsLinesAppend(first, st.trace);
    Associative(AsLines(traces), st.message, "\n");
    Associative(AsLines(first), st.trace, "\n");
    assert traces + TracesOf(st) == if st.trace != "" then first + [st.trace] else first;
  }

  lemma AllTracesAppend(statuses: seq<Status>, st: Status)
    ensures AllTraces(statuses + [st]) == AllTraces(statuses) + TracesOf(st)
  {
    assert (statuses + [st])[..|statuses|] == statuses;
  }

  /** The traces are those of the statuses in their order, each status giving its message and its trace unless empty, and
      their lines are the traces in their order, each with a newline behind it. */
  lemma {:induction false} TracesInOrder(a: seq<Status>, st: Status, b: seq<Status>)
    ensures AllTraces([]) == []
    ensures AllTraces(a + [st] + b) ==
      AllTraces(a) + (if st.message != "" then [st.message] else []) + (if st.trace != "" then [st.trace] else []) + AllTraces(b)
    decreases |b|
  {
    if b == [] {
      assert a + [st] + b == a + [st];
      AllTracesAppend(a, st);
    } else {
      var before, last := b[..|b| - 1], b[|b| - 1];
      TracesInOrder(a, st, before);
      assert b == before + [last];
      assert a + [st] + b == a + [st] + before + [last];
      AllTracesAppend(a + [st] + before, last);
      AllTracesAppend(before, last);
      assert AllTraces(a + [st] + before) + TracesOf(last) == AllTraces(a + [st] + b);
    }
  }

  lemma {:induction false} LinesInOrder(a: seq<string>, trace: string, b: seq<string>)
    ensures AsLines([]) == "" && AsLines(a + [trace] + b) == AsLines(a) + trace + "\n" + AsLines(b)
    decreases |b|
  {
    if b == [] {
      assert a + [trace] + b == a + [trace];
      AsLinesAppend(a, trace);
    } else {
      var before, last := b[..|b| - 1], b[|b| - 1];
      LinesInOrder(a, trace, before);
      assert a + [trace] + b == a + [trace] + before + [last] && b == before + [last];
      AsLinesAppend(a + [trace] + before, last);
      AsLinesAppend(before, last);
      Associative(AsLines(a) + trace + "\n", AsLines(before) + last, "\n");
      Associative(AsLines(a) + trace + "\n", AsLines(before), last);
    }
  }

  /** The message that stays is the last one that is not empty. */
  lemma {:induction false} LastMessageStays(before: string, statuses: seq<Status>, k: nat)
    requires k <= |statuses| && forall j :: k < j < |statuses| ==> statuses[j].message == ""
    requires k < |statuses| ==> statuses[k].message != ""
    requires k == |statuses| ==> forall j :: 0 <= j < |statuses| ==> statuses[j].message == ""
    ensures LastMessage(before, statuses) == if k < |statuses| then statuses[k].message else before
    decreases |statuses|
  {
    if statuses == [] || k == |statuses| - 1 {
    } else {
      LastMessageStays(before, statuses[..|statuses| - 1], if k == |statuses| then k - 1 else k);
    }
  }

  lemma OneMoreStatus(all: seq<Status>, n: nat, before: string)
    requires n < |all|
    ensures all[..n + 1] == all[..n] + [all[n]]
    ensures AllTraces(all[..n + 1]) == AllTraces(all[..n]) + TracesOf(all[n])
    ensures AllRecorded(all[..n + 1]) == AllRecorded(all[..n]) + Recorded(all[n])
    ensures LastMessage(before, all[..n + 1]) == if all[n].message != "" then all[n].message else LastMessage(before, all[..n])
  {
    assert all[..n + 1][..n] == all[..n];
  }
}
