/** Writers that share one mutex, byte by byte: any number of goroutines, each with its own list of messages.  A
    message is the bytes it puts into the sinks, in the order they are written under one lock. */
module SyncWriter {
  import opened Wrappers
  import Text

  datatype Sink = Stdio | BuildLog

  /** One byte written to one sink. */
  datatype Put = Put(sink: Sink, byte: char)

  type Message = seq<Put>

  datatype State = State(
    todo: seq<seq<Message>>,        // for each writer, the messages it has not begun
    holder: Option<nat>,            // the writer holding the mutex
    current: Message,               // its message
    pos: nat,                       // how much of it has been written
    stdio: string,
    log: string,
    done: seq<(nat, Message)>       // history: completed messages in lock order
  )

  datatype Step = Lock(w: nat) | WriteByte(w: nat) | Unlock(w: nat)

  function Apply(s: State, a: Step): Option<State> {
    match a
    case Lock(w) =>
      if w < |s.todo| && s.todo[w] != [] && s.holder.None?
      then Some(s.(holder := Some(w), current := s.todo[w][0], pos := 0, todo := s.todo[w := s.todo[w][1..]]))
      else None
    case WriteByte(w) =>
      if s.holder == Some(w) && s.pos < |s.current| then
        var put := s.current[s.pos];
        Some(if put.sink.Stdio? then s.(pos := s.pos + 1, stdio := s.stdio + [put.byte])
             else s.(pos := s.pos + 1, log := s.log + [put.byte]))
      else None
    case Unlock(w) =>
      if s.holder == Some(w) && s.pos == |s.current|
      then Some(s.(holder := None, current := [], pos := 0, done := s.done + [(w, s.current)]))
      else None
  }

  function Run(s: State, steps: seq<Step>): Option<State>
    decreases |steps|
  {
    if steps == [] then Some(s)
    else match Apply(s, steps[0])
      case None => None
      case Some(t) => Run(t, steps[1..])
  }

  function Start(programs: seq<seq<Message>>): State {
    State(programs, None, [], 0, "", "", [])
  }

  /** What a message puts into a sink. */
  function To(m: Message, sink: Sink): string {
    if m == [] then "" else To(m[..|m| - 1], sink) + (if m[|m| - 1].sink == sink then [m[|m| - 1].byte] else "")
  }

  /** What complete messages put into a sink, one after the other. */
  function AllTo(done: seq<(nat, Message)>, sink: Sink): string {
    if done == [] then "" else AllTo(done[..|done| - 1], sink) + To(done[|done| - 1].1, sink)
  }

  /** One writer's messages, in order. */
  function By(done: seq<(nat, Message)>, w: nat): seq<Message> {
    if done == [] then []
    else By(done[..|done| - 1], w) + (if done[|done| - 1].0 == w then [done[|done| - 1].1] else [])
  }

  function Holding(s: State, w: nat): seq<Message> {
    if s.holder == Some(w) then [s.current] else []
  }

  predicate Untorn(s: State, programs: seq<seq<Message>>) {
    && s.pos <= |s.current| && (s.holder.None? ==> s.current == [])
    && s.stdio == AllTo(s.done, Stdio) + To(s.current[..s.pos], Stdio)
    && s.log == AllTo(s.done, BuildLog) + To(s.current[..s.pos], BuildLog)
    && (forall i :: 0 <= i < |s.done| ==> s.done[i].0 < |programs|)
    && |s.todo| == |programs| && (s.holder.Some? ==> s.holder.value < |programs|)
    && forall w :: 0 <= w < |programs| ==> programs[w] == By(s.done, w) + Holding(s, w) + s.todo[w]
  }

  lemma ByteKeepsUntorn(s: State, w: nat, programs: seq<seq<Message>>)
    requires Untorn(s, programs) && Apply(s, WriteByte(w)).Some?
    ensures Untorn(Apply(s, WriteByte(w)).value, programs)
  {
    var t := Apply(s, WriteByte(w)).value;
    var written := s.current[..s.pos + 1];
    assert written[..s.pos] == s.current[..s.pos];
    assert t.done == s.done && t.todo == s.todo && forall v :: Holding(t, v) == Holding(s, v);
  }

  lemma LockKeepsUntorn(s: State, w: nat, programs: seq<seq<Message>>)
    requires Untorn(s, programs) && Apply(s, Lock(w)).Some?
    ensures Untorn(Apply(s, Lock(w)).value, programs)
  {
    var t := Apply(s, Lock(w)).value;
    assert s.todo[w] == [s.todo[w][0]] + s.todo[w][1..];
    assert s.current[..s.pos] == t.current[..t.pos] == [];
  }

  lemma UnlockKeepsUntorn(s: State, w: nat, programs: seq<seq<Message>>)
    requires Untorn(s, programs) && Apply(s, Unlock(w)).Some?
    ensures Untorn(Apply(s, Unlock(w)).value, programs)
  {
    var t := Apply(s, Unlock(w)).value;
    assert t.done[..|t.done| - 1] == s.done;
    assert s.current[..s.pos] == s.current && t.current[..t.pos] == [];
    forall v | 0 <= v < |programs| ensures programs[v] == By(t.done, v) + Holding(t, v) + t.todo[v] {
      assert By(t.done, v) == By(s.done, v) + Holding(s, v);
    }
  }

  lemma StepKeepsUntorn(s: State, a: Step, programs: seq<seq<Message>>)
    requires Untorn(s, programs) && Apply(s, a).Some?
    ensures Untorn(Apply(s, a).value, programs)
  {
    match a
    case Lock(w) => LockKeepsUntorn(s, w, programs);
    case WriteByte(w) => ByteKeepsUntorn(s, w, programs);
    case Unlock(w) => UnlockKeepsUntorn(s, w, programs);
  }

  lemma {:induction false} RunKeepsUntorn(s: State, steps: seq<Step>, programs: seq<seq<Message>>)
    requires Untorn(s, programs) && Run(s, steps).Some?
    ensures Untorn(Run(s, steps).value, programs)
    decreases |steps|
  {
    if steps == [] {
    } else {
      StepKeepsUntorn(s, steps[0], programs);
      RunKeepsUntorn(Apply(s, steps[0]).value, steps[1..], programs);
    }
  }

  /** At every moment of every schedule of any number of writers, each sink is the complete messages in lock order
      followed by a beginning of the lock holder's message; and each writer's messages keep their order, none lost. */
  lemma WritesAreUntorn(programs: seq<seq<Message>>, steps: seq<Step>)
    requires Run(Start(programs), steps).Some?
    ensures Untorn(Run(Start(programs), steps).value, programs)
  {
    RunKeepsUntorn(Start(programs), steps, programs);
  }

  // ---- The build log: the copier of osbuild's output and the status loop

  function PutAll(bytes: string, sink: Sink): (m: Message)
    ensures |m| == |bytes|
  {
    seq(|bytes|, i requires 0 <= i < |bytes| => Put(sink, bytes[i]))
  }

  /** A chunk of output goes to the internal buffer and then to the log, under one lock. */
  function ChunkMessage(chunk: string): Message {
    PutAll(chunk, Stdio) + PutAll(chunk, BuildLog)
  }

  /** A status line goes to the log only. */
  function LineMessage(trace: string): Message {
    PutAll(trace + "\n", BuildLog)
  }

  function Chunks(chunks: seq<string>): (r: seq<Message>)
    ensures |r| == |chunks|
  {
    seq(|chunks|, i requires 0 <= i < |chunks| => ChunkMessage(chunks[i]))
  }

  function LinesOf(traces: seq<string>): (r: seq<Message>)
    ensures |r| == |traces|
  {
    seq(|traces|, i requires 0 <= i < |traces| => LineMessage(traces[i]))
  }

  const COPIER: nat := 0
  const LOOP: nat := 1

  function Concat(parts: seq<string>): string {
    if parts == [] then "" else Concat(parts[..|parts| - 1]) + parts[|parts| - 1]
  }

  /** What went into the log, tagged by who wrote it. */
  datatype Entry = Output(chunk: string) | Line(trace: string)

  function EntryText(e: Entry): string {
    match e
    case Output(chunk) => chunk
    case Line(trace) => trace + "\n"
  }

  function LogText(entries: seq<Entry>): string {
    if entries == [] then "" else LogText(entries[..|entries| - 1]) + EntryText(entries[|entries| - 1])
  }

  function OutputsIn(entries: seq<Entry>): seq<string> {
    if entries == [] then []
    else OutputsIn(entries[..|entries| - 1]) + match entries[|entries| - 1] case Output(c) => [c] case Line(_) => []
  }

  function LinesIn(entries: seq<Entry>): seq<string> {
    if entries == [] then []
    else LinesIn(entries[..|entries| - 1]) + match entries[|entries| - 1] case Output(_) => [] case Line(t) => [t]
  }

  lemma {:induction false} PutAllTo(bytes: string, sink: Sink, other: Sink)
    requires sink != other
    ensures To(PutAll(bytes, sink), sink) == bytes && To(PutAll(bytes, sink), other) == ""
    decreases |bytes|
  {
    if bytes == "" {
    } else {
      var m := PutAll(bytes, sink);
      assert m[..|m| - 1] == PutAll(bytes[..|bytes| - 1], sink);
      PutAllTo(bytes[..|bytes| - 1], sink, other);
      assert bytes == bytes[..|bytes| - 1] + [bytes[|bytes| - 1]];
    }
  }

  lemma {:induction false} ToConcat(a: Message, b: Message, sink: Sink)
    ensures To(a + b, sink) == To(a, sink) + To(b, sink)
    decreases |b|
  {
    if b == [] {
      assert a + b == a;
    } else {
      assert (a + b)[..|a + b| - 1] == a + b[..|b| - 1];
      ToConcat(a, b[..|b| - 1], sink);
    }
  }

  lemma ChunkTo(chunk: string)
    ensures To(ChunkMessage(chunk), Stdio) == chunk && To(ChunkMessage(chunk), BuildLog) == chunk
  {
    PutAllTo(chunk, Stdio, BuildLog);
    PutAllTo(chunk, BuildLog, Stdio);
    ToConcat(PutAll(chunk, Stdio), PutAll(chunk, BuildLog), Stdio);
    ToConcat(PutAll(chunk, Stdio), PutAll(chunk, BuildLog), BuildLog);
  }

  lemma Appended(entries: seq<Entry>, e: Entry)
    ensures var all := entries + [e];
      && LogText(all) == LogText(entries) + EntryText(e)
      && OutputsIn(all) == OutputsIn(entries) + (if e.Output? then [e.chunk] else [])
      && LinesIn(all) == LinesIn(entries) + (if e.Line? then [e.trace] else [])
  {
    assert (entries + [e])[..|entries|] == entries;
  }

  /** The completed messages are those of these chunks and these lines. */
  predicate Wrote(done: seq<(nat, Message)>, chunks: seq<string>, traces: seq<string>) {
    && (forall i :: 0 <= i < |done| ==> done[i].0 == COPIER || done[i].0 == LOOP)
    && By(done, COPIER) == Chunks(chunks) && By(done, LOOP) == LinesOf(traces)
  }

  lemma LastChunk(done: seq<(nat, Message)>, chunks: seq<string>, traces: seq<string>)
    requires Wrote(done, chunks, traces) && done != [] && done[|done| - 1].0 == COPIER
    ensures chunks != [] && Wrote(done[..|done| - 1], chunks[..|chunks| - 1], traces)
    ensures done[|done| - 1].1 == ChunkMessage(chunks[|chunks| - 1])
  {
    var n: nat := |chunks| - 1;
    assert Chunks(chunks) == Chunks(chunks[..n]) + [ChunkMessage(chunks[n])];
    assert Chunks(chunks)[n] == done[|done| - 1].1 && Chunks(chunks)[..n] == By(done[..|done| - 1], COPIER);
  }

  lemma LastLine(done: seq<(nat, Message)>, chunks: seq<string>, traces: seq<string>)
    requires Wrote(done, chunks, traces) && done != [] && done[|done| - 1].0 == LOOP
    ensures traces != [] && Wrote(done[..|done| - 1], chunks, traces[..|traces| - 1])
    ensures done[|done| - 1].1 == LineMessage(traces[|traces| - 1])
  {
    var n: nat := |traces| - 1;
    assert LinesOf(traces) == LinesOf(traces[..n]) + [LineMessage(traces[n])];
    assert LinesOf(traces)[n] == done[|done| - 1].1 && LinesOf(traces)[..n] == By(done[..|done| - 1], LOOP);
  }

  predicate Describes(entries: seq<Entry>, done: seq<(nat, Message)>, chunks: seq<string>, traces: seq<string>) {
    && LogText(entries) == AllTo(done, BuildLog) && Concat(chunks) == AllTo(done, Stdio)
    && OutputsIn(entries) == chunks && LinesIn(entries) == traces
  }

  lemma ConcatAppend(parts: seq<string>, part: string)
    ensures Concat(parts + [part]) == Concat(parts) + part
  {
    assert (parts + [part])[..|parts|] == parts;
  }

  lemma AllToAppend(done: seq<(nat, Message)>, last: (nat, Message), sink: Sink)
    ensures AllTo(done + [last], sink) == AllTo(done, sink) + To(last.1, sink)
  {
    assert (done + [last])[..|done|] == done;
  }

  lemma DescribesChunk(rest: seq<Entry>, done: seq<(nat, Message)>, chunks: seq<string>, chunk: string, traces: seq<string>)
    requires Describes(rest, done, chunks, traces)
    ensures Describes(rest + [Output(chunk)], done + [(COPIER, ChunkMessage(chunk))], chunks + [chunk], traces)
  {
    Appended(rest, Output(chunk));
    ConcatAppend(chunks, chunk);
    ChunkTo(chunk);
    AllToAppend(done, (COPIER, ChunkMessage(chunk)), Stdio);
    AllToAppend(done, (COPIER, ChunkMessage(chunk)), BuildLog);
  }

  lemma DescribesLine(rest: seq<Entry>, done: seq<(nat, Message)>, chunks: seq<string>, traces: seq<string>, trace: string)
    requires Describes(rest, done, chunks, traces)
    ensures Describes(rest + [Line(trace)], done + [(LOOP, LineMessage(trace))], chunks, traces + [trace])
  {
    Appended(rest, Line(trace));
    PutAllTo(trace + "\n", BuildLog, Stdio);
    AllToAppend(done, (LOOP, LineMessage(trace)), Stdio);
    AllToAppend(done, (LOOP, LineMessage(trace)), BuildLog);
  }

  lemma NothingDone(done: seq<(nat, Message)>, chunks: seq<string>, traces: seq<string>)
    requires Wrote(done, chunks, traces) && done == []
    ensures Describes([], done, chunks, traces)
  {
    assert |Chunks(chunks)| == 0 && |LinesOf(traces)| == 0;
  }

  /** The entries behind a list of completed messages of the two writers. */
  lemma {:induction false} EntriesOf(done: seq<(nat, Message)>, chunks: seq<string>, traces: seq<string>)
      returns (entries: seq<Entry>)
    requires Wrote(done, chunks, traces)
    ensures Describes(entries, done, chunks, traces)
    decreases |done|
  {
    if done == [] {
      NothingDone(done, chunks, traces);
      return [];
    }
    var before, last := done[..|done| - 1], done[|done| - 1];
    assert done == before + [last];
    if last.0 == COPIER {
      LastChunk(done, chunks, traces);
      var shorter, chunk := chunks[..|chunks| - 1], chunks[|chunks| - 1];
      assert chunks == shorter + [chunk];
      var rest := EntriesOf(before, shorter, traces);
      DescribesChunk(rest, before, shorter, chunk, traces);
      entries := rest + [Output(chunk)];
    } else {
      LastLine(done, chunks, traces);
      var shorter, trace := traces[..|traces| - 1], traces[|traces| - 1];
      assert traces == shorter + [trace];
      var rest := EntriesOf(before, chunks, shorter);
      DescribesLine(rest, before, chunks, shorter, trace);
      entries := rest + [Line(trace)];
    }
  }

  lemma {:induction false} LogConcat(a: seq<Entry>, b: seq<Entry>)
    ensures LogText(a + b) == LogText(a) + LogText(b)
    decreases |b|
  {
    if b == [] {
      assert a + b == a;
    } else {
      var before, last := b[..|b| - 1], b[|b| - 1];
      assert (a + b)[..|a + b| - 1] == a + before && (a + b)[|a + b| - 1] == last;
      LogConcat(a, before);
      Text.Associative(LogText(a), LogText(before), EntryText(last));
    }
  }

  lemma {:induction false} OutputsConcat(a: seq<Entry>, b: seq<Entry>)
    ensures OutputsIn(a + b) == OutputsIn(a) + OutputsIn(b)
    decreases |b|
  {
    if b == [] {
      assert a + b == a;
    } else {
      var before := b[..|b| - 1];
      assert (a + b)[..|a + b| - 1] == a + before && (a + b)[|a + b| - 1] == b[|b| - 1];
      OutputsConcat(a, before);
    }
  }

  lemma {:induction false} LinesConcat(a: seq<Entry>, b: seq<Entry>)
    ensures LinesIn(a + b) == LinesIn(a) + LinesIn(b)
    decreases |b|
  {
    if b == [] {
      assert a + b == a;
    } else {
      var before := b[..|b| - 1];
      assert (a + b)[..|a + b| - 1] == a + before && (a + b)[|a + b| - 1] == b[|b| - 1];
      LinesConcat(a, before);
    }
  }

  /** What a list of entries says of the log: the chunks and the lines stand in their order, each line with a newline
      behind it. */
  lemma EntriesInOrder(a: seq<Entry>, e: Entry, b: seq<Entry>)
    ensures LogText(a + [e] + b) == LogText(a) + (match e case Output(chunk) => chunk case Line(trace) => trace + "\n") + LogText(b)
    ensures OutputsIn(a + [e] + b) == OutputsIn(a) + (match e case Output(chunk) => [chunk] case Line(_) => []) + OutputsIn(b)
    ensures LinesIn(a + [e] + b) == LinesIn(a) + (match e case Output(_) => [] case Line(trace) => [trace]) + LinesIn(b)
  {
    LogConcat(a + [e], b);
    OutputsConcat(a + [e], b);
    LinesConcat(a + [e], b);
    Appended(a, e);
  }

  // ---- The two writers at work: what they write is not known beforehand

  /** The writers, the output the copier has read so far and the trace list the loop keeps. */
  datatype LogState = LogState(sync: State, received: seq<string>, tracesMsgs: seq<string>)

  /** The copier reads a chunk and will write it, or the loop appends to its list what it will print next; each only
      when it is done with the one before. */
  datatype LogStep = Read(chunk: string) | Trace(trace: string) | Sync(a: Step)

  /** Writer w has nothing to write and is not writing. */
  predicate AtRest(s: State, w: nat) {
    w < |s.todo| && s.todo[w] == [] && s.holder != Some(w)
  }

  function LogApply(t: LogState, a: LogStep): Option<LogState> {
    match a
    case Read(chunk) =>
      if AtRest(t.sync, COPIER)
      then Some(LogState(Assign(t.sync, COPIER, ChunkMessage(chunk)), t.received + [chunk], t.tracesMsgs)) else None
    case Trace(trace) =>
      if AtRest(t.sync, LOOP)
      then Some(LogState(Assign(t.sync, LOOP, LineMessage(trace)), t.received, t.tracesMsgs + [trace])) else None
    case Sync(step) =>
      match Apply(t.sync, step)
      case Some(s) => Some(t.(sync := s))
      case None => None
  }

  function Assign(s: State, w: nat, m: Message): State
    requires w < |s.todo|
  {
    s.(todo := s.todo[w := s.todo[w] + [m]])
  }

  function LogRun(t: LogState, steps: seq<LogStep>): Option<LogState>
    decreases |steps|
  {
    if steps == [] then Some(t)
    else match LogApply(t, steps[0])
      case None => None
      case Some(u) => LogRun(u, steps[1..])
  }

  const LOG_START: LogState := LogState(Start([[], []]), [], [])

  /** What the writers have been given to write, in all. */
  function Given(t: LogState): seq<seq<Message>> {
    [Chunks(t.received), LinesOf(t.tracesMsgs)]
  }

  /** A writer has at most one message ahead of it, counting the one it is writing. */
  predicate OneAhead(s: State) {
    |s.todo| == 2 && forall w :: 0 <= w < |s.todo| ==> |s.todo[w]| + |Holding(s, w)| <= 1
  }

  predicate LogInv(t: LogState) {
    Untorn(t.sync, Given(t)) && OneAhead(t.sync)
  }

  lemma AssignKeepsUntorn(s: State, w: nat, m: Message, programs: seq<seq<Message>>, programs': seq<seq<Message>>)
    requires Untorn(s, programs) && w < |programs| == |programs'|
    requires programs' == programs[w := programs[w] + [m]]
    ensures Untorn(Assign(s, w, m), programs')
  {
    var t := Assign(s, w, m);
    forall v | 0 <= v < |programs'| ensures programs'[v] == By(t.done, v) + Holding(t, v) + t.todo[v] {
      assert Holding(t, v) == Holding(s, v);
      assert v == w ==> By(s.done, v) + Holding(s, v) + s.todo[v] + [m] == By(s.done, v) + Holding(s, v) + (s.todo[v] + [m]);
    }
  }

  lemma StepKeepsOneAhead(s: State, a: Step)
    requires OneAhead(s) && (s.holder.None? ==> s.current == []) && Apply(s, a).Some?
    ensures OneAhead(Apply(s, a).value)
  {
    var t := Apply(s, a).value;
    forall v | 0 <= v < |t.todo| ensures |t.todo[v]| + |Holding(t, v)| <= 1 {
      assert |s.todo[v]| + |Holding(s, v)| <= 1;
    }
  }

  lemma AssignKeepsOneAhead(s: State, w: nat, m: Message)
    requires OneAhead(s) && AtRest(s, w)
    ensures OneAhead(Assign(s, w, m))
  {
    var t := Assign(s, w, m);
    assert forall v :: Holding(t, v) == Holding(s, v);
  }

  lemma ReadKeeps(t: LogState, chunk: string)
    requires LogInv(t) && LogApply(t, Read(chunk)).Some?
    ensures LogInv(LogApply(t, Read(chunk)).value)
  {
    var u := LogApply(t, Read(chunk)).value;
    assert Chunks(u.received) == Chunks(t.received) + [ChunkMessage(chunk)];
    AssignKeepsUntorn(t.sync, COPIER, ChunkMessage(chunk), Given(t), Given(u));
    AssignKeepsOneAhead(t.sync, COPIER, ChunkMessage(chunk));
  }

  lemma TraceKeeps(t: LogState, trace: string)
    requires LogInv(t) && LogApply(t, Trace(trace)).Some?
    ensures LogInv(LogApply(t, Trace(trace)).value)
  {
    var u := LogApply(t, Trace(trace)).value;
    assert LinesOf(u.tracesMsgs) == LinesOf(t.tracesMsgs) + [LineMessage(trace)];
    AssignKeepsUntorn(t.sync, LOOP, LineMessage(trace), Given(t), Given(u));
    AssignKeepsOneAhead(t.sync, LOOP, LineMessage(trace));
  }

  lemma LogStepKeeps(t: LogState, a: LogStep)
    requires LogInv(t) && LogApply(t, a).Some?
    ensures LogInv(LogApply(t, a).value)
  {
    match a {
      case Read(chunk) => ReadKeeps(t, chunk);
      case Trace(trace) => TraceKeeps(t, trace);
      case Sync(step) =>
        StepKeepsUntorn(t.sync, step, Given(t));
        StepKeepsOneAhead(t.sync, step);
    }
  }

  lemma {:induction false} LogRunKeeps(t: LogState, steps: seq<LogStep>)
    requires LogInv(t) && LogRun(t, steps).Some?
    ensures LogInv(LogRun(t, steps).value)
    decreases |steps|
  {
    if steps == [] {
    } else {
      LogStepKeeps(t, steps[0]);
      LogRunKeeps(LogApply(t, steps[0]).value, steps[1..]);
    }
  }

  /** The list, without its last entry when that one has not been written. */
  function Written(all: seq<string>, todo: seq<Message>): seq<string> {
    if todo == [] || all == [] then all else all[..|all| - 1]
  }

  /** The external log is a merge of whole output chunks and whole status lines, each in its own order.  The internal
      buffer is exactly the output chunks of the log, and these are all that was read, or all but the chunk the copier
      is about to write; and the status lines are the trace list, or the list without the entry just appended. */
  predicate IsMerge(t: LogState, entries: seq<Entry>) {
    && t.sync.log == LogText(entries) && t.sync.stdio == Concat(OutputsIn(entries)) && |t.sync.todo| == 2
    && OutputsIn(entries) == Written(t.received, t.sync.todo[COPIER])
    && LinesIn(entries) == Written(t.tracesMsgs, t.sync.todo[LOOP])
  }

  /** Whenever the mutex is free, the log is such a merge, whatever the schedule and whatever is written. */
  lemma BuildLogIsMerge(steps: seq<LogStep>) returns (entries: seq<Entry>)
    requires var r := LogRun(LOG_START, steps); r.Some? && r.value.sync.holder.None?
    ensures IsMerge(LogRun(LOG_START, steps).value, entries)
  {
    NothingGiven();
    LogRunKeeps(LOG_START, steps);
    var t := LogRun(LOG_START, steps).value;
    var outputs, lines := Written(t.received, t.sync.todo[COPIER]), Written(t.tracesMsgs, t.sync.todo[LOOP]);
    FreeMutexWrote(t);
    entries := EntriesOf(t.sync.done, outputs, lines);
    assert t.sync.current[..t.sync.pos] == [];
  }

  lemma NothingGiven()
    ensures LogInv(LOG_START)
  {
    assert Chunks([]) == [] && LinesOf([]) == [];
    assert Given(LOG_START) == [[], []];
  }

  lemma ChunksWritten(received: seq<string>, own: seq<Message>, todo: seq<Message>)
    requires Chunks(received) == own + todo && |todo| <= 1
    ensures own == Chunks(Written(received, todo))
  {
    assert own == Chunks(received)[..|own|];
    if todo != [] {
      assert Written(received, todo) == received[..|own|];
    }
  }

  lemma LinesWritten(traces: seq<string>, own: seq<Message>, todo: seq<Message>)
    requires LinesOf(traces) == own + todo && |todo| <= 1
    ensures own == LinesOf(Written(traces, todo))
  {
    assert own == LinesOf(traces)[..|own|];
    if todo != [] {
      assert Written(traces, todo) == traces[..|own|];
    }
  }

  lemma FreeMutexWrote(t: LogState)
    requires LogInv(t) && t.sync.holder.None?
    ensures Wrote(t.sync.done, Written(t.received, t.sync.todo[COPIER]), Written(t.tracesMsgs, t.sync.todo[LOOP]))
  {
    var done, todo := t.sync.done, t.sync.todo;
    assert Given(t)[COPIER] == By(done, COPIER) + todo[COPIER] && Given(t)[LOOP] == By(done, LOOP) + todo[LOOP];
    ChunksWritten(t.received, By(done, COPIER), todo[COPIER]);
    LinesWritten(t.tracesMsgs, By(done, LOOP), todo[LOOP]);
  }
}
