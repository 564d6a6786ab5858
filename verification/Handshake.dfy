/** The running terminal progress bar as a state machine: one controlling caller of Start and Stop, the render
    goroutines it spawns, one goroutine at a time in SetProgress, and any number of goroutines that set messages or
    Write, all at any moment, inside a Stop as well.  A step is one access to shared state or one
    write to the terminal.  Steps carry what the scheduler and the bar library choose, so a run is a sequence
    of steps.  The channel field is read afresh wherever the code reads it, and a double close, a close of nil and a
    send on a closed channel panic, so that their absence is a theorem. */
module Handshake {
  import opened Terminal
  import opened Frame
  import opened Wrappers
  import opened Bar

  /** The texts the bar library renders for a content; they may change with time, as the spinner's do. */
  datatype Style = Style(spinner: (string, nat) -> string, level: (Level, nat) -> string, message: (string, nat) -> string)

  /** How one bar's line is read: each field of the bar at a place in the past, and when the library lays it out. */
  datatype Reading = Reading(prefix: nat, current: nat, total: nat, time: nat)

  /** Where a render goroutine is.  A repaint has drawn some lines and may have evaluated the range over the bars. */
  datatype Renderer =
    | Looping
    | Waiting(ch: Option<nat>)
    | Painting(final: bool, drawn: seq<string>, bars: Option<nat>)
    | Repainted
    | Revealed
    | Lowered
    | Exited

  /** Where the controlling caller is: idle, inside Start, or inside Stop. */
  datatype Caller =
    | Idle
    | Hiding | Making | Spawning
    | Sending(ch: nat) | Acking(ack: Option<nat>) | Clearing | Checking | Locking | Emitting | Resetting

  /** A SetProgress under way, with so many fields of its level stored; before is what the levels were at the call. */
  datatype Update = Update(level: nat, goal: Level, stored: nat, before: seq<Level>)

  datatype State = State(
    field: Option<nat>,         // shutdownCh: nil or the number of a channel
    closed: seq<bool>,          // by channel number
    renderers: seq<Renderer>,   // by order of spawning
    caller: Caller,
    updater: Option<Update>,
    bar: Content,               // the messages and the sub-level bars
    style: Style,
    initial: Screen,            // the terminal before the first byte
    out: string,                // every byte written to the terminal
    buf: string,                // bytes captured by Write
    locked: bool,               // the buffer mutex
    panicked: bool,
    // history
    written: string,            // all bytes ever passed to Write, in lock order
    flushed: string,            // all bytes ever copied from the buffer to the terminal
    hides: nat,
    shows: nat,
    start: nat,                 // length of out when the current session began
    frame: seq<string>,         // the last complete frame of the current session
    past: seq<Content>,         // everything the bar has held, up to now
    asked: nat,                 // where in past Stop was last called on a running bar
    seen: seq<nat>,             // where in past each line of the repaint under way was read
    frameSeen: seq<nat>,        // the same for the lines of the frame
    lowered: nat,               // how far the last renderer to finish moved the cursor down
    tail: Option<string>        // what has been flushed since the current session's renderer exited
  ) {
    function Levels(): nat {
      |bar.levels|
    }
  }

  datatype Step =
    | BeginStart | Hide | Make | Spawn
    | BeginStop | SendOnClosed | Ack | AckTimeout | ClearField | CheckBuffer | LockBuffer | EmitBuffer | ResetBuffer
    | SetProgress(level: nat, text: string, done: int, total: int) | StoreField | SetPulse(text: string) | SetMessage(text: string)
    | Write(bytes: string)
    | EnterSelect(r: nat) | Tick(r: nat) | Handover(r: nat) | ReceiveClosed(r: nat)
    | Spinner(r: nat, time: nat) | Range(r: nat) | BarLine(r: nat, how: Reading) | Message(r: nat, time: nat)
    | Up(r: nat) | Show(r: nat) | Lower(r: nat) | Close(r: nat)

  function Emit(s: State, bytes: string): State {
    s.(out := s.out + bytes)
  }

  function Newlines(n: nat): (bytes: string)
    ensures |bytes| == n
  {
    seq(n, _ => '\n')
  }

  function At(s: State, r: nat, where: Renderer): State
    requires r < |s.renderers|
  {
    s.(renderers := s.renderers[r := where])
  }

  predicate IsClosed(s: State, ch: Option<nat>) {
    ch.Some? && ch.value < |s.closed| && s.closed[ch.value]
  }

  /** Where in the past the bar is now. */
  function Now(s: State): nat {
    if s.past == [] then 0 else |s.past| - 1
  }

  /** Where in the past the last line of the repaint under way was read. */
  function Looked(s: State): nat {
    if s.seen == [] then 0 else s.seen[|s.seen| - 1]
  }

  predicate HasLevel(past: seq<Content>, i: nat, at: nat) {
    at < |past| && i < |past[at].levels|
  }

  /** The fields of the i-th bar can be read so, no earlier than the line before and no later than they are written. */
  predicate Readable(past: seq<Content>, i: nat, from: nat, at: nat, how: Reading) {
    && from <= how.prefix <= at && from <= how.current <= at && from <= how.total <= at
    && HasLevel(past, i, how.prefix) && HasLevel(past, i, how.current) && HasLevel(past, i, how.total)
  }

  /** What is read of the i-th bar, which the bar need never have held as a whole. */
  function LevelRead(past: seq<Content>, i: nat, how: Reading): Level
    requires HasLevel(past, i, how.prefix) && HasLevel(past, i, how.current) && HasLevel(past, i, how.total)
  {
    Level(past[how.prefix].levels[i].prefix, past[how.current].levels[i].current, past[how.total].levels[i].total)
  }

  // A step gives None when it is not possible.

  /** Start, by the controlling caller. */
  function StartStep(s: State, a: Step): Option<State> {
    match a
    case BeginStart =>
      if !s.caller.Idle? then None else Some(if s.field.Some? then s else s.(caller := Hiding))
    case Hide =>
      if !s.caller.Hiding? then None
      else Some(Emit(s, CURSOR_HIDE).(hides := s.hides + 1, start := |s.out|, frame := [], frameSeen := [], tail := None, caller := Making))
    case Make =>
      if !s.caller.Making? then None
      else Some(s.(closed := s.closed + [false], field := Some(|s.closed|), caller := Spawning))
    case Spawn =>
      if !s.caller.Spawning? then None else Some(s.(renderers := s.renderers + [Looping], caller := Idle))
    case _ => None
  }

  /** Stop up to the cleared field, by the controlling caller. */
  function StopStep(s: State, a: Step): Option<State> {
    match a
    case BeginStop =>
      if !s.caller.Idle? then None else Some(if s.field.None? then s else s.(caller := Sending(s.field.value), asked := Now(s)))
    case SendOnClosed =>
      if s.caller.Sending? && IsClosed(s, Some(s.caller.ch)) then Some(s.(panicked := true)) else None
    case Ack =>
      if s.caller.Acking? && IsClosed(s, s.caller.ack) then Some(s.(caller := Clearing)) else None
    case AckTimeout =>
      if s.caller.Acking? then Some(s.(caller := Clearing)) else None
    case ClearField =>
      if s.caller.Clearing? then Some(s.(field := None, caller := Checking)) else None
    case _ => None
  }

  /** The rest of Stop: the buffer's length is read without the lock, the flush and the reset are under it. */
  function FlushStep(s: State, a: Step): Option<State> {
    match a
    case CheckBuffer =>
      if s.caller.Checking? then Some(s.(caller := if s.buf == "" then Idle else Locking)) else None
    case LockBuffer =>
      if s.caller.Locking? && !s.locked then Some(s.(locked := true, caller := Emitting)) else None
    case EmitBuffer =>
      if !s.caller.Emitting? then None
      else Some(Emit(s, ERASE_LINE + s.buf).(flushed := s.flushed + s.buf, tail := Some(s.buf), caller := Resetting))
    case ResetBuffer =>
      if s.caller.Resetting? then Some(s.(buf := "", locked := false, caller := Idle)) else None
    case _ => None
  }

  function WithContent(s: State, content: Content): State {
    s.(bar := content, past := s.past + [content])
  }

  /** The setters and Write, by anyone. */
  function UpdateStep(s: State, a: Step): Option<State> {
    match a
    case SetProgress(level, text, done, total) =>
      if s.updater.Some? then None
      else if level > s.Levels() then Some(s)
      else
        var levels := if level == s.Levels() then s.bar.levels + [Level("", 0, 0)] else s.bar.levels;
        Some(WithContent(s, s.bar.(levels := levels)).(
          updater := Some(Update(level, LevelOf(text, done, total), 0, s.bar.levels))))
    case StoreField =>
      if s.updater.None? || s.updater.value.level >= s.Levels() then None
      else
        var Update(level, goal, stored, before) := s.updater.value;
        var was := s.bar.levels[level];
        var stepped := if stored == 0 then was.(total := goal.total)
                       else if stored == 1 then was.(current := goal.current)
                       else was.(prefix := goal.prefix);
        Some(WithContent(s, s.bar.(levels := s.bar.levels[level := stepped])).(
          updater := if stored < 2 then Some(Update(level, goal, stored + 1, before)) else None))
    case SetPulse(text) => Some(WithContent(s, s.bar.(spinner := text)))
    case SetMessage(text) => Some(WithContent(s, s.bar.(message := text)))
    case Write(bytes) =>
      if s.locked then None else Some(s.(buf := s.buf + bytes, written := s.written + bytes))
    case _ => None
  }

  /** The select of renderLoop, whose channel operand is evaluated on entry. */
  function SelectStep(s: State, a: Step, r: nat): Option<State>
    requires r < |s.renderers|
  {
    var me := s.renderers[r];
    match a
    case EnterSelect(_) => if me.Looping? then Some(At(s, r, Waiting(s.field))) else None
    case Tick(_) => if me.Waiting? then Some(At(s, r, Painting(false, [], None)).(seen := [])) else None
    case Handover(_) =>
      if me.Waiting? && s.caller.Sending? && me.ch == Some(s.caller.ch) && !IsClosed(s, me.ch)
      then Some(At(s, r, Painting(true, [], None)).(seen := [], caller := Acking(s.field))) else None
    case ReceiveClosed(_) =>
      if me.Waiting? && IsClosed(s, me.ch) then Some(At(s, r, Painting(true, [], None)).(seen := [])) else None
    case _ => None
  }

  /** render, one write or one read of the bars at a time. */
  function PaintStep(s: State, a: Step, r: nat): Option<State>
    requires r < |s.renderers|
  {
    if !s.renderers[r].Painting? then None
    else
      var Painting(final, drawn, bars) := s.renderers[r];
      match a
      case Spinner(_, time) =>
        var text := s.style.spinner(s.bar.spinner, time);
        if bars.None? && drawn == [] && PlainText(text) then Some(DrawLine(s, r, ShortenedLine(text, s.initial.width)))
        else None
      case Range(_) =>
        if bars.None? && drawn != [] then Some(At(s, r, Painting(final, drawn, Some(s.Levels())))) else None
      case BarLine(_, how) =>
        if bars.Some? && 1 <= |drawn| <= bars.value && Readable(s.past, |drawn| - 1, Looked(s), Now(s), how)
           && FitsRow(s.style.level(LevelRead(s.past, |drawn| - 1, how), how.time), s.initial.width)
        then Some(DrawLine(s, r, s.style.level(LevelRead(s.past, |drawn| - 1, how), how.time))) else None
      case Message(_, time) =>
        var text := s.style.message(s.bar.message, time);
        if bars.Some? && |drawn| == bars.value + 1 && PlainText(text)
        then Some(DrawLine(s, r, ShortenedLine(text, s.initial.width))) else None
      case Up(_) =>
        if bars.Some? && |drawn| == bars.value + 2
        then Some(Emit(At(s, r, if final then Repainted else Looping), CursorUp(|drawn|)).(frame := drawn, frameSeen := s.seen)) else None
      case _ => None
  }

  function DrawLine(s: State, r: nat, line: string): State
    requires r < |s.renderers| && s.renderers[r].Painting?
  {
    Emit(At(s, r, s.renderers[r].(drawn := s.renderers[r].drawn + [line])), LineOutput(line)).(
      seen := s.seen + [Now(s)])
  }

  /** The end of renderLoop after a shutdown request. */
  function CloseStep(s: State, a: Step, r: nat): Option<State>
    requires r < |s.renderers|
  {
    var me := s.renderers[r];
    match a
    case Show(_) =>
      if me.Repainted? then Some(Emit(At(s, r, Revealed), CURSOR_SHOW).(shows := s.shows + 1)) else None
    case Lower(_) => if me.Revealed? then Some(Emit(At(s, r, Lowered), Newlines(2 + s.Levels())).(lowered := 2 + s.Levels())) else None
    case Close(_) =>
      if !me.Lowered? then None
      else if s.field.None? || s.field.value >= |s.closed| || s.closed[s.field.value] then Some(s.(panicked := true))
      else Some(At(s, r, Exited).(closed := s.closed[s.field.value := true]))
    case _ => None
  }

  // Who takes a step, and in which part of the code

  predicate ByStart(a: Step) {
    a.BeginStart? || a.Hide? || a.Make? || a.Spawn?
  }

  predicate ByFlush(a: Step) {
    a.CheckBuffer? || a.LockBuffer? || a.EmitBuffer? || a.ResetBuffer?
  }

  /** A step of SetProgress, of a message setter or of Write, by whichever goroutine. */
  predicate ByAnyone(a: Step) {
    a.SetProgress? || a.StoreField? || a.SetPulse? || a.SetMessage? || a.Write?
  }

  predicate Selects(a: Step) {
    a.EnterSelect? || a.Tick? || a.Handover? || a.ReceiveClosed?
  }

  /** A step that writes a line. */
  predicate Draws(a: Step) {
    a.Spinner? || a.BarLine? || a.Message?
  }

  predicate Paints(a: Step) {
    Draws(a) || a.Range? || a.Up?
  }

  predicate Closes(a: Step) {
    a.Show? || a.Lower? || a.Close?
  }

  predicate ByRenderer(a: Step) {
    Selects(a) || Paints(a) || Closes(a)
  }

  /** One step; after a panic there are none. */
  function Apply(s: State, a: Step): Option<State> {
    if s.panicked then None
    else if ByStart(a) then StartStep(s, a)
    else if ByFlush(a) then FlushStep(s, a)
    else if ByAnyone(a) then UpdateStep(s, a)
    else if !ByRenderer(a) then StopStep(s, a)
    else if a.r >= |s.renderers| then None
    else if Selects(a) then SelectStep(s, a, a.r)
    else if Closes(a) then CloseStep(s, a, a.r)
    else PaintStep(s, a, a.r)
  }

  /** The one-second timer of Stop does not win before the channel is closed. */
  predicate InTime(s: State, a: Step) {
    a.AckTimeout? && s.caller.Acking? ==> IsClosed(s, s.caller.ack)
  }

  /** The state after a run; None when some step of it is not possible or a timer won too early. */
  function Run(s: State, steps: seq<Step>): Option<State>
    decreases |steps|
  {
    if steps == [] then Some(s)
    else if !InTime(s, steps[0]) then None
    else match Apply(s, steps[0])
      case None => None
      case Some(t) => Run(t, steps[1..])
  }

  predicate Initial(s: State) {
    && s.field == None && s.closed == [] && s.renderers == [] && s.caller == Idle && s.updater == None && s.bar == Content("", "", [])
    && s.initial.Valid() && s.out == "" && s.buf == "" && !s.locked && !s.panicked
    && s.written == "" && s.flushed == "" && s.hides == 0 && s.shows == 0 && s.start == 0 && s.frame == [] && s.tail == None
    && s.past == [s.bar] && s.asked == 0 && s.seen == [] && s.frameSeen == [] && s.lowered == 0
  }

  // ---- The invariant

  /** The newest renderer, when there is one. */
  function Newest(s: State): Renderer {
    if s.renderers == [] then Exited else s.renderers[|s.renderers| - 1]
  }

  predicate Live(s: State) {
    !Newest(s).Exited?
  }

  /** The renderer has received the shutdown request and has not closed the channel yet. */
  predicate Closing(r: Renderer) {
    r.Repainted? || r.Revealed? || r.Lowered? || (r.Painting? && r.final)
  }

  predicate FieldMatches(s: State) {
    var newest := Some(|s.closed| - 1);
    match s.caller
    case Idle => if Live(s) then s.field == newest && !Closing(Newest(s)) else s.field == None
    case Spawning => !Live(s) && s.field == newest
    case Sending(ch) => Live(s) && !Closing(Newest(s)) && s.field == Some(ch) == newest
    case Acking(ch) => s.renderers != [] && (Live(s) ==> Closing(Newest(s))) && s.field == ch == newest
    case Clearing => s.renderers != [] && !Live(s) && s.field == newest
    case Hiding => !Live(s) && s.field == None
    case Making => !Live(s) && s.field == None
    case _ => s.renderers != [] && !Live(s) && s.field == None
  }

  predicate Protocol(s: State) {
    && !s.panicked
    && |s.closed| == |s.renderers| + (if s.caller.Spawning? then 1 else 0)
    && (forall i :: 0 <= i < |s.renderers| ==> s.closed[i] == s.renderers[i].Exited?)
    && (s.caller.Spawning? ==> !s.closed[|s.renderers|])
    && (forall i :: 0 <= i < |s.renderers| - 1 ==> s.renderers[i].Exited?)
    && FieldMatches(s)
    && (Newest(s).Waiting? ==> Newest(s).ch == s.field)
  }

  predicate CursorAccount(s: State) {
    s.hides == s.shows +
      if s.caller.Making? || s.caller.Spawning? || (Live(s) && !Newest(s).Revealed? && !Newest(s).Lowered?) then 1 else 0
  }

  predicate BufferAccount(s: State) {
    && (s.locked <==> s.caller.Emitting? || s.caller.Resetting?)
    && (if s.caller.Resetting? then s.flushed == s.written else s.flushed + s.buf == s.written)
    && (s.caller.Locking? || s.caller.Emitting? ==> s.buf != "")
    && (s.renderers == [] ==> s.flushed == "")
  }

  /** The terminal when the current session began, and now. */
  function Base(s: State): (t: Screen)
    requires s.initial.Valid() && s.start <= |s.out|
    ensures t.Valid() && t.width == s.initial.width
  {
    Interp(s.initial, s.out[..s.start])
  }

  function Shown(s: State): (t: Screen)
    requires s.initial.Valid()
    ensures t.Valid() && t.width == s.initial.width
  {
    Interp(s.initial, s.out)
  }

  /** The last frame with the lines of the next one over it, the cursor below those lines. */
  function Splice(b: Screen, frame: seq<string>, drawn: seq<string>): Screen {
    b.(rows := Overlay(Overlay(b.rows, b.row, frame), b.row, drawn), row := b.row + |drawn|)
  }

  /** What a finished session leaves: the last frame, and the cursor shown so many rows down. */
  function Finished(b: Screen, frame: seq<string>, down: nat): (t: Screen)
    requires b.Valid()
    ensures t.Valid()
  {
    b.(rows := PadTo(Overlay(b.rows, b.row, frame), b.row + down + 1), row := b.row + down, cursorShown := true)
  }

  function FlushOutput(flushed: Option<string>): string {
    match flushed
    case None => ""
    case Some(bytes) => ERASE_LINE + bytes
  }

  predicate LinesCounted(s: State, r: Renderer) {
    match r
    case Looping => |s.frame| <= 2 + s.Levels()
    case Waiting(_) => |s.frame| <= 2 + s.Levels()
    case Painting(final, drawn, None) => |drawn| <= 1 && |s.frame| <= 2 + s.Levels()
    case Painting(final, drawn, Some(n)) =>
      1 <= |drawn| <= n + 2 && |s.frame| <= 2 + n <= 2 + s.Levels()
    case Lowered => 2 <= |s.frame| <= s.lowered <= 2 + s.Levels()
    case Exited => 2 <= |s.frame| <= s.lowered <= 2 + s.Levels()
    case _ => 2 <= |s.frame| <= 2 + s.Levels()
  }

  /** What is on the screen while a renderer stands at r, in a session begun with the cursor at a line's start. */
  predicate RendererShows(base: Screen, shown: Screen, r: Renderer, frame: seq<string>, lowered: nat, tail: Option<string>)
    requires base.Valid()
  {
    var hidden := base.(cursorShown := false);
    match r
    case Painting(_, drawn, _) => shown == Splice(hidden, frame, drawn)
    case Revealed => shown == Picture(base, frame).(cursorShown := true)
    case Lowered => shown == Finished(base, frame, lowered)
    case Exited => shown == Interp(Finished(base, frame, lowered), FlushOutput(tail))
    case _ => shown == Picture(hidden, frame)
  }

  predicate InSession(s: State) {
    s.caller.Making? || s.caller.Spawning? || s.renderers != []
  }

  predicate Starting(s: State) {
    s.caller.Making? || s.caller.Spawning?
  }

  /** Stop has its answer or waits for it, and nothing has been flushed yet. */
  predicate InStop(s: State) {
    s.caller.Acking? || s.caller.Clearing? || s.caller.Checking? || s.caller.Locking? || s.caller.Emitting?
  }

  predicate FrameAccount(s: State) {
    && (Starting(s) ==> s.frame == [])
    && (InSession(s) && !Starting(s) ==> LinesCounted(s, Newest(s)))
    && (Starting(s) || Live(s) || InStop(s) ==> s.tail == None)
  }

  predicate OnScreen(s: State)
    requires s.initial.Valid() && s.start <= |s.out|
  {
    InSession(s) && AtLineStart(Base(s)) ==>
      if Starting(s) then Shown(s) == Base(s).(cursorShown := false)
      else RendererShows(Base(s), Shown(s), Newest(s), s.frame, s.lowered, s.tail)
  }

  /** What the bar library and the shortening make of the i-th line of a frame that shows a content. */
  function RenderedLine(style: Style, width: nat, content: Content, i: nat, time: nat): string {
    if i == 0 then ShortenedLine(style.spinner(content.spinner, time), width)
    else if i <= |content.levels| then style.level(content.levels[i - 1], time)
    else ShortenedLine(style.message(content.message, time), width)
  }

  ghost predicate RendersContent(style: Style, width: nat, content: Content, i: nat, line: string) {
    exists time :: line == RenderedLine(style, width, content, i, time)
  }

  /** The i-th line of a frame with n bars, written at a place in the past and read there, or a bar's fields since the
      line before. */
  predicate LineIs(style: Style, width: nat, past: seq<Content>, n: nat, i: nat, from: nat, at: nat, how: Reading, line: string)
    requires at < |past|
  {
    if i == 0 then line == ShortenedLine(style.spinner(past[at].spinner, how.time), width)
    else if i <= n then
      Readable(past, i - 1, from, at, how) && line == style.level(LevelRead(past, i - 1, how), how.time)
    else line == ShortenedLine(style.message(past[at].message, how.time), width)
  }

  ghost predicate RendersLine(style: Style, width: nat, past: seq<Content>, n: nat, i: nat, from: nat, at: nat, line: string)
    requires at < |past|
  {
    exists how: Reading :: LineIs(style, width, past, n, i, from, at, how, line)
  }

  /** The place in the past where the line before the i-th was read. */
  function LineBefore(seen: seq<nat>, i: nat): nat {
    if 0 < i <= |seen| then seen[i - 1] else 0
  }

  /** Each line renders what the bar held at its place in the past, a bar's line what its fields were between the place
      of the line before and its own. */
  ghost predicate Renders(style: Style, width: nat, past: seq<Content>, n: nat, seen: seq<nat>, lines: seq<string>) {
    && |seen| == |lines|
    && (lines != [] ==>
        var i := |lines| - 1;
        && seen[i] < |past| && RendersLine(style, width, past, n, i, LineBefore(seen, i), seen[i], lines[i])
        && Renders(style, width, past, n, seen[..i], lines[..i]))
  }

  /** The places in the past are in order and not before a given one. */
  predicate InOrder(seen: seq<nat>, from: nat) {
    && (forall i :: 0 <= i < |seen| ==> from <= seen[i])
    && (forall i, j :: 0 <= i < j < |seen| ==> seen[i] <= seen[j])
  }

  /** The number of bars drawn is one between what the bar had at the first line and what it had at each later one. */
  predicate Counted(past: seq<Content>, seen: seq<nat>, n: nat) {
    forall i :: 0 <= i < |seen| && seen[i] < |past| ==>
      if i == 0 then |past[seen[i]].levels| <= n else n <= |past[seen[i]].levels|
  }

  predicate PastAccount(s: State) {
    && s.past != [] && s.past[|s.past| - 1] == s.bar && s.asked < |s.past|
    && forall i, j :: 0 <= i < j < |s.past| ==> |s.past[i].levels| <= |s.past[j].levels|
  }

  /** Where the first line of the repaint under way may have been read, at the earliest. */
  function Since(s: State): nat {
    if Closing(Newest(s)) then s.asked else 0
  }

  /** The lines drawn so far, read since a place in the past. */
  ghost predicate DrawnSince(style: Style, width: nat, past: seq<Content>, since: nat, bars: Option<nat>,
                             seen: seq<nat>, drawn: seq<string>)
  {
    Renders(style, width, past, bars.GetOr(0), seen, drawn) && InOrder(seen, since) && (bars.Some? ==> Counted(past, seen, bars.value))
  }

  ghost predicate DrawnContent(s: State) {
    Newest(s).Painting? ==>
      DrawnSince(s.style, s.initial.width, s.past, Since(s), Newest(s).bars, s.seen, Newest(s).drawn)
  }

  /** The renderer of the session has painted its final frame. */
  predicate PastFinal(s: State) {
    s.renderers != [] && !Starting(s) && !Newest(s).Looping? && !Newest(s).Waiting? && !Newest(s).Painting?
  }

  /** A frame is a spinner line, bars and a message line, each a rendering of what the bar held at its place in the past,
      or of what a bar's fields were between there and the line before; none before the given place; with a number of
      bars that fits what the bar held at those places. */
  ghost predicate FrameSince(style: Style, width: nat, past: seq<Content>, since: nat, seen: seq<nat>, lines: seq<string>) {
    2 <= |lines| && DrawnSince(style, width, past, since, Some(|lines| - 2), seen, lines)
  }

  ghost predicate FrameContent(s: State) {
    s.frame != [] ==>
      FrameSince(s.style, s.initial.width, s.past, if PastFinal(s) then s.asked else 0, s.frameSeen, s.frame)
  }

  /** Every line on the screen is read from what the bar held, in the final frame since Stop was called. */
  ghost predicate ContentAccount(s: State) {
    PastAccount(s) && DrawnContent(s) && FrameContent(s)
  }

  /** While SetProgress runs only its own level differs from what the levels were, and that in fields still to come. */
  predicate LevelAccount(s: State) {
    s.updater.Some? ==>
      var Update(level, goal, stored, before) := s.updater.value;
      && stored <= 2 && level < s.Levels() && level <= |before|
      && s.bar.levels == WithLevel(before, level, s.bar.levels[level])
      && (stored >= 1 ==> s.bar.levels[level].total == goal.total)
      && (stored == 2 ==> s.bar.levels[level].current == goal.current)
  }

  /** Everything but the screen. */
  predicate Accounts(s: State) {
    && Protocol(s) && CursorAccount(s) && BufferAccount(s) && FrameAccount(s)
    && s.initial.Valid() && s.start <= |s.out|
  }

  ghost predicate Inv(s: State) {
    Accounts(s) && LevelAccount(s) && ContentAccount(s) && OnScreen(s)
  }
}
