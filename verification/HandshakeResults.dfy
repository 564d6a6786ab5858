/** What every run of the terminal progress bar gives, however its goroutines are scheduled. */
module HandshakeResults {
  import opened Terminal
  import opened Frame
  import opened Wrappers
  import opened Handshake
  import opened Bar
  import opened Text
  import HandshakeSafety

  /** No Stop is under way and no renderer has been left behind: before the first Start, or after Stop returned. */
  predicate Stopped(t: State) {
    t.caller.Idle? && t.field.None?
  }

  lemma NoUseOfClosed(t: State, a: Step)
    requires Inv(t) && (a.SendOnClosed? || a.ReceiveClosed?)
    ensures Apply(t, a).None?
  {
  }

  /** Nothing panics, only the newest renderer can be running, and a channel is closed exactly when its renderer has
      exited; no send and no receive ever meets a closed channel inside the loop, and at most one hiding of the
      cursor is still to be undone. */
  lemma ShutdownIsSafe(s: State, steps: seq<Step>)
    requires Initial(s) && Run(s, steps).Some?
    ensures var t := Run(s, steps).value;
      && !t.panicked && t.shows <= t.hides <= t.shows + 1
      && |t.closed| >= |t.renderers|
      && (forall i :: 0 <= i < |t.renderers| - 1 ==> t.renderers[i].Exited?)
      && (forall i :: 0 <= i < |t.renderers| ==> (t.closed[i] <==> t.renderers[i].Exited?))
      && (forall a: Step :: a.SendOnClosed? || a.ReceiveClosed? ==> Apply(t, a).None?)
  {
    HandshakeSafety.Reachable(s, steps);
    var t := Run(s, steps).value;
    forall a: Step | a.SendOnClosed? || a.ReceiveClosed? ensures Apply(t, a).None? {
      NoUseOfClosed(t, a);
    }
  }

  lemma ExitedIsSilent(t: State, a: Step)
    requires ByRenderer(a) && a.r < |t.renderers| && t.renderers[a.r].Exited?
    ensures Apply(t, a).None?
  {
  }

  lemma AllSilent(t: State, a: Step)
    requires ByRenderer(a) && forall i :: 0 <= i < |t.renderers| ==> t.renderers[i].Exited?
    ensures Apply(t, a).None?
  {
    if a.r < |t.renderers| {
      ExitedIsSilent(t, a);
    }
  }

  lemma StoppedMeansExited(t: State)
    requires Inv(t) && Stopped(t)
    ensures forall i :: 0 <= i < |t.renderers| ==> t.renderers[i].Exited?
    ensures |t.closed| == |t.renderers| && (forall i :: 0 <= i < |t.closed| ==> t.closed[i])
    ensures t.hides == t.shows && !t.locked
  {
    assert !Live(t);
  }

  /** After Stop has returned no renderer can do anything any more, every channel is closed, and every hidden cursor
      has been shown again, once. */
  lemma SilentAfterStop(s: State, steps: seq<Step>)
    requires Initial(s) && Run(s, steps).Some? && Stopped(Run(s, steps).value)
    ensures var t := Run(s, steps).value;
      && (forall a: Step :: ByRenderer(a) ==> Apply(t, a).None?)
      && |t.closed| == |t.renderers| && (forall i :: 0 <= i < |t.closed| ==> t.closed[i])
      && t.hides == t.shows && !t.locked
  {
    HandshakeSafety.Reachable(s, steps);
    var t := Run(s, steps).value;
    StoppedMeansExited(t);
    forall a: Step | ByRenderer(a) ensures Apply(t, a).None? {
      AllSilent(t, a);
    }
  }

  /** Between two frames the rows from the starting row on are exactly the latest frame, the rows above and below it
      are as they were before Start, and the cursor is hidden and back on the starting row. */
  lemma ScreenBetweenFrames(s: State, steps: seq<Step>)
    requires Initial(s) && Run(s, steps).Some?
    requires var t := Run(s, steps).value; Newest(t).Looping? || Newest(t).Waiting? || Newest(t).Repainted?
    requires var t := Run(s, steps).value; t.start <= |t.out| && t.initial.Valid() && !Starting(t) && AtLineStart(Base(t))
    ensures var t := Run(s, steps).value; var base, shown := Base(t), Shown(t);
      && |t.frame| <= 2 + t.Levels()
      && shown == base.(cursorShown := false, rows := Overlay(base.rows, base.row, t.frame))
      && shown.rows[..base.row] == base.rows[..base.row]
      && shown.rows[base.row..base.row + |t.frame|] == t.frame
      && (|base.rows| > base.row + |t.frame| ==> shown.rows[base.row + |t.frame|..] == base.rows[base.row + |t.frame|..])
  {
    HandshakeSafety.Reachable(s, steps);
  }

  lemma SpliceAbove(base: Screen, frame: seq<string>, drawn: seq<string>)
    requires base.Valid()
    ensures var shown := Splice(base, frame, drawn);
      shown.row == base.row + |drawn| < |shown.rows| && shown.rows[..shown.row] == base.rows[..base.row] + drawn
  {
    var rows := Overlay(base.rows, base.row, frame);
    var shown := Splice(base, frame, drawn);
    forall k: nat | k < shown.row ensures shown.rows[k] == (base.rows[..base.row] + drawn)[k] {
      OverlayRow(rows, base.row, drawn, k);
      if k < base.row {
        OverlayRow(base.rows, base.row, frame, k);
      }
    }
  }

  lemma SpliceBelow(base: Screen, frame: seq<string>, drawn: seq<string>, k: nat)
    requires base.Valid() && |drawn| <= k < |frame|
    ensures var shown := Splice(base, frame, drawn);
      base.row + |frame| <= |shown.rows| && shown.rows[base.row + k] == frame[k]
  {
    var rows := Overlay(base.rows, base.row, frame);
    OverlayRow(rows, base.row, drawn, base.row + k);
    OverlayRow(base.rows, base.row, frame, base.row + k);
  }

  /** The first lines of a frame are in place above the last lines of the frame before, the cursor between the two. */
  predicate FrameInProgress(base: Screen, shown: Screen, frame: seq<string>, drawn: seq<string>) {
    && shown.row == base.row + |drawn| < |shown.rows| && base.row < |base.rows|
    && shown.rows[..base.row] == base.rows[..base.row]
    && shown.rows[base.row..shown.row] == drawn
    && (forall k :: |drawn| <= k < |frame| ==> base.row + |frame| <= |shown.rows| && shown.rows[base.row + k] == frame[k])
  }

  lemma SpliceRows(base: Screen, frame: seq<string>, drawn: seq<string>)
    requires base.Valid()
    ensures FrameInProgress(base, Splice(base, frame, drawn), frame, drawn)
  {
    var shown := Splice(base, frame, drawn);
    SpliceAbove(base, frame, drawn);
    assert shown.rows[..base.row] == shown.rows[..shown.row][..base.row];
    assert shown.rows[base.row..shown.row] == shown.rows[..shown.row][base.row..];
    forall k: nat | |drawn| <= k < |frame|
      ensures base.row + |frame| <= |shown.rows| && shown.rows[base.row + k] == frame[k]
    {
      SpliceBelow(base, frame, drawn, k);
    }
  }

  /** In the middle of a frame its first lines are in place, below them are the last lines of the frame before, and
      the cursor stands between the two. */
  lemma ScreenWithinFrame(s: State, steps: seq<Step>)
    requires Initial(s) && Run(s, steps).Some? && Newest(Run(s, steps).value).Painting?
    requires var t := Run(s, steps).value; t.start <= |t.out| && t.initial.Valid() && !Starting(t) && AtLineStart(Base(t))
    ensures var t := Run(s, steps).value;
      FrameInProgress(Base(t).(cursorShown := false), Shown(t), t.frame, Newest(t).drawn) && Shown(t).col == 0
  {
    HandshakeSafety.Reachable(s, steps);
    var t := Run(s, steps).value;
    PaintingShows(t);
    SpliceRows(Base(t).(cursorShown := false), t.frame, Newest(t).drawn);
  }

  lemma PaintingShows(t: State)
    requires Inv(t) && Newest(t).Painting? && AtLineStart(Base(t))
    ensures Shown(t) == Splice(Base(t).(cursorShown := false), t.frame, Newest(t).drawn)
  {
  }

  lemma FinishedRows(base: Screen, frame: seq<string>, down: nat)
    requires base.Valid() && |frame| <= down
    ensures var finished := Finished(base, frame, down);
      && finished.rows[..base.row] == base.rows[..base.row]
      && finished.rows[base.row..base.row + |frame|] == frame
      && (forall k :: base.row + |frame| <= k <= base.row + down ==>
          finished.rows[k] == if k < |base.rows| then base.rows[k] else "")
  {
  }

  lemma PrefixRows(shown: Screen, finished: Screen, from: nat, to: nat)
    requires from <= to <= finished.row <= |shown.rows| && finished.row <= |finished.rows|
    requires shown.rows[..finished.row] == finished.rows[..finished.row]
    ensures shown.rows[..from] == finished.rows[..from] && shown.rows[from..to] == finished.rows[from..to]
  {
    assert shown.rows[..from] == shown.rows[..finished.row][..from];
    assert finished.rows[..from] == finished.rows[..finished.row][..from];
    assert shown.rows[from..to] == shown.rows[..finished.row][from..to];
    assert finished.rows[from..to] == finished.rows[..finished.row][from..to];
  }

  /** What a session leaves behind: the frame in its place, the rows above it untouched, the cursor shown at least so
      many rows down, and the rows between the frame and there as they were.  Unless something was flushed the cursor
      is exactly there, and a flush that ends in a newline leaves a line start as well. */
  predicate FrameStands(base: Screen, shown: Screen, frame: seq<string>, down: nat, tail: Option<string>) {
    var end, below := base.row + |frame|, base.row + down;
    && base.row < |base.rows| && end <= below <= shown.row && shown.cursorShown && below < |shown.rows|
    && shown.rows[..base.row] == base.rows[..base.row]
    && shown.rows[base.row..end] == frame
    && (forall k :: end <= k < below ==> shown.rows[k] == if k < |base.rows| then base.rows[k] else "")
    && (tail.None? ==> shown.row == below && AtLineStart(shown))
    && (tail.Some? && tail.value != "" && tail.value[|tail.value| - 1] == '\n' ==> AtLineStart(shown))
  }

  /** What was flushed, if anything, is output without control sequences. */
  predicate PlainTail(tail: Option<string>) {
    tail.Some? ==> ESC !in tail.value
  }

  /** After Stop the last frame stays on the screen with its two fixed lines and every bar it drew, and the cursor is
      below it, with untouched rows between if there are any; a flush of output without control sequences does not touch
      any of this, and leaves a line start when it ends in a newline, so that the next Start finds the terminal as this
      one did.  How many rows there are between is in HandshakeFinalFrame. */
  lemma ScreenAfterStop(s: State, steps: seq<Step>)
    requires Initial(s) && Run(s, steps).Some? && Stopped(Run(s, steps).value)
    requires var t := Run(s, steps).value; t.start <= |t.out| && t.initial.Valid() && t.renderers != [] && AtLineStart(Base(t))
    requires PlainTail(Run(s, steps).value.tail)
    ensures var t := Run(s, steps).value;
      2 <= |t.frame| <= t.lowered <= 2 + t.Levels() && FrameStands(Base(t), Shown(t), t.frame, t.lowered, t.tail)
  {
    HandshakeSafety.Reachable(s, steps);
    var t := Run(s, steps).value;
    StoppedShows(t);
    AfterFinished(Base(t), t.frame, t.lowered, t.tail);
  }

  lemma AfterFinished(base: Screen, frame: seq<string>, down: nat, tail: Option<string>)
    requires AtLineStart(base) && |frame| <= down && PlainTail(tail)
    ensures FrameStands(base, Interp(Finished(base, frame, down), FlushOutput(tail)), frame, down, tail)
  {
    var finished := Finished(base, frame, down);
    var shown := Interp(finished, FlushOutput(tail));
    FinishedRows(base, frame, down);
    if tail.Some? {
      FlushStaysBelow(finished, tail.value);
    } else {
      assert Interp(finished, "") == finished;
    }
    PrefixRows(shown, finished, base.row, base.row + |frame|);
    forall k | base.row + |frame| <= k < base.row + down ensures shown.rows[k] == finished.rows[k] {
      assert shown.rows[k] == shown.rows[..finished.row][k];
    }
  }

  lemma StoppedShows(t: State)
    requires Inv(t) && Stopped(t) && t.renderers != [] && AtLineStart(Base(t))
    ensures 2 <= |t.frame| <= t.lowered <= 2 + t.Levels()
    ensures Shown(t) == Interp(Finished(Base(t), t.frame, t.lowered), FlushOutput(t.tail))
  {
  }

  lemma FlushStaysBelow(finished: Screen, bytes: string)
    requires AtLineStart(finished) && ESC !in bytes
    ensures var shown := Interp(finished, FlushOutput(Some(bytes)));
      && shown.row >= finished.row && |shown.rows| >= |finished.rows| && shown.cursorShown == finished.cursorShown
      && shown.rows[..finished.row] == finished.rows[..finished.row]
      && (bytes != "" && bytes[|bytes| - 1] == '\n' ==> AtLineStart(shown))
  {
    var erased := finished.(rows := finished.rows[finished.row := ""]);
    InterpConcat(finished, ERASE_LINE, bytes);
    EraseActs(finished);
    PlainOutputStaysBelow(erased, bytes);
    if bytes != "" && bytes[|bytes| - 1] == '\n' {
      var most := bytes[..|bytes| - 1];
      assert most + "\n" == bytes;
      InterpConcat(erased, most, "\n");
      PlainOutputStaysBelow(erased, most);
      InterpOne(Interp(erased, most), '\n');
    }
  }

  ghost predicate FrameReadSince(t: State, since: nat) {
    FrameSince(t.style, t.initial.width, t.past, since, t.frameSeen, t.frame)
  }

  /** Whatever the setters do meanwhile, each line of a finished frame renders what the bar held when that line was
      read: the spinner, then bars in their order, then the message.  The lines were read in this order, each field of a
      bar at a moment since the line before, and there are at least as many bars as at the first line and at most as
      many as at the later ones. */
  lemma FramesShowContent(s: State, steps: seq<Step>)
    requires Initial(s) && Run(s, steps).Some? && Run(s, steps).value.frame != []
    ensures FrameReadSince(Run(s, steps).value, 0)
  {
    HandshakeSafety.Reachable(s, steps);
  }

  /** Every place in the past is a moment of the run, at which the bar held just that. */
  lemma {:induction false} PastWasHeld(s: State, steps: seq<Step>, k: nat) returns (j: nat)
    requires Initial(s) && Run(s, steps).Some? && k < |Run(s, steps).value.past|
    ensures j <= |steps| && Run(s, steps[..j]).Some?
    ensures var u := Run(s, steps[..j]).value; |u.past| == k + 1 && u.bar == Run(s, steps).value.past[k]
    decreases |steps|
  {
    HandshakeSafety.Reachable(s, steps);
    var t := Run(s, steps).value;
    if k + 1 == |t.past| {
      assert steps[..|steps|] == steps;
      return |steps|;
    }
    var before, last := steps[..|steps| - 1], steps[|steps| - 1];
    assert steps == before + [last];
    HandshakeSafety.RunConcat(s, before, [last]);
    var u := Run(s, before).value;
    HandshakeSafety.RunOne(u, last);
    HandshakeSafety.PastIsAppended(u, last);
    j := PastWasHeld(s, before, k);
    assert before[..j] == steps[..j];
  }

  /** The frame that stays after Stop shows nothing older than the call of Stop; and it is those rows that the terminal
      still holds, whatever plain output was flushed below them. */
  lemma FinalFrameIsCurrent(s: State, steps: seq<Step>)
    requires Initial(s) && Run(s, steps).Some? && Stopped(Run(s, steps).value) && Run(s, steps).value.renderers != []
    ensures var t := Run(s, steps).value;
      && t.start <= |t.out| && t.initial.Valid()
      && FrameReadSince(t, t.asked)
      && (AtLineStart(Base(t)) && PlainTail(t.tail) ==> FrameStands(Base(t), Shown(t), t.frame, t.lowered, t.tail))
  {
    HandshakeSafety.Reachable(s, steps);
    var t := Run(s, steps).value;
    StoppedFrame(t);
    if AtLineStart(Base(t)) && PlainTail(t.tail) {
      ScreenAfterStop(s, steps);
    }
  }

  lemma StoppedFrame(t: State)
    requires Inv(t) && Stopped(t) && t.renderers != []
    ensures FrameReadSince(t, t.asked)
  {
    assert !Live(t) && PastFinal(t);
  }

  lemma OneMoment(seen: seq<nat>, from: nat)
    requires seen != [] && InOrder(seen, from) && seen[|seen| - 1] == from
    ensures forall i :: 0 <= i < |seen| ==> seen[i] == from
  {
  }

  lemma LineOfOneMoment(style: Style, width: nat, past: seq<Content>, i: nat, from: nat, at: nat, line: string)
    requires at < |past| && (i > 0 ==> from == at) && RendersLine(style, width, past, |past[at].levels|, i, from, at, line)
    ensures RendersContent(style, width, past[at], i, line)
  {
    var how :| LineIs(style, width, past, |past[at].levels|, i, from, at, how, line);
    assert line == RenderedLine(style, width, past[at], i, how.time);
  }

  /** If no setter came between the call of Stop and the reading of the last line, that frame is the spinner, every bar in
      its order and the message as the bar held them at the call, and nothing else, whatever came later. */
  lemma FinalFrameShowsContent(s: State, steps: seq<Step>)
    requires Initial(s) && Run(s, steps).Some? && Stopped(Run(s, steps).value) && Run(s, steps).value.renderers != []
    requires var t := Run(s, steps).value; t.frameSeen != [] && t.frameSeen[|t.frameSeen| - 1] == t.asked
    ensures var t := Run(s, steps).value;
      && t.asked < |t.past|
      && var held := t.past[t.asked];
         && |t.frame| == 2 + |held.levels|
         && forall i :: 0 <= i < |t.frame| ==> RendersContent(t.style, t.initial.width, held, i, t.frame[i])
  {
    FinalFrameIsCurrent(s, steps);
    var t := Run(s, steps).value;
    FrameOfOneMoment(t.style, t.initial.width, t.past, t.frameSeen, t.frame, t.asked);
  }

  lemma FrameOfOneMoment(style: Style, width: nat, past: seq<Content>, seen: seq<nat>, lines: seq<string>, at: nat)
    requires FrameSince(style, width, past, at, seen, lines) && seen[|seen| - 1] == at
    ensures at < |past| && |lines| == 2 + |past[at].levels|
    ensures forall i :: 0 <= i < |lines| ==> RendersContent(style, width, past[at], i, lines[i])
  {
    OneMoment(seen, at);
    HandshakeSafety.RendersWithinPast(style, width, past, |lines| - 2, seen, lines);
    assert seen[0] == at && seen[1] == at;
    forall i | 0 <= i < |lines| ensures RendersContent(style, width, past[at], i, lines[i]) {
      HandshakeSafety.RendersEach(style, width, past, |lines| - 2, seen, lines, i);
      LineOfOneMoment(style, width, past, i, LineBefore(seen, i), seen[i], lines[i]);
    }
  }

  lemma NoLaterThanNow(t: State)
    requires Inv(t) && Stopped(t) && t.renderers != [] && t.asked == Now(t)
    ensures t.frameSeen != [] && t.frameSeen[|t.frameSeen| - 1] == t.asked && t.past[t.asked] == t.bar
  {
    StoppedFrame(t);
    HandshakeSafety.RendersWithinPast(t.style, t.initial.width, t.past, |t.frame| - 2, t.frameSeen, t.frame);
  }

  /** So it is as long as no setter has come since Stop was called: the frame shows what the bar holds. */
  lemma FinalFrameShowsBar(s: State, steps: seq<Step>)
    requires Initial(s) && Run(s, steps).Some? && Stopped(Run(s, steps).value) && Run(s, steps).value.renderers != []
    requires var t := Run(s, steps).value; t.asked == Now(t)
    ensures var t := Run(s, steps).value;
      && |t.frame| == 2 + t.Levels()
      && forall i :: 0 <= i < |t.frame| ==> RendersContent(t.style, t.initial.width, t.bar, i, t.frame[i])
  {
    HandshakeSafety.Reachable(s, steps);
    NoLaterThanNow(Run(s, steps).value);
    FinalFrameShowsContent(s, steps);
  }

  /** SetProgress takes effect however the renderer, Start, Stop and the other setters come between its accesses: while
      it runs only its own level can differ, and when it returns the levels are those at the call with that level set. */
  lemma SetProgressTakesEffect(s: State, steps: seq<Step>, a: Step)
    requires Initial(s) && Run(s, steps).Some? && Apply(Run(s, steps).value, a).Some?
    ensures var t := Run(s, steps).value; var u := Apply(t, a).value;
      && (a.SetProgress? ==>
          if a.level > t.Levels() then u == t
          else
            && u.updater.Some? && u.updater.value.level == a.level && u.updater.value.before == t.bar.levels
            && u.updater.value.goal.prefix == a.text
            && (-0x8000_0000_0000_0000 <= a.done + 1 < 0x8000_0000_0000_0000 ==> u.updater.value.goal.current == a.done + 1)
            && (-0x8000_0000_0000_0000 <= a.total + 1 < 0x8000_0000_0000_0000 ==> u.updater.value.goal.total == a.total + 1))
      && (t.updater.Some? ==>
          var Update(level, goal, _, before) := t.updater.value;
          && level <= |before|
          && (forall i :: 0 <= i < |before| && i != level ==> i < t.Levels() && t.bar.levels[i] == before[i])
          && (match u.updater
              case Some(now) => now.level == level && now.goal == goal && now.before == before
              case None =>
                && |u.bar.levels| == (if level == |before| then |before| + 1 else |before|) && u.bar.levels[level] == goal
                && forall i :: 0 <= i < |before| && i != level ==> u.bar.levels[i] == before[i]))
      && (t.updater.None? && !a.SetProgress? ==> u.bar.levels == t.bar.levels)
  {
    HandshakeSafety.Reachable(s, steps);
    var t := Run(s, steps).value;
    if t.updater.Some? {
      OnlyStoreReturns(t, a);
    } else if !a.SetProgress? {
      HandshakeSafety.OnlyUpdatesLevels(t, a);
    }
  }

  lemma OnlyStoreReturns(t: State, a: Step)
    requires LevelAccount(t) && t.updater.Some? && Apply(t, a).Some?
    ensures var u := Apply(t, a).value; var Update(level, goal, _, before) := t.updater.value;
      match u.updater
      case Some(now) => now.level == level && now.goal == goal && now.before == before
      case None => u.bar.levels == WithLevel(before, level, goal)
  {
    if a.StoreField? {
      assert Apply(t, a) == UpdateStep(t, a);
    } else {
      assert Apply(t, a).value.updater == t.updater;
    }
  }

  // ---- What the setters and Write have been given

  /** The text of the last step that set the spinner's text. */
  function LastPulse(steps: seq<Step>): string {
    if steps == [] then ""
    else if steps[|steps| - 1].SetPulse? then steps[|steps| - 1].text
    else LastPulse(steps[..|steps| - 1])
  }

  function LastMessage(steps: seq<Step>): string {
    if steps == [] then ""
    else if steps[|steps| - 1].SetMessage? then steps[|steps| - 1].text
    else LastMessage(steps[..|steps| - 1])
  }

  /** The bytes of all Write steps, one after the other. */
  function AllWritten(steps: seq<Step>): string {
    if steps == [] then ""
    else AllWritten(steps[..|steps| - 1]) + if steps[|steps| - 1].Write? then steps[|steps| - 1].bytes else ""
  }

  /** How often the cursor was hidden, and shown. */
  function Hides(steps: seq<Step>): nat {
    if steps == [] then 0 else Hides(steps[..|steps| - 1]) + if steps[|steps| - 1].Hide? then 1 else 0
  }

  function ShowsIn(steps: seq<Step>): nat {
    if steps == [] then 0 else ShowsIn(steps[..|steps| - 1]) + if steps[|steps| - 1].Show? then 1 else 0
  }

  lemma StepCounts(t: State, a: Step)
    requires Apply(t, a).Some?
    ensures var u := Apply(t, a).value;
      u.hides == t.hides + (if a.Hide? then 1 else 0) && u.shows == t.shows + (if a.Show? then 1 else 0)
  {
    if ByRenderer(a) {
      HandshakeSafety.RendererApplies(t, a);
    }
  }

  /** Where Stop was last called on a running bar is where the past then ended. */
  lemma CallOfStopIsRecorded(s: State, steps: seq<Step>, a: Step)
    requires Initial(s) && Run(s, steps).Some? && Apply(Run(s, steps).value, a).Some?
    ensures var t := Run(s, steps).value; var u := Apply(t, a).value;
      u.asked == (if a.BeginStop? && Live(t) then |t.past| - 1 else t.asked)
  {
    HandshakeSafety.Reachable(s, steps);
    var t := Run(s, steps).value;
    if a.BeginStop? {
      StopIsCalled(t);
    } else {
      OthersKeepAsked(t, a);
    }
  }

  lemma StopIsCalled(t: State)
    requires Inv(t) && Apply(t, BeginStop).Some?
    ensures Apply(t, BeginStop).value.asked == (if Live(t) then |t.past| - 1 else t.asked)
  {
    assert Apply(t, BeginStop) == StopStep(t, BeginStop);
  }

  lemma OthersKeepAsked(t: State, a: Step)
    requires Apply(t, a).Some? && !a.BeginStop?
    ensures Apply(t, a).value.asked == t.asked
  {
    if ByRenderer(a) {
      HandshakeSafety.RendererApplies(t, a);
    }
  }

  lemma StepSets(t: State, a: Step)
    requires Apply(t, a).Some?
    ensures var u := Apply(t, a).value;
      && u.bar.spinner == (if a.SetPulse? then a.text else t.bar.spinner)
      && u.bar.message == (if a.SetMessage? then a.text else t.bar.message)
      && u.written == t.written + (if a.Write? then a.bytes else "")
  {
    if ByAnyone(a) {
      assert Apply(t, a) == UpdateStep(t, a);
    } else {
      HandshakeSafety.OthersSetNothing(t, a);
    }
  }

  /** After every run, and so in the middle of one as well, the spinner's text and the message are those last set, and
      what was written is what the writers passed, in their order, and the cursor was hidden and shown as often as is
      counted: by the steps of the run alone. */
  lemma {:induction false} RunSets(s: State, steps: seq<Step>)
    requires Initial(s) && Run(s, steps).Some?
    ensures var t := Run(s, steps).value;
      && t.bar.spinner == LastPulse(steps) && t.bar.message == LastMessage(steps) && t.written == AllWritten(steps)
      && t.hides == Hides(steps) && t.shows == ShowsIn(steps)
    decreases |steps|
  {
    if steps == [] {
    } else {
      var before, last := steps[..|steps| - 1], steps[|steps| - 1];
      assert steps == before + [last];
      HandshakeSafety.RunConcat(s, before, [last]);
      HandshakeSafety.RunOne(Run(s, before).value, last);
      RunSets(s, before);
      StepSets(Run(s, before).value, last);
      StepCounts(Run(s, before).value, last);
    }
  }

  /** The message setters are possible at any moment, SetProgress whenever no other one is under way, and Write whenever
      nobody holds the mutex of the buffer. */
  lemma SettersArePossible(s: State, steps: seq<Step>, a: Step)
    requires Initial(s) && Run(s, steps).Some? && ByAnyone(a) && !a.StoreField?
    ensures var t := Run(s, steps).value;
      Apply(t, a).Some? <==> (a.SetProgress? ==> t.updater.None?) && (a.Write? ==> !t.caller.Emitting? && !t.caller.Resetting?)
  {
    HandshakeSafety.Reachable(s, steps);
    UpdateIsPossible(Run(s, steps).value, a);
  }

  lemma UpdateIsPossible(t: State, a: Step)
    requires !t.panicked && BufferAccount(t) && ByAnyone(a) && !a.StoreField?
    ensures Apply(t, a).Some? <==> (a.SetProgress? ==> t.updater.None?) && (a.Write? ==> !t.caller.Emitting? && !t.caller.Resetting?)
  {
    assert Apply(t, a) == UpdateStep(t, a);
  }

  // ---- The captured output

  /** Captured output is neither lost nor repeated: what was flushed followed by what is pending is what was
      written, except between a flush and the reset after it, when everything written has been flushed.  Without
      a renderer ever started nothing is flushed. */
  lemma OutputIsConserved(s: State, steps: seq<Step>)
    requires Initial(s) && Run(s, steps).Some?
    ensures var t := Run(s, steps).value;
      && (if t.caller.Resetting? then t.flushed == t.written && t.locked else t.flushed + t.buf == t.written)
      && (t.renderers == [] ==> t.flushed == "")
  {
    HandshakeSafety.Reachable(s, steps);
  }

  lemma RendererFlushesNothing(t: State, a: Step)
    requires Apply(t, a).Some? && ByRenderer(a)
    ensures Apply(t, a).value.flushed == t.flushed
  {
  }

  lemma OnlyEmitFlushes(t: State, a: Step)
    requires Apply(t, a).Some? && !a.EmitBuffer?
    ensures Apply(t, a).value.flushed == t.flushed
  {
    if ByRenderer(a) {
      RendererFlushesNothing(t, a);
    }
  }

  lemma EmittingFollowsExit(t: State)
    requires Inv(t) && t.caller.Emitting?
    ensures t.renderers != [] && (forall i :: 0 <= i < |t.renderers| ==> t.renderers[i].Exited?) && t.tail.None?
    ensures AtLineStart(Base(t)) ==> Shown(t) == Finished(Base(t), t.frame, t.lowered)
  {
    assert !Live(t) && FlushOutput(t.tail) == "";
  }

  /** A flush happens only when the renderer of the session has exited and its final frame is on the screen, at most
      once in a session; no other step changes what was flushed, and a Stop without a running renderer does nothing at
      all, whether the bar was never started or has been stopped. */
  lemma FlushFollowsFinalFrame(s: State, steps: seq<Step>, a: Step)
    requires Initial(s) && Run(s, steps).Some? && Apply(Run(s, steps).value, a).Some?
    ensures var t := Run(s, steps).value; var u := Apply(t, a).value;
      && t.initial.Valid() && t.start <= |t.out|
      && (u.flushed != t.flushed ==>
          && u.flushed == t.flushed + t.buf && u.out == t.out + ERASE_LINE + t.buf && u.tail == Some(t.buf)
          && a.EmitBuffer? && t.renderers != [] && (forall i :: 0 <= i < |t.renderers| ==> t.renderers[i].Exited?)
          && t.tail.None? && u.tail.Some?
          && (AtLineStart(Base(t)) ==> Shown(t) == Finished(Base(t), t.frame, t.lowered)))
      && (a.BeginStop? && !Live(t) ==> u == t)
  {
    HandshakeSafety.Reachable(s, steps);
    var t := Run(s, steps).value;
    if a.EmitBuffer? {
      EmittingFollowsExit(t);
      Associative(t.out, ERASE_LINE, t.buf);
    } else {
      OnlyEmitFlushes(t, a);
      assert a.BeginStop? ==> Apply(t, a) == StopStep(t, a);
    }
  }

  lemma StoppedStays(t: State, a: Step)
    requires Inv(t) && Stopped(t) && !a.BeginStart? && Apply(t, a).Some?
    ensures var u := Apply(t, a).value; Stopped(u) && u.flushed == t.flushed && u.out == t.out && t.buf <= u.buf
  {
    StoppedMeansExited(t);
    if ByRenderer(a) {
      AllSilent(t, a);
    } else if ByAnyone(a) {
      assert Apply(t, a) == UpdateStep(t, a);
    }
  }

  /** What was written when Stop looked at the buffer is flushed unless Stop is still about to. */
  predicate Due(t: State, bytes: string) {
    bytes <= t.written && (t.caller.Checking? || t.caller.Locking? || t.caller.Emitting? || bytes <= t.flushed)
  }

  lemma StepKeepsDue(t: State, a: Step, bytes: string)
    requires Inv(t) && Due(t, bytes) && Apply(t, a).Some?
    ensures Due(Apply(t, a).value, bytes)
  {
    StepSets(t, a);
    if ByFlush(a) {
      FlushKeepsDue(t, a, bytes);
    } else {
      OnlyEmitFlushes(t, a);
      if t.caller.Checking? || t.caller.Locking? || t.caller.Emitting? {
        OthersLeaveFlush(t, a);
      }
    }
  }

  lemma OthersLeaveFlush(t: State, a: Step)
    requires Apply(t, a).Some? && !ByFlush(a) && (t.caller.Checking? || t.caller.Locking? || t.caller.Emitting?)
    ensures Apply(t, a).value.caller == t.caller
  {
  }

  lemma FlushKeepsDue(t: State, a: Step, bytes: string)
    requires BufferAccount(t) && Due(t, bytes) && FlushStep(t, a).Some?
    ensures Due(FlushStep(t, a).value, bytes)
  {
    if a.CheckBuffer? && t.buf == "" {
      assert t.flushed + "" == t.flushed;
    }
  }

  lemma {:induction false} RunKeepsDue(t: State, steps: seq<Step>, bytes: string)
    requires Inv(t) && Due(t, bytes) && Run(t, steps).Some?
    ensures Due(Run(t, steps).value, bytes)
    decreases |steps|
  {
    if steps == [] {
    } else {
      HandshakeSafety.StepKeeps(t, steps[0]);
      StepKeepsDue(t, steps[0], bytes);
      RunKeepsDue(Apply(t, steps[0]).value, steps[1..], bytes);
    }
  }

  /** When a Stop that ended a session returns, and ever after, everything that had been written when it looked at the
      buffer has been flushed. */
  lemma StopFlushesWhatWasWritten(s: State, steps: seq<Step>, more: seq<Step>)
    requires Initial(s) && Run(s, steps).Some? && Run(s, steps).value.caller.Checking? && Run(s, steps + more).Some?
    ensures var t := Run(s, steps).value; var u := Run(s, steps + more).value;
      u.caller.Idle? ==> t.written <= u.flushed
  {
    HandshakeSafety.Reachable(s, steps);
    HandshakeSafety.RunConcat(s, steps, more);
    RunKeepsDue(Run(s, steps).value, more, Run(s, steps).value.written);
  }

  lemma {:induction false} StoppedRun(t: State, steps: seq<Step>)
    requires Inv(t) && Stopped(t) && Run(t, steps).Some?
    requires forall i :: 0 <= i < |steps| ==> !steps[i].BeginStart?
    ensures var u := Run(t, steps).value; Inv(u) && Stopped(u) && u.flushed == t.flushed && u.out == t.out && t.buf <= u.buf
    decreases |steps|
  {
    if steps == [] {
    } else {
      HandshakeSafety.StepKeeps(t, steps[0]);
      StoppedStays(t, steps[0]);
      StoppedRun(Apply(t, steps[0]).value, steps[1..]);
    }
  }

  /** Between two sessions, and before the first, nothing is flushed or written to the terminal however often Stop is
      called: what is written waits in the buffer, after what was there. */
  lemma NothingFlushedBetweenSessions(s: State, steps: seq<Step>, more: seq<Step>)
    requires Initial(s) && Run(s, steps).Some? && Stopped(Run(s, steps).value) && Run(s, steps + more).Some?
    requires forall i :: 0 <= i < |more| ==> !more[i].BeginStart?
    ensures var t := Run(s, steps).value; var u := Run(s, steps + more).value;
      Stopped(u) && u.flushed == t.flushed && u.out == t.out && t.buf <= u.buf && u.flushed + u.buf == u.written
  {
    HandshakeSafety.Reachable(s, steps);
    HandshakeSafety.RunConcat(s, steps, more);
    StoppedRun(Run(s, steps).value, more);
  }
}
