/** What setters that come during a Stop do to the frame it leaves behind. */
module HandshakeFinalFrame {
  import opened Terminal
  import opened Frame
  import opened Wrappers
  import opened Handshake
  import opened Bar
  import opened HandshakeResults
  import opened HandshakeShutdown
  import HandshakeSafety

  // ---- The rows between the frame and the cursor

  /** The renderer counted n bars for the final frame, which has that many lines and two; and it has gone down by the
      given number of rows if it has. */
  predicate CountedAs(t: State, n: nat, down: Option<nat>) {
    && t.renderers != [] && !Starting(t) && !t.caller.Hiding? && !Newest(t).Looping? && !Newest(t).Waiting?
    && (if Newest(t).Painting? then Newest(t).final && Newest(t).bars == Some(n) else |t.frame| == n + 2)
    && (down.Some? ==> (Newest(t).Lowered? || Newest(t).Exited?) && t.lowered == down.value)
  }

  lemma OthersStand(t: State, a: Step)
    requires !ByRenderer(a) && !a.BeginStart? && !Starting(t) && !t.caller.Hiding? && Apply(t, a).Some?
    ensures var u := Apply(t, a).value;
      && u.renderers == t.renderers && u.frame == t.frame && u.lowered == t.lowered
      && !Starting(u) && !u.caller.Hiding?
  {
  }

  lemma OthersKeepCount(t: State, a: Step, n: nat, down: Option<nat>)
    requires CountedAs(t, n, down) && !ByRenderer(a) && !a.BeginStart? && Apply(t, a).Some?
    ensures CountedAs(Apply(t, a).value, n, down)
  {
    OthersStand(t, a);
  }

  lemma RendererKeepsCount(t: State, a: Step, n: nat, down: Option<nat>)
    requires Accounts(t) && CountedAs(t, n, down) && ByRenderer(a) && Apply(t, a).Some?
    ensures CountedAs(Apply(t, a).value, n, down)
  {
    HandshakeSafety.RendererApplies(t, a);
    if a.r < |t.renderers| - 1 {
      ExitedIsSilent(t, a);
    } else if Closes(a) {
      assert Apply(t, a) == CloseStep(t, a, a.r);
    } else if Paints(a) {
      assert Apply(t, a) == PaintStep(t, a, a.r);
    }
  }

  lemma {:induction false} RunKeepsCount(t: State, steps: seq<Step>, n: nat, down: Option<nat>)
    requires Inv(t) && CountedAs(t, n, down) && Run(t, steps).Some?
    requires forall i :: 0 <= i < |steps| ==> !steps[i].BeginStart?
    ensures Inv(Run(t, steps).value) && CountedAs(Run(t, steps).value, n, down)
    decreases |steps|
  {
    if steps == [] {
    } else {
      var a := steps[0];
      HandshakeSafety.StepKeeps(t, a);
      if ByRenderer(a) {
        RendererKeepsCount(t, a, n, down);
      } else {
        OthersKeepCount(t, a, n, down);
      }
      RunKeepsCount(Apply(t, a).value, steps[1..], n, down);
    }
  }

  predicate NoStart(steps: seq<Step>) {
    forall i :: 0 <= i < |steps| ==> !steps[i].BeginStart?
  }

  lemma LoweringCounts(u: State, r: nat, n: nat)
    requires Inv(u) && CountedAs(u, n, None) && Apply(u, Lower(r)).Some?
    ensures var v := Apply(u, Lower(r)).value;
      |v.frame| == n + 2 && v.lowered == 2 + u.Levels() && CountedAs(v, n, Some(v.lowered))
  {
    HandshakeSafety.RendererApplies(u, Lower(r));
    if r < |u.renderers| - 1 {
      ExitedIsSilent(u, Lower(r));
    }
  }

  /** The rows between the frame that stays and the cursor are as many as levels were added after the renderer counted
      the bars for that frame and before it moved the cursor down, whatever else happens up to the next Start. */
  lemma RowsBetweenAreLevelsAdded(s: State, counted: seq<Step>, more: seq<Step>, r: nat, rest: seq<Step>, n: nat)
    requires Initial(s) && Run(s, counted).Some? && Run(s, counted + more).Some?
    requires var t := Run(s, counted).value; Newest(t).Painting? && Newest(t).final && Newest(t).bars == Some(n)
    requires NoStart(more) && NoStart(rest)
    requires var u := Run(s, counted + more).value;
      Apply(u, Lower(r)).Some? && Run(Apply(u, Lower(r)).value, rest).Some?
    ensures var u := Run(s, counted + more).value; var w := Run(Apply(u, Lower(r)).value, rest).value;
      |w.frame| == n + 2 && w.lowered - |w.frame| == u.Levels() - n
  {
    HandshakeSafety.Reachable(s, counted);
    HandshakeSafety.RunConcat(s, counted, more);
    var t, u := Run(s, counted).value, Run(s, counted + more).value;
    FinalIsCounted(t, n);
    RunKeepsCount(t, more, n, None);
    LoweringCounts(u, r, n);
    HandshakeSafety.StepKeeps(u, Lower(r));
    var v := Apply(u, Lower(r)).value;
    RunKeepsCount(v, rest, n, Some(v.lowered));
    FrameOfCount(Run(v, rest).value, n, v.lowered);
  }

  lemma FinalIsCounted(t: State, n: nat)
    requires Inv(t) && Newest(t).Painting? && Newest(t).final && Newest(t).bars == Some(n)
    ensures CountedAs(t, n, None)
  {
  }

  lemma FrameOfCount(w: State, n: nat, down: nat)
    requires CountedAs(w, n, Some(down))
    ensures |w.frame| == n + 2 && w.lowered == down
  {
  }

  /** So the cursor that Stop leaves stands directly below the frame if and only if no level was added between the
      counting of the bars and the lowering. */
  lemma CursorDirectlyBelowIff(s: State, counted: seq<Step>, more: seq<Step>, r: nat, rest: seq<Step>, n: nat)
    requires Initial(s) && Run(s, counted).Some? && Run(s, counted + more).Some?
    requires var t := Run(s, counted).value; Newest(t).Painting? && Newest(t).final && Newest(t).bars == Some(n)
    requires NoStart(more) && NoStart(rest)
    requires var u := Run(s, counted + more).value;
      Apply(u, Lower(r)).Some? && Run(Apply(u, Lower(r)).value, rest).Some?
    requires var w := Run(Apply(Run(s, counted + more).value, Lower(r)).value, rest).value;
      Stopped(w) && w.tail.None? && w.start <= |w.out| && w.initial.Valid() && AtLineStart(Base(w))
    ensures var u := Run(s, counted + more).value; var w := Run(Apply(u, Lower(r)).value, rest).value;
      Shown(w).row == Base(w).row + |w.frame| <==> u.Levels() == n
  {
    RowsBetweenAreLevelsAdded(s, counted, more, r, rest, n);
    var all := counted + more + ([Lower(r)] + rest);
    var u := Run(s, counted + more).value;
    RunAfter(u, Lower(r), rest);
    HandshakeSafety.RunConcat(s, counted + more, [Lower(r)] + rest);
    LoweredIsNewest(s, counted + more, r, rest);
    ScreenAfterStop(s, all);
  }

  lemma LoweredIsNewest(s: State, steps: seq<Step>, r: nat, rest: seq<Step>)
    requires Run(s, steps).Some? && Apply(Run(s, steps).value, Lower(r)).Some?
    requires Run(Apply(Run(s, steps).value, Lower(r)).value, rest).Some?
    ensures Run(Apply(Run(s, steps).value, Lower(r)).value, rest).value.renderers != []
  {
    HandshakeSafety.RendererApplies(Run(s, steps).value, Lower(r));
    RenderersStay(Apply(Run(s, steps).value, Lower(r)).value, rest);
  }

  lemma {:induction false} RenderersStay(t: State, steps: seq<Step>)
    requires Run(t, steps).Some?
    ensures |Run(t, steps).value.renderers| >= |t.renderers|
    decreases |steps|
  {
    if steps == [] {
    } else {
      StepKeepsRenderers(t, steps[0]);
      RenderersStay(Apply(t, steps[0]).value, steps[1..]);
    }
  }

  lemma StepKeepsRenderers(t: State, a: Step)
    requires Apply(t, a).Some?
    ensures |Apply(t, a).value.renderers| >= |t.renderers|
  {
    if ByRenderer(a) {
      HandshakeSafety.RendererApplies(t, a);
    }
  }

  // ---- Two runs in which a setter comes between the reading of the lines

  const COUNTING: seq<Step> := [Spinner(0, 0), Range(0)]
  const FINISHING: seq<Step> := [Message(0, 0), Up(0), Show(0), Lower(0)]
  const RETURNING: seq<Step> := [Close(0), Ack, ClearField, CheckBuffer]

  /** A fresh bar is started and stopped, and the setter takes its step when the bars of the final frame are counted. */
  function SetterRun(setter: Step): seq<Step> {
    WaitingRun() + COUNTING + [setter] + FINISHING + RETURNING
  }

  lemma SpinnerActs(t: State)
    requires Untouched(t) && t.renderers == [Painting(true, [], None)] && t.seen == []
    requires PlainText(t.style.spinner("", 0))
    ensures var line := ShortenedLine(t.style.spinner("", 0), t.initial.width);
      Apply(t, Spinner(0, 0)) ==
      Some(t.(renderers := [Painting(true, [line], None)], out := t.out + LineOutput(line), seen := [0]))
  {
    var line := ShortenedLine(t.style.spinner("", 0), t.initial.width);
    assert [] + [line] == [line] && [] + [0] == [0] && Now(t) == 0;
    assert t.renderers[0 := Painting(true, [line], None)] == [Painting(true, [line], None)];
    assert Apply(t, Spinner(0, 0)) == PaintStep(t, Spinner(0, 0), 0);
  }

  lemma RangeActs(t: State, line: string)
    requires !t.panicked && t.renderers == [Painting(true, [line], None)]
    ensures Apply(t, Range(0)) == Some(t.(renderers := [Painting(true, [line], Some(t.Levels()))]))
  {
    assert t.renderers[0 := Painting(true, [line], Some(t.Levels()))] == [Painting(true, [line], Some(t.Levels()))];
    assert Apply(t, Range(0)) == PaintStep(t, Range(0), 0);
  }

  lemma CountingRuns(t: State)
    requires Untouched(t) && t.renderers == [Painting(true, [], None)] && t.seen == []
    requires PlainText(t.style.spinner("", 0))
    ensures var r := Run(t, COUNTING); var line := ShortenedLine(t.style.spinner("", 0), t.initial.width);
      r == Some(t.(renderers := [Painting(true, [line], Some(0))], out := t.out + LineOutput(line), seen := [0]))
  {
    var line := ShortenedLine(t.style.spinner("", 0), t.initial.width);
    SpinnerActs(t);
    var u := Apply(t, Spinner(0, 0)).value;
    RangeActs(u, line);
    TwoRun(t, Spinner(0, 0), Range(0));
  }

  lemma TwoRun(t: State, a: Step, b: Step)
    requires InTime(t, a) && Apply(t, a).Some? && InTime(Apply(t, a).value, b)
    ensures Run(t, [a, b]) == Apply(Apply(t, a).value, b)
  {
    RunAfter(t, a, [b]);
    HandshakeSafety.RunOne(Apply(t, a).value, b);
    assert [a] + [b] == [a, b];
  }

  lemma FourRun(t: State, a: Step, b: Step, c: Step, d: Step)
    requires Run(t, [a, b]).Some?
    ensures Run(t, [a, b, c, d]) == Run(Run(t, [a, b]).value, [c, d])
  {
    HandshakeSafety.RunConcat(t, [a, b], [c, d]);
    assert [a, b] + [c, d] == [a, b, c, d];
  }

  lemma MessageActs(t: State, first: string)
    requires !t.panicked && t.renderers == [Painting(true, [first], Some(0))]
    requires PlainText(t.style.message(t.bar.message, 0))
    ensures var last := ShortenedLine(t.style.message(t.bar.message, 0), t.initial.width);
      Apply(t, Message(0, 0)) ==
      Some(t.(renderers := [Painting(true, [first, last], Some(0))], out := t.out + LineOutput(last), seen := t.seen + [Now(t)]))
  {
    var last := ShortenedLine(t.style.message(t.bar.message, 0), t.initial.width);
    assert [first] + [last] == [first, last];
    assert t.renderers[0 := Painting(true, [first, last], Some(0))] == [Painting(true, [first, last], Some(0))];
    assert Apply(t, Message(0, 0)) == PaintStep(t, Message(0, 0), 0);
  }

  lemma UpActs(t: State, lines: seq<string>)
    requires !t.panicked && t.renderers == [Painting(true, lines, Some(0))] && |lines| == 2
    ensures Apply(t, Up(0)) ==
      Some(t.(renderers := [Repainted], out := t.out + CursorUp(2), frame := lines, frameSeen := t.seen))
  {
    assert t.renderers[0 := Repainted] == [Repainted];
    assert Apply(t, Up(0)) == PaintStep(t, Up(0), 0);
  }

  lemma ShowActs(t: State)
    requires !t.panicked && t.renderers == [Repainted]
    ensures Apply(t, Show(0)) == Some(t.(renderers := [Revealed], out := t.out + CURSOR_SHOW, shows := t.shows + 1))
  {
    assert t.renderers[0 := Revealed] == [Revealed];
    assert Apply(t, Show(0)) == CloseStep(t, Show(0), 0);
  }

  lemma LowerActs(t: State)
    requires !t.panicked && t.renderers == [Revealed]
    ensures Apply(t, Lower(0)) ==
      Some(t.(renderers := [Lowered], out := t.out + Newlines(2 + t.Levels()), lowered := 2 + t.Levels()))
  {
    assert t.renderers[0 := Lowered] == [Lowered];
    assert Apply(t, Lower(0)) == CloseStep(t, Lower(0), 0);
  }

  /** The state after the final frame of two lines and the lowering. */
  predicate FinishedTwo(t: State, w: State, first: string, last: string) {
    && !w.panicked && w.renderers == [Lowered] && w.frame == [first, last] && w.lowered == 2 + t.Levels()
    && w.closed == t.closed && w.field == t.field && w.caller == t.caller && w.buf == t.buf && w.tail == t.tail
    && w.past == t.past && w.asked == t.asked && w.initial == t.initial
  }

  lemma FinishingRuns(t: State, first: string)
    requires !t.panicked && t.renderers == [Painting(true, [first], Some(0))]
    requires PlainText(t.style.message(t.bar.message, 0))
    ensures var r := Run(t, FINISHING); var last := ShortenedLine(t.style.message(t.bar.message, 0), t.initial.width);
      r.Some? && FinishedTwo(t, r.value, first, last) && r.value.style == t.style
  {
    var last := ShortenedLine(t.style.message(t.bar.message, 0), t.initial.width);
    MessageActs(t, first);
    var t1 := Apply(t, Message(0, 0)).value;
    UpActs(t1, [first, last]);
    TwoRun(t, Message(0, 0), Up(0));
    var t2 := Apply(t1, Up(0)).value;
    ShowActs(t2);
    var t3 := Apply(t2, Show(0)).value;
    LowerActs(t3);
    TwoRun(t2, Show(0), Lower(0));
    FourRun(t, Message(0, 0), Up(0), Show(0), Lower(0));
  }

  lemma CloseActs(t: State)
    requires !t.panicked && t.renderers == [Lowered] && t.closed == [false] && t.field == Some(0)
    ensures Apply(t, Close(0)) == Some(t.(renderers := [Exited], closed := [true]))
  {
    assert t.renderers[0 := Exited] == [Exited] && t.closed[0 := true] == [true];
    assert Apply(t, Close(0)) == CloseStep(t, Close(0), 0);
  }

  lemma AckActs(t: State)
    requires !t.panicked && t.caller.Acking? && IsClosed(t, t.caller.ack)
    ensures Apply(t, Ack) == Some(t.(caller := Clearing))
  {
    assert Apply(t, Ack) == StopStep(t, Ack);
  }

  lemma ClearActs(t: State)
    requires !t.panicked && t.caller.Clearing?
    ensures Apply(t, ClearField) == Some(t.(field := None, caller := Checking))
  {
    assert Apply(t, ClearField) == StopStep(t, ClearField);
  }

  lemma CheckActs(t: State)
    requires !t.panicked && t.caller.Checking? && t.buf == ""
    ensures Apply(t, CheckBuffer) == Some(t.(caller := Idle))
  {
    assert Apply(t, CheckBuffer) == FlushStep(t, CheckBuffer);
  }

  lemma ReturningRuns(t: State)
    requires !t.panicked && t.renderers == [Lowered] && t.closed == [false] && t.field == Some(0) && t.caller == Acking(Some(0))
    requires t.buf == ""
    ensures Run(t, RETURNING) == Some(t.(renderers := [Exited], closed := [true], field := None, caller := Idle))
  {
    CloseActs(t);
    var t1 := Apply(t, Close(0)).value;
    AckActs(t1);
    TwoRun(t, Close(0), Ack);
    var t2 := Apply(t1, Ack).value;
    ClearActs(t2);
    var t3 := Apply(t2, ClearField).value;
    CheckActs(t3);
    TwoRun(t2, ClearField, CheckBuffer);
    FourRun(t, Close(0), Ack, ClearField, CheckBuffer);
  }

  lemma SetterActs(t: State, setter: Step)
    requires !t.panicked && t.updater.None? && t.bar == Content("", "", []) && t.past == [t.bar]
    requires setter.SetMessage? || (setter.SetProgress? && setter.level == 0)
    ensures Apply(t, setter).Some?
    ensures var u := Apply(t, setter).value;
      && u == t.(bar := u.bar, past := u.past, updater := u.updater) && u.past[..1] == t.past
      && (if setter.SetMessage? then u.bar == Content("", setter.text, []) else u.bar.message == "" && u.Levels() == 1)
  {
    assert Apply(t, setter) == UpdateStep(t, setter);
  }

  lemma CountedRuns(s: State) returns (first: string)
    requires Initial(s) && PlainText(s.style.spinner("", 0))
    ensures var r := Run(s, WaitingRun() + COUNTING);
      && r.Some? && Untouched(r.value) && r.value.field == Some(0) && r.value.caller == Acking(Some(0)) && r.value.asked == 0
      && r.value.style == s.style && r.value.initial == s.initial
      && r.value.renderers == [Painting(true, [first], Some(0))]
  {
    first := ShortenedLine(s.style.spinner("", 0), s.initial.width);
    FreshStopWaits(s);
    StyleStaysInRun(s, WaitingRun());
    CountingRuns(Run(s, WaitingRun()).value);
    HandshakeSafety.RunConcat(s, WaitingRun(), COUNTING);
  }

  lemma SetterRuns(s: State, setter: Step)
    requires Initial(s) && PlainText(s.style.spinner("", 0))
    requires setter.SetMessage? || (setter.SetProgress? && setter.level == 0)
    requires PlainText(s.style.message(if setter.SetMessage? then setter.text else "", 0))
    ensures var r := Run(s, SetterRun(setter)); var text := if setter.SetMessage? then setter.text else "";
      && r.Some? && Stopped(r.value) && r.value.style == s.style && r.value.initial == s.initial
      && r.value.asked == 0 && 1 <= |r.value.past| && r.value.past[0] == Content("", "", [])
      && |r.value.frame| == 2 && r.value.frame[1] == ShortenedLine(s.style.message(text, 0), s.initial.width)
      && r.value.lowered == if setter.SetMessage? then 2 else 3
  {
    var first := CountedRuns(s);
    var t1 := Run(s, WaitingRun() + COUNTING).value;
    SetterActs(t1, setter);
    var t2 := Apply(t1, setter).value;
    assert t2.past[0] == t2.past[..1][0];
    HandshakeSafety.RunOne(t1, setter);
    FinishingRuns(t2, first);
    ReturningRuns(Run(t2, FINISHING).value);
    LastParts(s, setter);
  }

  lemma LastParts(s: State, setter: Step)
    requires Run(s, WaitingRun() + COUNTING).Some?
    requires var t1 := Run(s, WaitingRun() + COUNTING).value;
      Run(t1, [setter]).Some? && Run(Run(t1, [setter]).value, FINISHING).Some?
    ensures var t1 := Run(s, WaitingRun() + COUNTING).value;
      Run(s, SetterRun(setter)) == Run(Run(Run(t1, [setter]).value, FINISHING).value, RETURNING)
  {
    HandshakeSafety.RunConcat(s, WaitingRun() + COUNTING, [setter]);
    HandshakeSafety.RunConcat(s, WaitingRun() + COUNTING + [setter], FINISHING);
    HandshakeSafety.RunConcat(s, WaitingRun() + COUNTING + [setter] + FINISHING, RETURNING);
  }

  /** A level added then leaves one untouched row between the frame and the cursor. */
  lemma AddedLevelLeavesRow(s: State)
    requires Initial(s) && PlainText(s.style.spinner("", 0)) && PlainText(s.style.message("", 0))
    ensures var r := Run(s, SetterRun(SetProgress(0, "", 0, 0)));
      r.Some? && Stopped(r.value) && |r.value.frame| == 2 && r.value.lowered == 3
  {
    SetterRuns(s, SetProgress(0, "", 0, 0));
  }

  lemma ShortLines(width: nat)
    requires width > 0
    ensures ShortenedLine("x", width) == "x" && ShortenedLine("", width) == ""
  {
    assert NewlinesToSpaces("x") == "x" && NewlinesToSpaces("") == "";
  }

  lemma EmptyMessage(style: Style, width: nat, line: string)
    requires width > 0 && forall text, time :: style.message(text, time) == text
    ensures RendersContent(style, width, Content("", "", []), 1, line) ==> line == ""
  {
    ShortLines(width);
  }

  /** A message set then is what the frame shows, and not what the bar held when Stop was called. */
  lemma MessageSetDuringStopShows(s: State)
    requires Initial(s) && PlainText(s.style.spinner("", 0)) && forall text, time :: s.style.message(text, time) == text
    ensures var r := Run(s, SetterRun(SetMessage("x")));
      && r.Some? && Stopped(r.value)
      && var w := r.value;
         && w.asked < |w.past| && |w.frame| == 2 && w.frame[1] == "x"
         && !RendersContent(w.style, w.initial.width, w.past[w.asked], 1, w.frame[1])
  {
    SetterRuns(s, SetMessage("x"));
    ShortLines(s.initial.width);
    EmptyMessage(s.style, s.initial.width, "x");
  }
}
