/** How Stop and the renderer it shuts down get to their end, and what becomes of it when the timer of Stop fires. */
module HandshakeShutdown {
  import opened Terminal
  import opened Frame
  import opened Wrappers
  import opened Handshake
  import opened Bar
  import opened HandshakeResults
  import HandshakeSafety

  /** Steps left of a repaint. */
  function PaintLeft(drawn: seq<string>, bars: Option<nat>, levels: nat): int {
    match bars
    case None => levels + 4 - |drawn|
    case Some(n) => n + 3 - |drawn|
  }

  /** Steps left until the channel is closed, for a renderer that has the request. */
  function CloseLeft(r: Renderer, levels: nat): int {
    match r
    case Painting(_, drawn, bars) => PaintLeft(drawn, bars, levels) + 3
    case Repainted => 3
    case Revealed => 2
    case Lowered => 1
    case _ => 0
  }

  /** Steps left until Stop returns, at most. */
  function StopLeft(t: State): int {
    match t.caller
    case Sending(_) =>
      (match Newest(t)
       case Painting(_, drawn, bars) => PaintLeft(drawn, bars, t.Levels()) + 2
       case Looping => 2
       case _ => 1) + t.Levels() + 13
    case Acking(_) => CloseLeft(Newest(t), t.Levels()) + 6
    case Clearing => 5
    case Checking => 4
    case Locking => 3
    case Emitting => 2
    case Resetting => 1
    case _ => 0
  }

  lemma OnlyRendererOrAnyone(t: State, a: Step)
    requires Accounts(t) && t.caller.Acking? && !IsClosed(t, t.caller.ack) && InTime(t, a) && Apply(t, a).Some?
    ensures ByAnyone(a) || (ByRenderer(a) && a.r == |t.renderers| - 1)
  {
    if ByRenderer(a) {
      if a.r < |t.renderers| - 1 {
        ExitedIsSilent(t, a);
      }
    }
  }

  /** The renderer is still to count the bars. */
  predicate Uncounted(r: Renderer) {
    r.Painting? && r.bars.None?
  }

  lemma AnyoneLeavesClose(t: State, a: Step)
    requires ByAnyone(a) && Apply(t, a).Some?
    ensures var u := Apply(t, a).value;
      && u.renderers == t.renderers && u.closed == t.closed && u.caller == t.caller && u.Levels() >= t.Levels()
      && CloseLeft(Newest(u), u.Levels()) ==
         CloseLeft(Newest(t), t.Levels()) + if Uncounted(Newest(t)) then u.Levels() - t.Levels() else 0
  {
  }

  lemma AnyoneLeavesOpen(t: State, a: Step)
    requires Accounts(t) && t.caller.Acking? && !IsClosed(t, t.caller.ack) && ByAnyone(a) && !ByRenderer(a) && Apply(t, a).Some?
    ensures var u := Apply(t, a).value;
      && u.caller == t.caller && u.Levels() >= t.Levels() && Uncounted(Newest(u)) == Uncounted(Newest(t))
      && 0 < CloseLeft(Newest(u), u.Levels()) ==
         CloseLeft(Newest(t), t.Levels()) + (if Uncounted(Newest(t)) then u.Levels() - t.Levels() else 0)
      && !IsClosed(u, t.caller.ack)
  {
    CloseIsAhead(t);
    AnyoneLeavesClose(t, a);
  }

  lemma RangeOrUpNears(t: State, a: Step, r: nat)
    requires Accounts(t) && r == |t.renderers| - 1 && t.renderers[r].Painting? && t.renderers[r].final
    requires !Draws(a) && PaintStep(t, a, r).Some?
    ensures var u := PaintStep(t, a, r).value;
      && CloseLeft(Newest(u), u.Levels()) == CloseLeft(Newest(t), t.Levels()) - 1 > 0 && !Uncounted(Newest(u))
      && u.closed == t.closed && u.caller == t.caller && u.bar == t.bar
  {
  }

  lemma PaintNearsClose(t: State, a: Step)
    requires Accounts(t) && t.caller.Acking? && Newest(t).Painting? && Newest(t).final
    requires ByRenderer(a) && a.r == |t.renderers| - 1 && Apply(t, a).Some?
    ensures var u := Apply(t, a).value;
      && CloseLeft(Newest(u), u.Levels()) == CloseLeft(Newest(t), t.Levels()) - 1 > 0
      && (Uncounted(Newest(u)) ==> Uncounted(Newest(t)))
      && u.closed == t.closed && u.caller == t.caller && u.bar == t.bar
  {
    HandshakeSafety.RendererApplies(t, a);
    assert Apply(t, a) == PaintStep(t, a, a.r);
    if Draws(a) {
      var line := HandshakeSafety.LineDrawn(t, a, a.r);
    } else {
      RangeOrUpNears(t, a, a.r);
    }
  }

  lemma CloseNears(t: State, a: Step)
    requires Accounts(t) && t.caller.Acking? && Live(t) && !Newest(t).Painting?
    requires ByRenderer(a) && a.r == |t.renderers| - 1 && Apply(t, a).Some?
    ensures var u := Apply(t, a).value;
      && CloseLeft(Newest(u), u.Levels()) == CloseLeft(Newest(t), t.Levels()) - 1
      && (IsClosed(u, t.caller.ack) <==> Newest(t).Lowered?) && u.caller == t.caller && u.bar == t.bar
      && !Uncounted(Newest(u))
  {
    HandshakeSafety.RendererApplies(t, a);
    assert Closing(Newest(t)) && Closes(a);
    assert Apply(t, a) == CloseStep(t, a, a.r);
  }

  /** Once the renderer has the request, each of its steps brings the close nearer by one, from at most levels + 7
      away.  Nobody else can take a step but the setters and Write, and those leave the distance as it is, except
      that a level added before the bars are counted is one more line to draw. */
  lemma ShutdownIsBounded(s: State, steps: seq<Step>, a: Step)
    requires Initial(s) && Run(s, steps).Some?
    requires var t := Run(s, steps).value;
      t.caller.Acking? && !IsClosed(t, t.caller.ack) && InTime(t, a) && Apply(t, a).Some?
    ensures var t := Run(s, steps).value; var u := Apply(t, a).value;
      && 0 < CloseLeft(Newest(t), t.Levels()) <= t.Levels() + 7
      && u.caller == t.caller && (ByRenderer(a) || ByAnyone(a))
      && CloseLeft(Newest(u), u.Levels()) ==
         CloseLeft(Newest(t), t.Levels()) + (if ByRenderer(a) then -1 else if Uncounted(Newest(t)) then u.Levels() - t.Levels() else 0)
      && (IsClosed(u, t.caller.ack) <==> CloseLeft(Newest(u), u.Levels()) == 0)
  {
    HandshakeSafety.Reachable(s, steps);
    ShutdownStep(Run(s, steps).value, a);
  }

  lemma CloseIsAhead(t: State)
    requires Accounts(t) && t.caller.Acking? && !IsClosed(t, t.caller.ack)
    ensures Live(t) && 0 < CloseLeft(Newest(t), t.Levels()) <= t.Levels() + 7
  {
  }

  lemma RendererNears(t: State, a: Step)
    requires Accounts(t) && t.caller.Acking? && !IsClosed(t, t.caller.ack)
    requires ByRenderer(a) && a.r == |t.renderers| - 1 && Apply(t, a).Some?
    ensures var u := Apply(t, a).value;
      && u.caller == t.caller && u.Levels() == t.Levels() && (Uncounted(Newest(u)) ==> Uncounted(Newest(t)))
      && CloseLeft(Newest(u), u.Levels()) == CloseLeft(Newest(t), t.Levels()) - 1
      && (IsClosed(u, t.caller.ack) <==> CloseLeft(Newest(u), u.Levels()) == 0)
  {
    CloseIsAhead(t);
    if Newest(t).Painting? {
      PaintNearsClose(t, a);
    } else {
      CloseNears(t, a);
    }
  }

  lemma ShutdownStep(t: State, a: Step)
    requires Accounts(t) && t.caller.Acking? && !IsClosed(t, t.caller.ack) && InTime(t, a) && Apply(t, a).Some?
    ensures var u := Apply(t, a).value;
      && 0 < CloseLeft(Newest(t), t.Levels()) <= t.Levels() + 7
      && u.caller == t.caller && (ByRenderer(a) || ByAnyone(a)) && u.Levels() >= t.Levels()
      && (Uncounted(Newest(u)) ==> Uncounted(Newest(t)))
      && CloseLeft(Newest(u), u.Levels()) ==
         CloseLeft(Newest(t), t.Levels()) + (if ByRenderer(a) then -1 else if Uncounted(Newest(t)) then u.Levels() - t.Levels() else 0)
      && (IsClosed(u, t.caller.ack) <==> CloseLeft(Newest(u), u.Levels()) == 0) && CloseLeft(Newest(u), u.Levels()) >= 0
  {
    CloseIsAhead(t);
    OnlyRendererOrAnyone(t, a);
    if ByAnyone(a) {
      AnyoneLeavesOpen(t, a);
    } else {
      RendererNears(t, a);
    }
  }

  function StepsOfRenderers(steps: seq<Step>): nat {
    if steps == [] then 0 else (if ByRenderer(steps[0]) then 1 else 0) + StepsOfRenderers(steps[1..])
  }

  /** The channel of the request is still open after every beginning of the run but the whole of it. */
  ghost predicate WaitsThroughout(t: State, steps: seq<Step>) {
    forall j :: 0 <= j < |steps| && Run(t, steps[..j]).Some? ==>
      var u := Run(t, steps[..j]).value; u.caller.Acking? ==> !IsClosed(u, u.caller.ack)
  }

  /** So over a whole run that waits for the close, the renderer takes at most as many steps as there are levels at the
      end of it, and seven; and once it has counted the bars the setters cannot add to them. */
  lemma RendererStepsAreBounded(s: State, before: seq<Step>, steps: seq<Step>)
    requires Initial(s) && Run(s, before).Some? && Run(s, before).value.caller.Acking?
    requires Run(s, before + steps).Some? && steps != [] && WaitsThroughout(Run(s, before).value, steps)
    ensures var t := Run(s, before).value; var u := Run(s, before + steps).value;
      && StepsOfRenderers(steps) <= u.Levels() + 7
      && (!Uncounted(Newest(t)) ==> StepsOfRenderers(steps) <= CloseLeft(Newest(t), t.Levels()))
  {
    HandshakeSafety.Reachable(s, before);
    HandshakeSafety.RunConcat(s, before, steps);
    var t := Run(s, before).value;
    assert steps[..0] == [] && Run(t, steps[..0]) == Some(t);
    RendererStepsFrom(t, steps);
    CloseIsAhead(t);
  }

  lemma {:induction false} RendererStepsFrom(t: State, steps: seq<Step>)
    requires Inv(t) && t.caller.Acking? && !IsClosed(t, t.caller.ack) && Run(t, steps).Some? && WaitsThroughout(t, steps)
    ensures var u := Run(t, steps).value;
      && u.Levels() >= t.Levels() && CloseLeft(Newest(u), u.Levels()) >= 0
      && StepsOfRenderers(steps) + CloseLeft(Newest(u), u.Levels()) <=
         CloseLeft(Newest(t), t.Levels()) + if Uncounted(Newest(t)) then u.Levels() - t.Levels() else 0
    decreases |steps|
  {
    if steps == [] {
      CloseIsAhead(t);
    } else {
      var a := steps[0];
      var u := Apply(t, a).value;
      ShutdownStep(t, a);
      HandshakeSafety.StepKeeps(t, a);
      if |steps| == 1 {
        assert steps[1..] == [] && Run(u, steps[1..]) == Some(u);
      } else {
        WaitsAfterFirst(t, steps);
        RendererStepsFrom(u, steps[1..]);
      }
    }
  }

  lemma WaitsAfterFirst(t: State, steps: seq<Step>)
    requires |steps| > 1 && InTime(t, steps[0]) && Apply(t, steps[0]).Some? && WaitsThroughout(t, steps)
    ensures var u := Apply(t, steps[0]).value;
      WaitsThroughout(u, steps[1..]) && (u.caller.Acking? ==> !IsClosed(u, u.caller.ack))
  {
    var u := Apply(t, steps[0]).value;
    forall j | 0 <= j < |steps| - 1 ensures Run(t, steps[..j + 1]) == Run(u, steps[1..][..j]) {
      assert steps[..j + 1][1..] == steps[1..][..j];
    }
    assert Run(u, steps[1..][..0]) == Some(u);
    assert Run(t, steps[..0 + 1]) == Run(u, steps[1..][..0]);
  }

  /** What is asked of the bar library: texts of one byte a character, and bars that fit the width. */
  ghost predicate WellRendered(style: Style, width: nat) {
    && (forall text, time :: PlainText(style.spinner(text, time)))
    && (forall text, time :: PlainText(style.message(text, time)))
    && (forall level, time :: FitsRow(style.level(level, time), width))
  }

  ghost predicate Rendered(t: State) {
    WellRendered(t.style, t.initial.width)
  }

  /** A repaint under way can read the bars as they are now. */
  predicate ReadsNow(t: State) {
    Newest(t).Painting? ==> PastAccount(t) && Looked(t) <= Now(t)
  }

  lemma InvReadsNow(t: State)
    requires Inv(t)
    ensures ReadsNow(t)
  {
  }

  /** The step that brings renderer r on, reading where the bar is now. */
  function RendererNext(me: Renderer, r: nat, now: nat): Step {
    match me
    case Looping => EnterSelect(r)
    case Waiting(_) => Handover(r)
    case Painting(_, drawn, None) => if drawn == [] then Spinner(r, 0) else Range(r)
    case Painting(_, drawn, Some(n)) =>
      if |drawn| <= n then BarLine(r, Reading(now, now, now, 0)) else if |drawn| == n + 1 then Message(r, 0) else Up(r)
    case Repainted => Show(r)
    case Revealed => Lower(r)
    case _ => Close(r)
  }

  /** The step that brings Stop on. */
  function StopNext(t: State): Step {
    match t.caller
    case Sending(_) => if t.renderers != [] then RendererNext(Newest(t), |t.renderers| - 1, Now(t)) else SendOnClosed
    case Acking(_) => if Live(t) then RendererNext(Newest(t), |t.renderers| - 1, Now(t)) else Ack
    case Clearing => ClearField
    case Checking => CheckBuffer
    case Locking => LockBuffer
    case Emitting => EmitBuffer
    case _ => ResetBuffer
  }

  predicate InsideStop(t: State) {
    !t.caller.Idle? && !t.caller.Hiding? && !t.caller.Making? && !t.caller.Spawning?
  }

  lemma SendingAdvances(t: State)
    requires Accounts(t) && t.caller.Sending? && !Newest(t).Painting?
    ensures var a := StopNext(t);
      && Apply(t, a).Some? && 0 <= StopLeft(Apply(t, a).value) < StopLeft(t) && InsideStop(Apply(t, a).value)
  {
    assert Apply(t, StopNext(t)) == SelectStep(t, StopNext(t), |t.renderers| - 1);
  }

  /** A repaint is next to write a line, and not to look at the bars or to go up. */
  predicate AtLine(me: Renderer) {
    me.Painting? && (match me.bars case None => me.drawn == [] case Some(n) => |me.drawn| <= n + 1)
  }

  lemma ReadableNow(t: State, i: nat)
    requires PastAccount(t) && Looked(t) <= Now(t) && i < t.Levels()
    ensures Readable(t.past, i, Looked(t), Now(t), Reading(Now(t), Now(t), Now(t), 0))
  {
    assert t.past[Now(t)] == t.bar;
  }

  lemma BarNext(t: State) returns (line: string)
    requires !t.panicked && t.renderers != [] && Newest(t).Painting? && LinesCounted(t, Newest(t)) && Rendered(t) && ReadsNow(t)
    requires Newest(t).bars.Some? && |Newest(t).drawn| <= Newest(t).bars.value
    ensures var r: nat := |t.renderers| - 1; Apply(t, RendererNext(Newest(t), r, Now(t))) == Some(DrawLine(t, r, line))
  {
    var r: nat := |t.renderers| - 1;
    var how := Reading(Now(t), Now(t), Now(t), 0);
    var i := |Newest(t).drawn| - 1;
    ReadableNow(t, i);
    line := t.style.level(LevelRead(t.past, i, how), 0);
    assert Apply(t, BarLine(r, how)) == PaintStep(t, BarLine(r, how), r);
  }

  lemma LineNext(t: State) returns (line: string)
    requires !t.panicked && t.renderers != [] && AtLine(Newest(t)) && LinesCounted(t, Newest(t)) && Rendered(t) && ReadsNow(t)
    ensures var r: nat := |t.renderers| - 1; Apply(t, RendererNext(Newest(t), r, Now(t))) == Some(DrawLine(t, r, line))
  {
    var r: nat := |t.renderers| - 1;
    var Painting(_, drawn, bars) := Newest(t);
    if bars.Some? && |drawn| <= bars.value {
      line := BarNext(t);
    } else {
      line := ShortenedLine(if bars.None? then t.style.spinner(t.bar.spinner, 0) else t.style.message(t.bar.message, 0), t.initial.width);
      assert Apply(t, RendererNext(Newest(t), r, Now(t))) == PaintStep(t, RendererNext(Newest(t), r, Now(t)), r);
    }
  }

  lemma RangeOrUpNext(t: State)
    requires !t.panicked && t.renderers != [] && LinesCounted(t, Newest(t)) && Newest(t).Painting? && !AtLine(Newest(t))
    ensures var r: nat := |t.renderers| - 1; var Painting(final, drawn, bars) := Newest(t);
      Apply(t, RendererNext(Newest(t), r, Now(t))) ==
      Some(if bars.None? then At(t, r, Painting(final, drawn, Some(t.Levels())))
           else Emit(At(t, r, if final then Repainted else Looping), CursorUp(|drawn|)).(frame := drawn, frameSeen := t.seen))
  {
    var r: nat := |t.renderers| - 1;
    assert Apply(t, RendererNext(Newest(t), r, Now(t))) == PaintStep(t, RendererNext(Newest(t), r, Now(t)), r);
  }

  lemma LineLeaves(t: State, line: string)
    requires t.renderers != [] && AtLine(Newest(t)) && LinesCounted(t, Newest(t)) && ReadsNow(t)
    ensures var u := DrawLine(t, |t.renderers| - 1, line);
      && u == t.(renderers := u.renderers, out := u.out, seen := u.seen) && u.renderers != []
      && Newest(u) == Newest(t).(drawn := Newest(t).drawn + [line]) && LinesCounted(u, Newest(u)) && ReadsNow(u)
  {
  }

  lemma PaintingNext(t: State)
    requires !t.panicked && t.renderers != [] && Newest(t).Painting? && LinesCounted(t, Newest(t)) && Rendered(t) && ReadsNow(t)
    ensures var r: nat := |t.renderers| - 1; var a := RendererNext(Newest(t), r, Now(t));
      && Apply(t, a).Some?
      && var u := Apply(t, a).value;
         && u == t.(renderers := u.renderers, out := u.out, frame := u.frame, seen := u.seen, frameSeen := u.frameSeen) && u.renderers != []
         && LinesCounted(u, Newest(u)) && ReadsNow(u)
         && (match Newest(u)
             case Painting(final, drawn, bars) =>
               final == Newest(t).final
               && PaintLeft(drawn, bars, u.Levels()) == PaintLeft(Newest(t).drawn, Newest(t).bars, t.Levels()) - 1
             case _ =>
               Newest(u) == (if Newest(t).final then Repainted else Looping)
               && PaintLeft(Newest(t).drawn, Newest(t).bars, t.Levels()) == 1)
  {
    if AtLine(Newest(t)) {
      var line := LineNext(t);
      LineLeaves(t, line);
    } else {
      RangeOrUpNext(t);
    }
  }

  lemma PaintingAdvances(t: State)
    requires Accounts(t) && ReadsNow(t) && Rendered(t) && (t.caller.Sending? || t.caller.Acking?) && Newest(t).Painting?
    ensures var a := StopNext(t);
      && Apply(t, a).Some? && 0 <= StopLeft(Apply(t, a).value) < StopLeft(t) && InsideStop(Apply(t, a).value)
  {
    PaintingNext(t);
    var u := Apply(t, StopNext(t)).value;
    assert u.caller == t.caller;
  }

  lemma ClosingNext(t: State)
    requires !t.panicked && t.renderers != [] && (Newest(t).Repainted? || Newest(t).Revealed?)
    ensures var a := RendererNext(Newest(t), |t.renderers| - 1, Now(t));
      && Apply(t, a).Some?
      && var u := Apply(t, a).value;
         && u == t.(renderers := u.renderers, out := u.out, shows := u.shows, lowered := u.lowered) && u.renderers != []
         && Newest(u) == (if Newest(t).Repainted? then Revealed else Lowered)
  {
    var r: nat := |t.renderers| - 1;
    assert Apply(t, RendererNext(Newest(t), r, Now(t))) == CloseStep(t, RendererNext(Newest(t), r, Now(t)), r);
  }

  lemma LoweredNext(t: State)
    requires Accounts(t) && t.caller.Acking? && Newest(t).Lowered?
    ensures var a := RendererNext(Newest(t), |t.renderers| - 1, Now(t));
      && Apply(t, a).Some?
      && var u := Apply(t, a).value;
         Newest(u) == Exited && u.caller == t.caller && u.renderers != []
  {
    var r: nat := |t.renderers| - 1;
    assert Apply(t, Close(r)) == CloseStep(t, Close(r), r);
  }

  lemma AckingAdvances(t: State)
    requires Accounts(t) && t.caller.Acking? && !Newest(t).Painting?
    ensures var a := StopNext(t);
      && Apply(t, a).Some? && 0 <= StopLeft(Apply(t, a).value) < StopLeft(t) && InsideStop(Apply(t, a).value)
  {
    if Newest(t).Lowered? {
      LoweredNext(t);
    } else if Live(t) {
      ClosingNext(t);
    }
  }

  lemma FlushingAdvances(t: State)
    requires Accounts(t) && InsideStop(t) && !t.caller.Sending? && !t.caller.Acking?
    ensures var a := StopNext(t);
      && Apply(t, a).Some? && 0 <= StopLeft(Apply(t, a).value) < StopLeft(t)
      && (InsideStop(Apply(t, a).value) || Stopped(Apply(t, a).value))
  {
  }

  lemma StyleStays(t: State, a: Step)
    requires Apply(t, a).Some?
    ensures Apply(t, a).value.style == t.style && Apply(t, a).value.initial == t.initial
  {
    if ByRenderer(a) {
      RendererKeepsStyle(t, a);
    } else {
      CallerKeepsStyle(t, a);
    }
  }

  lemma RendererKeepsStyle(t: State, a: Step)
    requires Apply(t, a).Some? && ByRenderer(a)
    ensures Apply(t, a).value.style == t.style && Apply(t, a).value.initial == t.initial
  {
  }

  lemma CallerKeepsStyle(t: State, a: Step)
    requires Apply(t, a).Some? && !ByRenderer(a)
    ensures Apply(t, a).value.style == t.style && Apply(t, a).value.initial == t.initial
  {
  }

  lemma StopAdvances(t: State)
    requires Inv(t) && InsideStop(t) && Rendered(t)
    ensures var a := StopNext(t);
      && InTime(t, a) && Apply(t, a).Some? && 0 <= StopLeft(Apply(t, a).value) < StopLeft(t)
      && Rendered(Apply(t, a).value)
      && (InsideStop(Apply(t, a).value) || Stopped(Apply(t, a).value))
  {
    InvReadsNow(t);
    if (t.caller.Sending? || t.caller.Acking?) && Newest(t).Painting? {
      PaintingAdvances(t);
    } else if t.caller.Sending? {
      SendingAdvances(t);
    } else if t.caller.Acking? {
      AckingAdvances(t);
    } else {
      FlushingAdvances(t);
    }
    StyleStays(t, StopNext(t));
  }

  lemma RunAfter(t: State, a: Step, rest: seq<Step>)
    requires InTime(t, a) && Apply(t, a).Some?
    ensures Run(t, [a] + rest) == Run(Apply(t, a).value, rest)
  {
    assert ([a] + rest)[1..] == rest;
  }

  lemma StopLeftIsBounded(t: State)
    requires Inv(t)
    ensures StopLeft(t) <= 2 * t.Levels() + 19
  {
  }

  /** Stop never deadlocks: wherever it is, some schedule of at most two steps a level and nineteen lets it return. */
  lemma {:induction false} StopCanReturn(t: State) returns (steps: seq<Step>)
    requires Inv(t) && InsideStop(t) && Rendered(t)
    ensures |steps| <= StopLeft(t) <= 2 * t.Levels() + 19 && Run(t, steps).Some? && Stopped(Run(t, steps).value)
    decreases StopLeft(t)
  {
    StopLeftIsBounded(t);
    var a := StopNext(t);
    StopAdvances(t);
    var u := Apply(t, a).value;
    var rest := [];
    if InsideStop(u) {
      HandshakeSafety.StepKeeps(t, a);
      rest := StopCanReturn(u);
    }
    steps := [a] + rest;
    RunAfter(t, a, rest);
  }

  // ---- The timer of Stop

  /** A renderer that has the request but finds the field nil runs into the close of a nil channel. */
  lemma {:induction false} NilFieldPanics(t: State) returns (steps: seq<Step>)
    requires !t.panicked && t.field.None? && t.renderers != [] && Closing(Newest(t)) && LinesCounted(t, Newest(t)) && Rendered(t) && ReadsNow(t)
    ensures Run(t, steps).Some? && Run(t, steps).value.panicked
    decreases CloseLeft(Newest(t), t.Levels())
  {
    var a := RendererNext(Newest(t), |t.renderers| - 1, Now(t));
    var rest := [];
    if !Newest(t).Lowered? {
      NilFieldAdvances(t);
      rest := NilFieldPanics(Apply(t, a).value);
    }
    steps := [a] + rest;
    RunAfter(t, a, rest);
  }

  lemma NilFieldAdvances(t: State)
    requires !t.panicked && t.field.None? && t.renderers != [] && Closing(Newest(t)) && LinesCounted(t, Newest(t)) && Rendered(t) && ReadsNow(t)
    requires !Newest(t).Lowered?
    ensures var a := RendererNext(Newest(t), |t.renderers| - 1, Now(t));
      && Apply(t, a).Some?
      && var u := Apply(t, a).value;
         && !u.panicked && u.field.None? && u.renderers != [] && Closing(Newest(u)) && LinesCounted(u, Newest(u)) && Rendered(u) && ReadsNow(u)
         && 0 <= CloseLeft(Newest(u), u.Levels()) < CloseLeft(Newest(t), t.Levels())
  {
    if Newest(t).Painting? {
      PaintingNext(t);
    } else {
      ClosingNext(t);
    }
  }

  lemma EarlyTimeoutClears(t: State)
    requires Accounts(t) && t.caller.Acking? && !IsClosed(t, t.caller.ack)
    ensures Apply(t, AckTimeout) == Some(t.(caller := Clearing))
    ensures Apply(t.(caller := Clearing), ClearField) == Some(t.(field := None, caller := Checking))
    ensures !t.panicked && t.renderers != [] && Closing(Newest(t)) && LinesCounted(t, Newest(t))
  {
  }

  lemma EarlyTimeoutPanics(t: State) returns (steps: seq<Step>)
    requires Inv(t) && Rendered(t) && t.caller.Acking? && !IsClosed(t, t.caller.ack)
    ensures Apply(t, AckTimeout).Some?
    ensures var r := Run(Apply(t, AckTimeout).value, steps); r.Some? && r.value.panicked
  {
    EarlyTimeoutClears(t);
    InvReadsNow(t);
    var v := t.(field := None, caller := Checking);
    assert Newest(v) == Newest(t) && Looked(v) == Looked(t) && Now(v) == Now(t) && PastAccount(v) == PastAccount(t);
    var rest := NilFieldPanics(v);
    steps := [ClearField] + rest;
    RunAfter(t.(caller := Clearing), ClearField, rest);
  }

  lemma TimelyTimeoutKeeps(t: State)
    requires Inv(t) && t.caller.Acking? && IsClosed(t, t.caller.ack)
    ensures Apply(t, AckTimeout).Some? && Inv(Apply(t, AckTimeout).value)
  {
    AckTimeoutActs(t);
    HandshakeSafety.StepKeeps(t, AckTimeout);
  }

  lemma AckTimeoutActs(t: State)
    requires Protocol(t) && t.caller.Acking?
    ensures Apply(t, AckTimeout) == Some(t.(caller := Clearing))
  {
    assert Apply(t, AckTimeout) == StopStep(t, AckTimeout);
  }

  lemma TimelyTimeoutIsSafe(t: State, steps: seq<Step>)
    requires Inv(t) && t.caller.Acking? && IsClosed(t, t.caller.ack)
    requires Apply(t, AckTimeout).Some? && Run(Apply(t, AckTimeout).value, steps).Some?
    ensures !Run(Apply(t, AckTimeout).value, steps).value.panicked
  {
    TimelyTimeoutKeeps(t);
    NeverPanics(Apply(t, AckTimeout).value, steps);
  }

  lemma NeverPanics(t: State, steps: seq<Step>)
    requires Inv(t) && Run(t, steps).Some?
    ensures !Run(t, steps).value.panicked
  {
    HandshakeSafety.RunKeeps(t, steps);
  }

  /** When the timer of Stop fires, every later run is free of panics exactly if the channel was closed already. */
  lemma TimeoutIsSafeIffClosed(s: State, before: seq<Step>)
    requires Initial(s) && Run(s, before).Some? && Run(s, before).value.caller.Acking? && Rendered(Run(s, before).value)
    ensures var t := Run(s, before).value;
      Apply(t, AckTimeout).Some? &&
      (IsClosed(t, t.caller.ack) <==>
       forall steps :: Run(Apply(t, AckTimeout).value, steps).Some? ==> !Run(Apply(t, AckTimeout).value, steps).value.panicked)
  {
    HandshakeSafety.Reachable(s, before);
    var t := Run(s, before).value;
    var u := Apply(t, AckTimeout).value;
    if IsClosed(t, t.caller.ack) {
      forall steps | Run(u, steps).Some? ensures !Run(u, steps).value.panicked {
        TimelyTimeoutIsSafe(t, steps);
      }
    } else {
      var steps := EarlyTimeoutPanics(t);
      assert Run(u, steps).Some? && Run(u, steps).value.panicked;
    }
  }

  const STARTING: seq<Step> := [BeginStart, Hide, Make, Spawn]
  const STOPPING: seq<Step> := [EnterSelect(0), BeginStop, Handover(0)]

  function WaitingRun(): seq<Step> {
    STARTING + STOPPING
  }

  /** A bar that nobody has set or written to. */
  predicate Untouched(t: State) {
    && !t.panicked && t.updater.None? && !t.locked && t.buf == "" && t.tail.None? && t.closed == [false]
    && t.bar == Content("", "", []) && t.past == [t.bar]
  }

  lemma FreshStartRuns(s: State)
    requires Initial(s)
    ensures var r := Run(s, STARTING);
      r.Some? && r.value.caller.Idle? && r.value.field == Some(0) && r.value.renderers == [Looping] && Untouched(r.value)
  {
  }

  lemma StartedStopWaits(t: State)
    requires t.caller.Idle? && t.field == Some(0) && t.renderers == [Looping] && Untouched(t)
    ensures var r := Run(t, STOPPING);
      && r.Some? && Untouched(r.value) && r.value.field == Some(0) && r.value.caller == Acking(Some(0))
      && r.value.renderers == [Painting(true, [], None)] && r.value.seen == [] && r.value.asked == 0
  {
    var t1 := t.(renderers := [Waiting(Some(0))]);
    var t2 := t1.(caller := Sending(0), asked := Now(t));
    EnterSelectActs(t);
    BeginStopActs(t1);
    HandoverActs(t2);
    HandshakeSafety.RunOne(t2, Handover(0));
    RunAfter(t1, BeginStop, [Handover(0)]);
    RunAfter(t, EnterSelect(0), [BeginStop] + [Handover(0)]);
    assert STOPPING == [EnterSelect(0)] + ([BeginStop] + [Handover(0)]);
  }

  lemma EnterSelectActs(t: State)
    requires !t.panicked && t.field == Some(0) && t.renderers == [Looping]
    ensures Apply(t, EnterSelect(0)) == Some(t.(renderers := [Waiting(Some(0))]))
  {
    assert t.renderers[0 := Waiting(Some(0))] == [Waiting(Some(0))];
    assert Apply(t, EnterSelect(0)) == SelectStep(t, EnterSelect(0), 0);
  }

  lemma BeginStopActs(t: State)
    requires !t.panicked && t.field == Some(0) && t.caller.Idle?
    ensures Apply(t, BeginStop) == Some(t.(caller := Sending(0), asked := Now(t)))
  {
    assert Apply(t, BeginStop) == StopStep(t, BeginStop);
  }

  lemma HandoverActs(t: State)
    requires !t.panicked && t.closed == [false] && t.field == Some(0) && t.caller == Sending(0) && t.renderers == [Waiting(Some(0))]
    ensures Apply(t, Handover(0)) == Some(t.(renderers := [Painting(true, [], None)], seen := [], caller := Acking(Some(0))))
  {
    assert t.renderers[0 := Painting(true, [], None)] == [Painting(true, [], None)];
    assert Apply(t, Handover(0)) == SelectStep(t, Handover(0), 0);
  }

  /** Stop does come to wait for an open channel: a Start and a Stop of a fresh bar are enough. */
  lemma FreshStopWaits(s: State)
    requires Initial(s)
    ensures var r := Run(s, WaitingRun());
      && r.Some? && Untouched(r.value) && r.value.field == Some(0) && r.value.caller == Acking(Some(0))
      && r.value.renderers == [Painting(true, [], None)] && r.value.seen == [] && r.value.asked == 0
      && !IsClosed(r.value, r.value.caller.ack)
  {
    FreshStartRuns(s);
    StartedStopWaits(Run(s, STARTING).value);
    HandshakeSafety.RunConcat(s, STARTING, STOPPING);
  }

  /** And so, where the bar library gives texts that can be drawn, a timer that fires then leads to a panic. */
  lemma EarlyTimeoutHappens(s: State) returns (after: seq<Step>)
    requires Initial(s) && Rendered(s)
    ensures var r := Run(s, WaitingRun());
      && r.Some? && Apply(r.value, AckTimeout).Some?
      && var end := Run(Apply(r.value, AckTimeout).value, after); end.Some? && end.value.panicked
  {
    FreshStopWaits(s);
    HandshakeSafety.Reachable(s, WaitingRun());
    StyleStaysInRun(s, WaitingRun());
    after := EarlyTimeoutPanics(Run(s, WaitingRun()).value);
  }

  lemma {:induction false} StyleStaysInRun(s: State, steps: seq<Step>)
    requires Run(s, steps).Some?
    ensures Run(s, steps).value.style == s.style && Run(s, steps).value.initial == s.initial
    decreases |steps|
  {
    if steps == [] {
    } else {
      StyleStays(s, steps[0]);
      StyleStaysInRun(Apply(s, steps[0]).value, steps[1..]);
    }
  }
}
