/** The render steps of the state machine, when nothing comes between them, are the Render method of the bar. */
module Repaint {
  import opened Frame
  import opened Wrappers
  import opened Handshake
  import opened Bar
  import opened Text
  import opened HandshakeSafety

  lemma RunThenOne(s: State, a: seq<Step>, t: State, b: Step)
    requires Run(s, a) == Some(t) && ByRenderer(b) && Apply(t, b).Some?
    ensures Run(s, a + [b]) == Apply(t, b)
  {
    RunConcat(s, a, [b]);
    RunOne(t, b);
  }

  /** The next bars of a repaint, each read where the bar is now and laid out at its own time. */
  function BarSteps(r: nat, times: seq<nat>, now: nat): seq<Step> {
    if times == [] then []
    else BarSteps(r, times[..|times| - 1], now) + [BarLine(r, Reading(now, now, now, times[|times| - 1]))]
  }

  function BarTexts(style: Style, levels: seq<Level>, times: seq<nat>): (texts: seq<string>)
    requires |times| <= |levels|
    ensures |texts| == |times| && forall i :: 0 <= i < |times| ==> texts[i] == style.level(levels[i], times[i])
  {
    seq(|times|, i requires 0 <= i < |times| => style.level(levels[i], times[i]))
  }

  /** The state with renderer r moved and more output written, for so many lines. */
  function Standing(t: State, r: nat, where: Renderer, more: string, lines: nat): State
    requires r < |t.renderers|
  {
    t.(renderers := t.renderers[r := where], out := t.out + more, seen := seq(lines, _ => Now(t)))
  }

  lemma OneMoreLine(t: State, r: nat, where: Renderer, x: string, lines: nat, line: string)
    requires r < |t.renderers| && where.Painting?
    ensures DrawLine(Standing(t, r, where, x, lines), r, line)
      == Standing(t, r, where.(drawn := where.drawn + [line]), x + LineOutput(line), lines + 1)
  {
    var moved := where.(drawn := where.drawn + [line]);
    assert t.out + x + LineOutput(line) == t.out + (x + LineOutput(line));
    assert t.renderers[r := where][r := moved] == t.renderers[r := moved];
    assert seq(lines, _ => Now(t)) + [Now(t)] == seq(lines + 1, _ => Now(t));
  }

  lemma SpinnerStep(t: State, r: nat, time: nat)
    requires !t.panicked && r < |t.renderers| && PlainText(t.style.spinner(t.bar.spinner, time))
    requires t.renderers[r].Painting? && t.renderers[r].drawn == [] && t.renderers[r].bars.None? && t.seen == []
    ensures var line := ShortenedLine(t.style.spinner(t.bar.spinner, time), t.initial.width);
      Apply(t, Spinner(r, time)) == Some(Standing(t, r, Painting(t.renderers[r].final, [line], None), LineOutput(line), 1))
  {
    var line := ShortenedLine(t.style.spinner(t.bar.spinner, time), t.initial.width);
    assert [] + [line] == [line] && [] + [Now(t)] == seq(1, _ => Now(t));
  }

  lemma RangeStep(t: State, r: nat, final: bool, drawn: seq<string>, x: string)
    requires !t.panicked && r < |t.renderers| && drawn != []
    ensures Apply(Standing(t, r, Painting(final, drawn, None), x, |drawn|), Range(r))
      == Some(Standing(t, r, Painting(final, drawn, Some(t.Levels())), x, |drawn|))
  {
    assert t.renderers[r := Painting(final, drawn, None)][r := Painting(final, drawn, Some(t.Levels()))]
      == t.renderers[r := Painting(final, drawn, Some(t.Levels()))];
  }

  lemma BarStep(t: State, r: nat, final: bool, drawn: seq<string>, n: nat, x: string, time: nat)
    requires !t.panicked && r < |t.renderers| && 1 <= |drawn| <= n <= t.Levels() && PastAccount(t)
    requires FitsRow(t.style.level(t.bar.levels[|drawn| - 1], time), t.initial.width)
    ensures var line := t.style.level(t.bar.levels[|drawn| - 1], time);
      Apply(Standing(t, r, Painting(final, drawn, Some(n)), x, |drawn|), BarLine(r, Reading(Now(t), Now(t), Now(t), time)))
      == Some(Standing(t, r, Painting(final, drawn + [line], Some(n)), x + LineOutput(line), |drawn| + 1))
  {
    OneMoreLine(t, r, Painting(final, drawn, Some(n)), x, |drawn|, t.style.level(t.bar.levels[|drawn| - 1], time));
  }

  lemma MessageStep(t: State, r: nat, final: bool, drawn: seq<string>, n: nat, x: string, time: nat)
    requires !t.panicked && r < |t.renderers| && |drawn| == n + 1 && PlainText(t.style.message(t.bar.message, time))
    ensures var line := ShortenedLine(t.style.message(t.bar.message, time), t.initial.width);
      Apply(Standing(t, r, Painting(final, drawn, Some(n)), x, |drawn|), Message(r, time))
      == Some(Standing(t, r, Painting(final, drawn + [line], Some(n)), x + LineOutput(line), |drawn| + 1))
  {
    var line := ShortenedLine(t.style.message(t.bar.message, time), t.initial.width);
    OneMoreLine(t, r, Painting(final, drawn, Some(n)), x, |drawn|, line);
  }

  /** The state after an undisturbed repaint of the given lines by the given bytes. */
  function AfterRepaint(t: State, r: nat, final: bool, lines: seq<string>, bytes: string): State
    requires r < |t.renderers|
  {
    var after := Standing(t, r, if final then Repainted else Looping, bytes, |lines|);
    after.(frame := lines, frameSeen := after.seen)
  }

  lemma UpStep(t: State, r: nat, final: bool, drawn: seq<string>, n: nat, x: string)
    requires !t.panicked && r < |t.renderers| && |drawn| == n + 2
    ensures Apply(Standing(t, r, Painting(final, drawn, Some(n)), x, |drawn|), Up(r))
      == Some(AfterRepaint(t, r, final, drawn, x + CursorUp(|drawn|)))
  {
    var where := if final then Repainted else Looping;
    Associative(t.out, x, CursorUp(|drawn|));
    assert t.renderers[r := Painting(final, drawn, Some(n))][r := where] == t.renderers[r := where];
  }

  lemma {:induction false} BarsAreDrawn(t: State, r: nat, final: bool, first: string, n: nat, x: string, times: seq<nat>)
    requires !t.panicked && r < |t.renderers| && |times| <= n <= t.Levels() && PastAccount(t)
    requires AllFit(BarTexts(t.style, t.bar.levels, times), t.initial.width)
    ensures var bars := BarTexts(t.style, t.bar.levels, times);
      Run(Standing(t, r, Painting(final, [first], Some(n)), x, 1), BarSteps(r, times, Now(t)))
      == Some(Standing(t, r, Painting(final, [first] + bars, Some(n)), x + LinesOutput(bars), 1 + |bars|))
    decreases |times|
  {
    var s, bars := Standing(t, r, Painting(final, [first], Some(n)), x, 1), BarTexts(t.style, t.bar.levels, times);
    if times == [] {
      assert [first] + bars == [first] && x + LinesOutput(bars) == x;
    } else {
      var before, time := times[..|times| - 1], times[|times| - 1];
      var drawn, last := BarTexts(t.style, t.bar.levels, before), bars[|bars| - 1];
      assert bars == drawn + [last];
      BarsAreDrawn(t, r, final, first, n, x, before);
      LastBarIsDrawn(t, r, final, [first] + drawn, n, x + LinesOutput(drawn), s, BarSteps(r, before, Now(t)), time);
      assert [first] + drawn + [last] == [first] + bars;
      LastLineOutput(x, drawn, last);
    }
  }

  lemma LastBarIsDrawn(t: State, r: nat, final: bool, drawn: seq<string>, n: nat, x: string,
                       s: State, steps: seq<Step>, time: nat)
    requires !t.panicked && r < |t.renderers| && 1 <= |drawn| <= n <= t.Levels() && PastAccount(t)
    requires FitsRow(t.style.level(t.bar.levels[|drawn| - 1], time), t.initial.width)
    requires Run(s, steps) == Some(Standing(t, r, Painting(final, drawn, Some(n)), x, |drawn|))
    ensures var line := t.style.level(t.bar.levels[|drawn| - 1], time);
      Run(s, steps + [BarLine(r, Reading(Now(t), Now(t), Now(t), time))])
      == Some(Standing(t, r, Painting(final, drawn + [line], Some(n)), x + LineOutput(line), |drawn| + 1))
  {
    BarStep(t, r, final, drawn, n, x, time);
    RunThenOne(s, steps, Standing(t, r, Painting(final, drawn, Some(n)), x, |drawn|), BarLine(r, Reading(Now(t), Now(t), Now(t), time)));
  }

  lemma LastLineOutput(x: string, lines: seq<string>, last: string)
    ensures x + LinesOutput(lines) + LineOutput(last) == x + LinesOutput(lines + [last])
  {
    assert (lines + [last])[..|lines|] == lines;
    Associative(x, LinesOutput(lines), LineOutput(last));
  }

  /** A repaint that looks at the spinner, the bars and the message at the given times. */
  function RepaintSteps(r: nat, first: nat, times: seq<nat>, last: nat, now: nat): seq<Step> {
    [Spinner(r, first)] + ([Range(r)] + (BarSteps(r, times, now) + ([Message(r, last)] + [Up(r)])))
  }

  /** An undisturbed repaint writes what Render writes for the texts of those times, and its frame is Render's. */
  lemma RepaintIsRender(t: State, r: nat, first: nat, times: seq<nat>, last: nat)
    requires !t.panicked && r < |t.renderers| && |times| == t.Levels() && PastAccount(t)
    requires t.renderers[r].Painting? && t.renderers[r].drawn == [] && t.renderers[r].bars.None? && t.seen == []
    requires PlainText(t.style.spinner(t.bar.spinner, first)) && PlainText(t.style.message(t.bar.message, last))
    requires AllFit(BarTexts(t.style, t.bar.levels, times), t.initial.width)
    ensures var lines := FrameLines(t.style.spinner(t.bar.spinner, first), BarTexts(t.style, t.bar.levels, times),
                                    t.style.message(t.bar.message, last), t.initial.width);
      Run(t, RepaintSteps(r, first, times, last, Now(t))) ==
      Some(AfterRepaint(t, r, t.renderers[r].final, lines, FrameOutput(lines)))
  {
    var final, width, n := t.renderers[r].final, t.initial.width, t.Levels();
    var bars := BarTexts(t.style, t.bar.levels, times);
    var top := ShortenedLine(t.style.spinner(t.bar.spinner, first), width);
    var bottom := ShortenedLine(t.style.message(t.bar.message, last), width);
    var x1 := LineOutput(top);
    var x2 := x1 + LinesOutput(bars);
    var x3 := x2 + LineOutput(bottom);
    var lines := [top] + bars + [bottom];
    SpinnerStep(t, r, first);
    RangeStep(t, r, final, [top], x1);
    BarsAreDrawn(t, r, final, top, n, x1, times);
    MessageStep(t, r, final, [top] + bars, n, x2, last);
    FrameSplits(top, bars, bottom);
    UpStep(t, r, final, lines, n, x3);
    ChainRuns(t, Standing(t, r, Painting(final, [top], None), x1, 1), Standing(t, r, Painting(final, [top], Some(n)), x1, 1),
              Standing(t, r, Painting(final, [top] + bars, Some(n)), x2, 1 + n),
              Standing(t, r, Painting(final, lines, Some(n)), x3, 2 + n), AfterRepaint(t, r, final, lines, x3 + CursorUp(|lines|)),
              r, first, times, last);
  }

  lemma ChainRuns(t: State, t1: State, t2: State, t3: State, t4: State, t5: State,
                  r: nat, first: nat, times: seq<nat>, last: nat)
    requires Apply(t, Spinner(r, first)) == Some(t1) && Apply(t1, Range(r)) == Some(t2)
    requires Run(t2, BarSteps(r, times, Now(t))) == Some(t3)
    requires Apply(t3, Message(r, last)) == Some(t4) && Apply(t4, Up(r)) == Some(t5)
    ensures Run(t, RepaintSteps(r, first, times, last, Now(t))) == Some(t5)
  {
    RunOne(t, Spinner(r, first));
    RunOne(t1, Range(r));
    RunOne(t3, Message(r, last));
    RunOne(t4, Up(r));
    RunConcat(t3, [Message(r, last)], [Up(r)]);
    RunConcat(t2, BarSteps(r, times, Now(t)), [Message(r, last)] + [Up(r)]);
    RunConcat(t1, [Range(r)], BarSteps(r, times, Now(t)) + ([Message(r, last)] + [Up(r)]));
    RunConcat(t, [Spinner(r, first)], [Range(r)] + (BarSteps(r, times, Now(t)) + ([Message(r, last)] + [Up(r)])));
  }

  /** A renderer that waits, or is about to, can repaint at any time, and is then back where it was with the frame of what
      the bar holds in place. */
  lemma TickRedraws(t: State, r: nat, first: nat, times: seq<nat>, last: nat)
    requires !t.panicked && r < |t.renderers| && |times| == t.Levels() && PastAccount(t) && t.renderers[r].Waiting?
    requires PlainText(t.style.spinner(t.bar.spinner, first)) && PlainText(t.style.message(t.bar.message, last))
    requires AllFit(BarTexts(t.style, t.bar.levels, times), t.initial.width)
    ensures var lines := FrameLines(t.style.spinner(t.bar.spinner, first), BarTexts(t.style, t.bar.levels, times),
                                    t.style.message(t.bar.message, last), t.initial.width);
      var u := Run(t, [Tick(r)] + RepaintSteps(r, first, times, last, Now(t)));
      u.Some? && Redrawn(t, u.value, r, lines)
  {
    var t1 := At(t, r, Painting(false, [], None)).(seen := []);
    var lines := FrameLines(t.style.spinner(t.bar.spinner, first), BarTexts(t.style, t.bar.levels, times),
                            t.style.message(t.bar.message, last), t.initial.width);
    TickedRenders(t, t1, r, first, times, last);
    TickThen(t, t1, r, RepaintSteps(r, first, times, last, Now(t)));
    RepaintLeaves(t, r, lines);
  }

  lemma TickedRenders(t: State, t1: State, r: nat, first: nat, times: seq<nat>, last: nat)
    requires !t.panicked && r < |t.renderers| && |times| == t.Levels() && PastAccount(t)
    requires t1 == At(t, r, Painting(false, [], None)).(seen := [])
    requires PlainText(t.style.spinner(t.bar.spinner, first)) && PlainText(t.style.message(t.bar.message, last))
    requires AllFit(BarTexts(t.style, t.bar.levels, times), t.initial.width)
    ensures var lines := FrameLines(t.style.spinner(t.bar.spinner, first), BarTexts(t.style, t.bar.levels, times),
                                    t.style.message(t.bar.message, last), t.initial.width);
      Run(t1, RepaintSteps(r, first, times, last, Now(t))) == Some(AfterRepaint(t1, r, false, lines, FrameOutput(lines)))
  {
    assert Now(t1) == Now(t) && t1.Levels() == t.Levels();
    RepaintIsRender(t1, r, first, times, last);
  }

  lemma TickThen(t: State, t1: State, r: nat, steps: seq<Step>)
    requires !t.panicked && r < |t.renderers| && t.renderers[r].Waiting?
    requires t1 == At(t, r, Painting(false, [], None)).(seen := [])
    ensures Run(t, [Tick(r)] + steps) == Run(t1, steps)
  {
    TickActs(t, r);
    RunOne(t, Tick(r));
    RunConcat(t, [Tick(r)], steps);
  }

  /** The lines have been written as a frame, and the renderer goes on to wait again. */
  ghost predicate Redrawn(t: State, u: State, r: nat, lines: seq<string>) {
    && u.frame == lines && u.out == t.out + FrameOutput(lines) && u.bar == t.bar
    && r < |u.renderers| && u.renderers[r] == Looping
    && Apply(u, EnterSelect(r)) == Some(At(u, r, Waiting(u.field)))
  }

  lemma TickActs(t: State, r: nat)
    requires !t.panicked && r < |t.renderers| && t.renderers[r].Waiting?
    ensures Apply(t, Tick(r)) == Some(At(t, r, Painting(false, [], None)).(seen := []))
  {
    assert Apply(t, Tick(r)) == SelectStep(t, Tick(r), r);
  }

  lemma RepaintLeaves(t: State, r: nat, lines: seq<string>)
    requires !t.panicked && r < |t.renderers|
    ensures var t1 := At(t, r, Painting(false, [], None)).(seen := []);
      Redrawn(t, AfterRepaint(t1, r, false, lines, FrameOutput(lines)), r, lines)
  {
    var t1 := At(t, r, Painting(false, [], None)).(seen := []);
    LoopingSelects(AfterRepaint(t1, r, false, lines, FrameOutput(lines)), r);
  }

  lemma LoopingSelects(u: State, r: nat)
    requires !u.panicked && r < |u.renderers| && u.renderers[r] == Looping
    ensures Apply(u, EnterSelect(r)) == Some(At(u, r, Waiting(u.field)))
  {
    assert Apply(u, EnterSelect(r)) == SelectStep(u, EnterSelect(r), r);
  }
}
