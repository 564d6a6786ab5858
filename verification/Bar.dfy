/** The terminal progress bar as one goroutine sees it: its messages, its sub-level bars, the redraw and the buffer
    that captures output.  How its goroutines interleave is in Handshake. */
module Bar {
  import opened Frame
  import opened Wrappers
  import opened Terminal
  import opened Text

  /** A sub-level bar: its text and its counter. */
  datatype Level = Level(prefix: string, current: int, total: int)

  datatype SetError = OutOfOrder(have: nat, want: nat)

  const TWO_63: int := 0x8000_0000_0000_0000

  /** Signed 64-bit wrap-around. */
  function Int64(n: int): (r: int)
    ensures -0x8000_0000_0000_0000 <= r < 0x8000_0000_0000_0000 && (r - n) % 0x1_0000_0000_0000_0000 == 0
    ensures -0x8000_0000_0000_0000 <= n < 0x8000_0000_0000_0000 ==> r == n
  {
    (n + TWO_63) % (2 * TWO_63) - TWO_63
  }

  /** What a bar holds after its progress was set: counters run from one. */
  function LevelOf(message: string, done: int, total: int): Level {
    Level(message, Int64(done + 1), Int64(total + 1))
  }

  /** The bars after level i was set, which adds it when it is the next one. */
  function WithLevel(levels: seq<Level>, i: nat, level: Level): (r: seq<Level>)
    requires i <= |levels|
    ensures |r| == (if i == |levels| then |levels| + 1 else |levels|) && r[i] == level
    ensures forall j :: 0 <= j < |levels| && j != i ==> r[j] == levels[j]
  {
    if i == |levels| then levels + [level] else levels[i := level]
  }

  /** All that the bar shows. */
  datatype Content = Content(spinner: string, message: string, levels: seq<Level>)

  /** The lines of a redraw. */
  function FrameLines(spinner: string, bars: seq<string>, message: string, width: nat): seq<string> {
    [ShortenedLine(spinner, width)] + bars + [ShortenedLine(message, width)]
  }

  class TerminalProgressBar {
    var spinnerMsg: string
    var message: string
    var subLevels: seq<Level>
    var out: string
    var buf: string

    constructor ()
      ensures spinnerMsg == "" && message == "" && subLevels == [] && out == "" && buf == ""
    {
      spinnerMsg, message, subLevels, out, buf := "", "", [], "", "";
    }

    method SetProgress(subLevel: nat, text: string, done: int, total: int) returns (err: Option<SetError>)
      modifies this`subLevels
      ensures err == if subLevel > |old(subLevels)| then Some(OutOfOrder(|old(subLevels)|, subLevel)) else None
      ensures subLevel <= |old(subLevels)| ==>
        subLevels == WithLevel(old(subLevels), subLevel, LevelOf(text, done, total))
      ensures subLevel <= |old(subLevels)| ==> subLevel < |subLevels|
      ensures subLevel <= |old(subLevels)| ==>
        && (-0x8000_0000_0000_0000 <= done + 1 < 0x8000_0000_0000_0000 ==> subLevels[subLevel].current == done + 1)
        && (-0x8000_0000_0000_0000 <= total + 1 < 0x8000_0000_0000_0000 ==> subLevels[subLevel].total == total + 1)
        && subLevels[subLevel].prefix == text
      ensures subLevel > |old(subLevels)| ==> subLevels == old(subLevels)
    {
      if subLevel == |subLevels| {
        subLevels := subLevels + [Level("", 0, 0)];
      } else if subLevel > |subLevels| {
        return Some(OutOfOrder(|subLevels|, subLevel));
      }
      subLevels := subLevels[subLevel := subLevels[subLevel].(total := Int64(total + 1))];
      subLevels := subLevels[subLevel := subLevels[subLevel].(current := Int64(done + 1))];
      subLevels := subLevels[subLevel := subLevels[subLevel].(prefix := text)];
      return None;
    }

    method SetPulseMsg(text: string)
      modifies this`spinnerMsg
      ensures spinnerMsg == text
    {
      spinnerMsg := text;
    }

    method SetMessage(text: string)
      modifies this`message
      ensures message == text
    {
      message := text;
    }

    method Write(bytes: string)
      modifies this`buf
      ensures buf == old(buf) + bytes
    {
      buf := buf + bytes;
    }

    /** One redraw; spinner, bars and message are the texts the bar library renders. */
    method Render(spinner: string, bars: seq<string>, message: string, width: nat)
      requires |bars| == |subLevels|
      modifies this`out
      ensures out == old(out) + FrameOutput(FrameLines(spinner, bars, message, width))
      ensures out == old(out) + (LineOutput(ShortenedLine(spinner, width)) + LinesOutput(bars)
                                 + LineOutput(ShortenedLine(message, width)) + CursorUp(|bars| + 2))
    {
      ghost var before, lines := out, FrameLines(spinner, bars, message, width);
      var renderedLines := 0;
      NextLine(before, lines, 0);
      out := out + LineOutput(ShortenedLine(spinner, width));
      renderedLines := renderedLines + 1;
      for i := 0 to |bars|
        invariant renderedLines == i + 1
        invariant out == before + LinesOutput(lines[..i + 1])
      {
        NextLine(before, lines, i + 1);
        out := out + LineOutput(bars[i]);
        renderedLines := renderedLines + 1;
      }
      NextLine(before, lines, |bars| + 1);
      out := out + LineOutput(ShortenedLine(message, width));
      renderedLines := renderedLines + 1;
      assert lines[..|bars| + 2] == lines;
      out := out + CursorUp(renderedLines);
      FrameSplits(ShortenedLine(spinner, width), bars, ShortenedLine(message, width));
    }
  }

  lemma NextLine(before: string, lines: seq<string>, k: nat)
    requires k < |lines|
    ensures before + LinesOutput(lines[..k]) + LineOutput(lines[k]) == before + LinesOutput(lines[..k + 1])
    ensures k == 0 ==> before + LinesOutput(lines[..k]) == before
  {
    assert lines[..k + 1][..k] == lines[..k];
  }

  lemma {:induction false} LinesOutputConcat(a: seq<string>, b: seq<string>)
    ensures LinesOutput(a + b) == LinesOutput(a) + LinesOutput(b)
    decreases |b|
  {
    if b == [] {
      assert a + b == a && LinesOutput(a) + "" == LinesOutput(a);
    } else {
      var before, last := b[..|b| - 1], b[|b| - 1];
      assert (a + b)[..|a + b| - 1] == a + before && (a + b)[|a + b| - 1] == last;
      LinesOutputConcat(a, before);
      Associative(LinesOutput(a), LinesOutput(before), LineOutput(last));
    }
  }

  lemma FrameSplits(first: string, bars: seq<string>, last: string)
    ensures LinesOutput([first] + bars + [last]) == LineOutput(first) + LinesOutput(bars) + LineOutput(last)
  {
    assert [first][..0] == [] && LinesOutput([]) == "" && "" + LineOutput(first) == LineOutput(first);
    var front := [first] + bars;
    assert (front + [last])[..|front|] == front;
    LinesOutputConcat([first], bars);
  }

  lemma FrameRows(rows: seq<string>, top: nat, first: string, bars: seq<string>, last: string)
    requires top < |rows|
    ensures var shown := Overlay(rows, top, [first] + bars + [last]);
      && top + |bars| + 2 < |shown| && shown[top] == first && shown[top + 1 + |bars|] == last
      && shown[top + 1..top + 1 + |bars|] == bars
  {
    var lines := [first] + bars + [last];
    var shown := Overlay(rows, top, lines);
    OverlayLength(rows, top, lines);
    OverlayRow(rows, top, lines, top);
    OverlayRow(rows, top, lines, top + 1 + |bars|);
    forall i | 0 <= i < |bars| ensures shown[top + 1 + i] == bars[i] {
      OverlayRow(rows, top, lines, top + 1 + i);
    }
  }

  /** After a redraw the spinner is on the cursor's row, the bars follow in their order and the message is below them. */
  lemma RenderOnScreen(s: Screen, spinner: string, bars: seq<string>, message: string)
    requires AtLineStart(s) && PlainText(spinner) && PlainText(message) && AllFit(bars, s.width)
    ensures var t := Interp(s, FrameOutput(FrameLines(spinner, bars, message, s.width)));
      && s.row + |bars| + 2 < |t.rows| && t.row == s.row
      && t.rows[s.row] == ShortenedLine(spinner, s.width)
      && t.rows[s.row + 1..s.row + 1 + |bars|] == bars
      && t.rows[s.row + 1 + |bars|] == ShortenedLine(message, s.width)
  {
    var lines := FrameLines(spinner, bars, message, s.width);
    ShortenedLineFitsRow(spinner, s.width);
    ShortenedLineFitsRow(message, s.width);
    FrameGivesPicture(s, lines);
    FrameRows(s.rows, s.row, ShortenedLine(spinner, s.width), bars, ShortenedLine(message, s.width));
  }
}
