/** The redraw of the terminal progress bar: each line is erased and written, then the cursor goes back up.
    The picture it should give is Overlay: the frame's lines replace the rows from the cursor's row on. */
module Frame {
  import opened Terminal
  import Decimal

  /** Like Go's util.ShortenString for text with one byte a character. */
  function ShortenString(msg: string, length: int): string {
    if length > 0 && |msg| > length then msg[..length - 1] + ['\U{2026}'] else msg
  }

  function NewlinesToSpaces(msg: string): (r: string)
    ensures |r| == |msg|
  {
    seq(|msg|, i requires 0 <= i < |msg| => if msg[i] == '\n' then ' ' else msg[i])
  }

  function ShortenedLine(msg: string, width: nat): string {
    ShortenString(NewlinesToSpaces(msg), width)
  }

  /** Text of one byte a character that may still hold line breaks. */
  predicate PlainText(msg: string) {
    forall i :: 0 <= i < |msg| ==> ' ' <= msg[i] <= '~' || msg[i] == '\n'
  }

  predicate FitsRow(line: string, width: nat) {
    AllPrintable(line) && |line| <= width
  }

  /** Shortening makes any plain text a single row, and keeps its visible beginning. */
  lemma ShortenedLineFitsRow(msg: string, width: nat)
    requires PlainText(msg) && width > 0
    ensures FitsRow(ShortenedLine(msg, width), width)
    ensures |msg| <= width ==> |ShortenedLine(msg, width)| == |msg|
    ensures forall i :: 0 <= i < |msg| && (i < width - 1 || |msg| <= width) ==>
      i < |ShortenedLine(msg, width)| && ShortenedLine(msg, width)[i] == if msg[i] == '\n' then ' ' else msg[i]
    ensures |msg| > width ==> |ShortenedLine(msg, width)| == width && ShortenedLine(msg, width)[width - 1] == '\U{2026}'
  {
    var line := NewlinesToSpaces(msg);
    assert AllPrintable(line);
  }

  function LineOutput(line: string): string {
    ERASE_LINE + line + "\n"
  }

  function CursorUp(n: nat): string {
    [ESC] + "[" + Decimal.Print(n) + "A"
  }

  function LinesOutput(lines: seq<string>): string {
    if lines == [] then "" else LinesOutput(lines[..|lines| - 1]) + LineOutput(lines[|lines| - 1])
  }

  function FrameOutput(lines: seq<string>): string {
    LinesOutput(lines) + CursorUp(|lines|)
  }

  function PadTo(rows: seq<string>, n: nat): (r: seq<string>)
    ensures |r| == if |rows| >= n then |rows| else n
  {
    if |rows| >= n then rows else rows + seq(n - |rows|, _ => "")
  }

  /** The rows with the given lines in place from row top on, and a row below them for the cursor to stand on. */
  function Overlay(rows: seq<string>, top: nat, lines: seq<string>): (r: seq<string>)
    ensures |r| >= top + |lines| + 1
  {
    var padded := PadTo(rows, top + |lines| + 1);
    padded[..top] + lines + padded[top + |lines|..]
  }

  /** The picture a frame should give. */
  function Picture(s: Screen, lines: seq<string>): (t: Screen)
    requires s.Valid()
    ensures t.Valid()
  {
    s.(rows := Overlay(s.rows, s.row, lines))
  }

  predicate AtLineStart(s: Screen) {
    s.Valid() && s.mode == Ground && s.col == 0
  }

  predicate AllFit(lines: seq<string>, width: nat) {
    forall i :: 0 <= i < |lines| ==> FitsRow(lines[i], width)
  }

  // ---- One line

  lemma EraseActs(s: Screen)
    requires s.Valid() && s.mode == Ground
    ensures Interp(s, ERASE_LINE) == s.(rows := s.rows[s.row := ""])
  {
    SequenceActs(s, "2", 'K');
    assert [ESC] + "[" + "2" + ['K'] == ERASE_LINE;
  }

  lemma LineOutputSplits(s: Screen, line: string)
    requires s.Valid() && s.mode == Ground
    ensures Interp(s, LineOutput(line)) == Interp(Interp(s.(rows := s.rows[s.row := ""]), line), "\n")
  {
    assert LineOutput(line) == ERASE_LINE + (line + "\n");
    InterpConcat(s, ERASE_LINE, line + "\n");
    EraseActs(s);
    InterpConcat(s.(rows := s.rows[s.row := ""]), line, "\n");
  }

  lemma OverlayOneLine(rows: seq<string>, top: nat, line: string)
    requires top < |rows|
    ensures Overlay(rows, top, [line]) == (if top + 1 < |rows| then rows else rows + [""])[top := line]
  {
  }

  lemma LineOnScreen(s: Screen, line: string)
    requires AtLineStart(s) && FitsRow(line, s.width)
    ensures Interp(s, LineOutput(line)) == s.(rows := Overlay(s.rows, s.row, [line]), row := s.row + 1)
  {
    LineOutputSplits(s, line);
    var erased := s.(rows := s.rows[s.row := ""]);
    PrintableFills(erased, line);
    assert "" + line == line;
    var filled := erased.(rows := s.rows[s.row := line], col := |line|);
    assert Interp(erased, line) == filled;
    InterpOne(filled, '\n');
    OverlayOneLine(s.rows, s.row, line);
    assert s.rows[s.row := ""][s.row := line] == s.rows[s.row := line];
  }

  /** A printable text that overruns the last column leaves the row it began on, and no other does. */
  lemma {:induction false} LeavesRowIffTooLong(s: Screen, text: string)
    requires s.Valid() && s.mode == Ground && s.col <= s.width && AllPrintable(text)
    ensures var t := Interp(s, text);
      t.mode == Ground && t.col <= t.width && t.row >= s.row && (t.row == s.row <==> s.col + |text| <= s.width)
    decreases |text|
  {
    if text == "" {
    } else {
      LeavesRowIffTooLong(Feed(s, text[0]), text[1..]);
    }
  }

  /** A line takes exactly one row, so that counting lines counts rows, exactly when it fits the width. */
  lemma OneRowIffFits(s: Screen, line: string)
    requires AtLineStart(s) && AllPrintable(line)
    ensures Interp(s, LineOutput(line)).row == s.row + 1 <==> |line| <= s.width
  {
    LineOutputSplits(s, line);
    var erased := s.(rows := s.rows[s.row := ""]);
    LeavesRowIffTooLong(erased, line);
    InterpOne(Interp(erased, line), '\n');
  }

  // ---- Whole frames

  lemma OverlayLength(rows: seq<string>, top: nat, lines: seq<string>)
    ensures |Overlay(rows, top, lines)| == if |rows| > top + |lines| then |rows| else top + |lines| + 1
  {
  }

  lemma OverlayRow(rows: seq<string>, top: nat, lines: seq<string>, k: nat)
    requires k < |Overlay(rows, top, lines)|
    ensures Overlay(rows, top, lines)[k] ==
      if top <= k < top + |lines| then lines[k - top] else if k < |rows| then rows[k] else ""
  {
  }

  lemma OverlayAppend(rows: seq<string>, top: nat, lines: seq<string>, line: string)
    ensures Overlay(Overlay(rows, top, lines), top + |lines|, [line]) == Overlay(rows, top, lines + [line])
  {
    var before, all := Overlay(rows, top, lines), Overlay(rows, top, lines + [line]);
    var appended := Overlay(before, top + |lines|, [line]);
    OverlayLength(rows, top, lines);
    OverlayLength(rows, top, lines + [line]);
    OverlayLength(before, top + |lines|, [line]);
    forall k: nat | k < |all| ensures appended[k] == all[k] {
      OverlayRow(before, top + |lines|, [line], k);
      OverlayRow(rows, top, lines + [line], k);
      if k < |before| {
        OverlayRow(rows, top, lines, k);
      }
    }
  }

  /** Redrawing with at least as many lines leaves no trace of the frame before. */
  lemma OverlayCovers(rows: seq<string>, top: nat, previous: seq<string>, lines: seq<string>)
    requires |previous| <= |lines|
    ensures Overlay(Overlay(rows, top, previous), top, lines) == Overlay(rows, top, lines)
  {
    var before, once := Overlay(rows, top, previous), Overlay(rows, top, lines);
    var twice := Overlay(before, top, lines);
    OverlayLength(rows, top, previous);
    OverlayLength(rows, top, lines);
    OverlayLength(before, top, lines);
    forall k: nat | k < |once| ensures twice[k] == once[k] {
      OverlayRow(before, top, lines, k);
      OverlayRow(rows, top, lines, k);
      if k < |before| {
        OverlayRow(rows, top, previous, k);
      }
    }
  }

  lemma OverlayNothing(rows: seq<string>, top: nat)
    requires top < |rows|
    ensures Overlay(rows, top, []) == rows
  {
  }

  /** The next line of a frame goes below the lines already in place. */
  lemma NextLineOnScreen(s: Screen, drawn: seq<string>, line: string)
    requires AtLineStart(s) && FitsRow(line, s.width)
    ensures var shown := s.(rows := Overlay(s.rows, s.row, drawn), row := s.row + |drawn|);
      Interp(shown, LineOutput(line)) ==
      s.(rows := Overlay(s.rows, s.row, drawn + [line]), row := s.row + |drawn| + 1)
  {
    LineOnScreen(s.(rows := Overlay(s.rows, s.row, drawn), row := s.row + |drawn|), line);
    OverlayAppend(s.rows, s.row, drawn, line);
  }

  lemma {:induction false} LinesOnScreen(s: Screen, lines: seq<string>)
    requires AtLineStart(s) && AllFit(lines, s.width)
    ensures Interp(s, LinesOutput(lines)) == s.(rows := Overlay(s.rows, s.row, lines), row := s.row + |lines|)
    decreases |lines|
  {
    if lines == [] {
      OverlayNothing(s.rows, s.row);
    } else {
      var before, line := lines[..|lines| - 1], lines[|lines| - 1];
      LinesOnScreen(s, before);
      InterpConcat(s, LinesOutput(before), LineOutput(line));
      NextLineOnScreen(s, before, line);
      assert before + [line] == lines;
    }
  }

  lemma CursorUpActs(s: Screen, n: nat)
    requires s.Valid() && s.mode == Ground && 0 < n <= s.row
    ensures Interp(s, CursorUp(n)) == s.(row := s.row - n)
  {
    var digits := Decimal.Print(n);
    Decimal.ValueOfPrint(n);
    SequenceActs(s, digits, 'A');
    assert [ESC] + "[" + digits + ['A'] == CursorUp(n);
  }

  /** The bytes of a redraw give exactly the picture of the frame, with the cursor back where it was. */
  lemma FrameGivesPicture(s: Screen, lines: seq<string>)
    requires AtLineStart(s) && lines != [] && AllFit(lines, s.width)
    ensures Interp(s, FrameOutput(lines)) == Picture(s, lines)
  {
    LinesOnScreen(s, lines);
    InterpConcat(s, LinesOutput(lines), CursorUp(|lines|));
    CursorUpActs(s.(rows := Overlay(s.rows, s.row, lines), row := s.row + |lines|), |lines|);
  }

  // ---- Many frames

  function FramesOutput(frames: seq<seq<string>>): string {
    if frames == [] then "" else FramesOutput(frames[..|frames| - 1]) + FrameOutput(frames[|frames| - 1])
  }

  /** Frames that fit, are not empty and never lose lines. */
  predicate Growing(frames: seq<seq<string>>, width: nat) {
    && (forall i :: 0 <= i < |frames| ==> frames[i] != [] && AllFit(frames[i], width))
    && (forall i, j :: 0 <= i < j < |frames| ==> |frames[i]| <= |frames[j]|)
  }

  /** However often the bar is redrawn, the screen is as if only the last frame had been drawn, once. */
  lemma {:induction false} OnlyLastFrameShows(s: Screen, frames: seq<seq<string>>)
    requires AtLineStart(s) && frames != [] && Growing(frames, s.width)
    ensures Interp(s, FramesOutput(frames)) == Picture(s, frames[|frames| - 1])
    decreases |frames|
  {
    var before, last := frames[..|frames| - 1], frames[|frames| - 1];
    InterpConcat(s, FramesOutput(before), FrameOutput(last));
    if before == [] {
      FrameGivesPicture(s, last);
    } else {
      var previous := frames[|frames| - 2];
      assert previous == before[|before| - 1];
      OnlyLastFrameShows(s, before);
      FrameGivesPicture(Picture(s, previous), last);
      OverlayCovers(s.rows, s.row, previous, last);
    }
  }

  /** No row of the longer frame before sticks out with something that was not there. */
  predicate NothingSticksOut(s: Screen, previous: seq<string>, lines: seq<string>) {
    |lines| < |previous| ==>
      && s.row + |previous| < |s.rows|
      && forall k :: |lines| <= k < |previous| ==> previous[k] == s.rows[s.row + k]
  }

  lemma TwiceRow(rows: seq<string>, top: nat, previous: seq<string>, lines: seq<string>, k: nat)
    requires |lines| < |previous| && k < |Overlay(Overlay(rows, top, previous), top, lines)|
    ensures var once := Overlay(rows, top, previous); var twice := Overlay(once, top, lines);
      && |twice| == |once|
      && twice[k] ==
         if top <= k < top + |lines| then lines[k - top]
         else if top <= k < top + |previous| then previous[k - top]
         else if k < |rows| then rows[k] else ""
  {
    OverlayRow(Overlay(rows, top, previous), top, lines, k);
    OverlayRow(rows, top, previous, 0);
    if k < |Overlay(rows, top, previous)| {
      OverlayRow(rows, top, previous, k);
    }
  }

  lemma OverlayCoversIff(s: Screen, previous: seq<string>, lines: seq<string>)
    requires s.Valid()
    ensures Overlay(Overlay(s.rows, s.row, previous), s.row, lines) == Overlay(s.rows, s.row, lines)
      <==> NothingSticksOut(s, previous, lines)
  {
    if |previous| <= |lines| {
      OverlayCovers(s.rows, s.row, previous, lines);
    } else if NothingSticksOut(s, previous, lines) {
      NothingStale(s, previous, lines);
    } else {
      SomethingStale(s, previous, lines);
    }
  }

  lemma TwiceLength(rows: seq<string>, top: nat, previous: seq<string>, lines: seq<string>)
    requires |lines| < |previous|
    ensures |Overlay(Overlay(rows, top, previous), top, lines)| == if |rows| > top + |previous| then |rows| else top + |previous| + 1
  {
    OverlayLength(rows, top, previous);
    OverlayLength(Overlay(rows, top, previous), top, lines);
  }

  lemma RowAgreesIff(rows: seq<string>, top: nat, previous: seq<string>, lines: seq<string>, k: nat)
    requires |lines| < |previous| && top + |previous| < |rows| && k < |rows|
    requires k < |Overlay(rows, top, lines)| && k < |Overlay(Overlay(rows, top, previous), top, lines)|
    ensures Overlay(Overlay(rows, top, previous), top, lines)[k] == Overlay(rows, top, lines)[k]
      <==> (top + |lines| <= k < top + |previous| ==> previous[k - top] == rows[k])
  {
    OverlayRow(rows, top, lines, k);
    TwiceRow(rows, top, previous, lines, k);
  }

  lemma NothingStale(s: Screen, previous: seq<string>, lines: seq<string>)
    requires s.Valid() && |lines| < |previous| && NothingSticksOut(s, previous, lines)
    ensures Overlay(Overlay(s.rows, s.row, previous), s.row, lines) == Overlay(s.rows, s.row, lines)
  {
    var once, twice := Overlay(s.rows, s.row, lines), Overlay(Overlay(s.rows, s.row, previous), s.row, lines);
    OverlayLength(s.rows, s.row, lines);
    TwiceLength(s.rows, s.row, previous, lines);
    forall k: nat | k < |once| ensures twice[k] == once[k] {
      assert s.row + |lines| <= k < s.row + |previous| ==> previous[k - s.row] == s.rows[s.row + (k - s.row)];
      RowAgreesIff(s.rows, s.row, previous, lines, k);
    }
    assert twice == once;
  }

  lemma StaleRow(rows: seq<string>, top: nat, previous: seq<string>, lines: seq<string>, k: nat)
    requires |lines| <= k < |previous| && top + |previous| < |rows| && previous[k] != rows[top + k]
    ensures Overlay(Overlay(rows, top, previous), top, lines) != Overlay(rows, top, lines)
  {
    OverlayLength(rows, top, lines);
    TwiceLength(rows, top, previous, lines);
    RowAgreesIff(rows, top, previous, lines, top + k);
    Differ(Overlay(Overlay(rows, top, previous), top, lines), Overlay(rows, top, lines), top + k);
  }

  lemma Differ(a: seq<string>, b: seq<string>, k: nat)
    requires k < |a| && k < |b| && a[k] != b[k]
    ensures a != b
  {
  }

  lemma StaleLength(rows: seq<string>, top: nat, previous: seq<string>, lines: seq<string>)
    requires |lines| < |previous| && top + |previous| >= |rows|
    ensures Overlay(Overlay(rows, top, previous), top, lines) != Overlay(rows, top, lines)
  {
    OverlayLength(rows, top, lines);
    TwiceLength(rows, top, previous, lines);
  }

  lemma SomethingStale(s: Screen, previous: seq<string>, lines: seq<string>)
    requires s.Valid() && |lines| < |previous| && !NothingSticksOut(s, previous, lines)
    ensures Overlay(Overlay(s.rows, s.row, previous), s.row, lines) != Overlay(s.rows, s.row, lines)
  {
    if s.row + |previous| < |s.rows| {
      var k: nat :| |lines| <= k < |previous| && previous[k] != s.rows[s.row + k];
      StaleRow(s.rows, s.row, previous, lines, k);
    } else {
      StaleLength(s.rows, s.row, previous, lines);
    }
  }

  /** A redraw leaves the picture of its frame alone exactly when the frame before was not longer, or the rows it is
      longer by showed on a screen that reached below it what they now show: a bar that lost a level leaves it there. */
  lemma RedrawCoversIff(s: Screen, previous: seq<string>, lines: seq<string>)
    requires AtLineStart(s) && previous != [] && lines != []
    requires AllFit(previous, s.width) && AllFit(lines, s.width)
    ensures Interp(s, FramesOutput([previous, lines])) == Picture(s, lines) <==> NothingSticksOut(s, previous, lines)
  {
    var both := [previous, lines];
    assert both[..1] == [previous] && [previous][..0] == [];
    assert FramesOutput([]) == "";
    assert FramesOutput([previous]) == "" + FrameOutput(previous) == FrameOutput(previous);
    assert FramesOutput(both) == FrameOutput(previous) + FrameOutput(lines);
    InterpConcat(s, FrameOutput(previous), FrameOutput(lines));
    FrameGivesPicture(s, previous);
    FrameGivesPicture(Picture(s, previous), lines);
    OverlayCoversIff(s, previous, lines);
  }
}
