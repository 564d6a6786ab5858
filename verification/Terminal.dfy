/** A character terminal: an interpreter of the byte stream written to it, over an unbounded grid of rows.
    The control sequences are EL (section 8.3.41 of ECMA-48), CUU (section 8.3.22 of ECMA-48) and the private
    modes that hide and show the cursor.  A line feed also returns the carriage, as a terminal in its usual
    output mode does, and a character beyond the last column continues on the next row. */
module Terminal {
  import Decimal

  const ESC: char := '\U{1B}'
  const ERASE_LINE: string := [ESC] + "[2K"
  const CURSOR_HIDE: string := [ESC] + "[?25l"
  const CURSOR_SHOW: string := [ESC] + "[?25h"

  datatype Mode = Ground | Escape | Control(params: string)

  /** Rows are numbered from the top; the cell contents of a row are its characters, blank beyond its length. */
  datatype Screen = Screen(width: nat, rows: seq<string>, row: nat, col: nat, cursorShown: bool, mode: Mode) {
    predicate Valid() {
      width > 0 && row < |rows|
    }
  }

  /** One cell is taken by each printable ASCII character and by the ellipsis. */
  predicate Printable(c: char) {
    ' ' <= c <= '~' || c == '\U{2026}'
  }

  predicate AllPrintable(s: string) {
    forall i :: 0 <= i < |s| ==> Printable(s[i])
  }

  function Blanks(n: nat): (s: string)
    ensures |s| == n
  {
    seq(n, _ => ' ')
  }

  function WithCell(line: string, col: nat, c: char): string {
    if col < |line| then line[col := c] else line + Blanks(col - |line|) + [c]
  }

  function LineFeed(s: Screen): Screen
    requires s.Valid()
  {
    s.(row := s.row + 1, col := 0, rows := if s.row + 1 < |s.rows| then s.rows else s.rows + [""])
  }

  function Put(s: Screen, c: char): Screen
    requires s.Valid()
  {
    var t := if s.col < s.width then s else LineFeed(s);
    t.(rows := t.rows[t.row := WithCell(t.rows[t.row], t.col, c)], col := t.col + 1)
  }

  /** The numeric parameter of a control sequence; 1 when absent or zero. */
  function Count(params: string): (n: nat) {
    if Decimal.AllDigits(params) && Decimal.Value(params) > 0 then Decimal.Value(params) else 1
  }

  function Execute(s: Screen, params: string, final: char): Screen
    requires s.Valid()
  {
    if final == 'K' && params == "2" then s.(rows := s.rows[s.row := ""])
    else if final == 'A' then s.(row := if Count(params) <= s.row then s.row - Count(params) else 0)
    else if final == 'l' && params == "?25" then s.(cursorShown := false)
    else if final == 'h' && params == "?25" then s.(cursorShown := true)
    else s
  }

  function Feed(s: Screen, c: char): (t: Screen)
    requires s.Valid()
    ensures t.Valid() && t.width == s.width
  {
    match s.mode
    case Ground =>
      if c == ESC then s.(mode := Escape)
      else if c == '\n' then LineFeed(s)
      else if c == '\r' then s.(col := 0)
      else if Printable(c) then Put(s, c)
      else s
    case Escape =>
      s.(mode := if c == '[' then Control("") else Ground)
    case Control(params) =>
      if '@' <= c <= '~' then Execute(s, params, c).(mode := Ground) else s.(mode := Control(params + [c]))
  }

  /** What the terminal shows after receiving the given output. */
  function Interp(s: Screen, output: string): (t: Screen)
    requires s.Valid()
    ensures t.Valid() && t.width == s.width
    decreases |output|
  {
    if output == "" then s else Interp(Feed(s, output[0]), output[1..])
  }

  lemma {:induction false} InterpConcat(s: Screen, a: string, b: string)
    requires s.Valid()
    ensures Interp(s, a + b) == Interp(Interp(s, a), b)
    decreases |a|
  {
    if a == "" {
      assert a + b == b;
    } else {
      assert (a + b)[0] == a[0] && (a + b)[1..] == a[1..] + b;
      InterpConcat(Feed(s, a[0]), a[1..], b);
    }
  }

  lemma InterpOne(s: Screen, c: char)
    requires s.Valid()
    ensures Interp(s, [c]) == Feed(s, c)
  {
    assert [c][1..] == "";
    assert Interp(Feed(s, c), "") == Feed(s, c);
  }

  /** Characters between "[" and the final byte collect in the parameter string. */
  lemma {:induction false} ControlCollects(s: Screen, params: string, more: string)
    requires s.Valid() && s.mode == Control(params)
    requires forall i :: 0 <= i < |more| ==> more[i] < '@'
    ensures Interp(s, more) == s.(mode := Control(params + more))
    decreases |more|
  {
    if more == "" {
      assert params + more == params;
    } else {
      ControlCollects(Feed(s, more[0]), params + [more[0]], more[1..]);
      assert params + [more[0]] + more[1..] == params + more;
    }
  }

  /** A whole control sequence acts at once. */
  lemma SequenceActs(s: Screen, params: string, final: char)
    requires s.Valid() && s.mode == Ground
    requires '@' <= final <= '~'
    requires forall i :: 0 <= i < |params| ==> params[i] < '@'
    ensures Interp(s, [ESC] + "[" + params + [final]) == Execute(s, params, final)
  {
    var begun := s.(mode := Control(""));
    var intro := [ESC, '['];
    assert Interp(s, intro) == begun by {
      assert intro[1..] == ['['];
      assert Feed(s, ESC) == s.(mode := Escape);
      InterpOne(s.(mode := Escape), '[');
    }
    assert [ESC] + "[" + params + [final] == intro + (params + [final]);
    InterpConcat(s, intro, params + [final]);
    InterpConcat(begun, params, [final]);
    ControlCollects(begun, "", params);
    assert "" + params == params;
    var collected := s.(mode := Control(params));
    InterpOne(collected, final);
    assert Execute(collected, params, final).(mode := Ground) == Execute(s, params, final);
  }

  /** A run of printable characters that ends within the width fills the row from the cursor on. */
  lemma {:induction false} PrintableFills(s: Screen, text: string)
    requires s.Valid() && s.mode == Ground && AllPrintable(text)
    requires s.col == |s.rows[s.row]| && s.col + |text| <= s.width
    ensures Interp(s, text) == s.(rows := s.rows[s.row := s.rows[s.row] + text], col := s.col + |text|)
    decreases |text|
  {
    if text == "" {
      assert s.rows[s.row] + text == s.rows[s.row];
    } else {
      var line := s.rows[s.row];
      assert WithCell(line, s.col, text[0]) == line + [text[0]];
      PrintableFills(Feed(s, text[0]), text[1..]);
      assert line + [text[0]] + text[1..] == line + text;
    }
  }

  lemma PlainFeedStaysBelow(s: Screen, c: char)
    requires s.Valid() && s.mode == Ground && c != ESC
    ensures var t := Feed(s, c);
      t.mode == Ground && t.row >= s.row && |t.rows| >= |s.rows| && t.cursorShown == s.cursorShown
      && forall k :: 0 <= k < s.row ==> t.rows[k] == s.rows[k]
  {
  }

  /** Output without control sequences never reaches a row above the cursor. */
  lemma {:induction false} PlainOutputStaysBelow(s: Screen, text: string)
    requires s.Valid() && s.mode == Ground && ESC !in text
    ensures var t := Interp(s, text);
      t.mode == Ground && t.row >= s.row && |t.rows| >= |s.rows| && t.rows[..s.row] == s.rows[..s.row]
      && t.cursorShown == s.cursorShown
    decreases |text|
  {
    if text == "" {
    } else {
      var u := Feed(s, text[0]);
      PlainFeedStaysBelow(s, text[0]);
      PlainOutputStaysBelow(u, text[1..]);
      var t := Interp(u, text[1..]);
      assert t.rows[..s.row] == t.rows[..u.row][..s.row] == u.rows[..s.row];
    }
  }
}
