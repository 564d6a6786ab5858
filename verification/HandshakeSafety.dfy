/** Every step of the progress bar keeps the invariant: first the accounts, group by group, then the screen. */
module HandshakeSafety {
  import opened Terminal
  import opened Frame
  import opened Wrappers
  import opened Handshake
  import opened Bar

  lemma EmitShows(s: State, bytes: string)
    requires s.initial.Valid() && s.start <= |s.out|
    ensures Shown(Emit(s, bytes)) == Interp(Shown(s), bytes)
    ensures Base(Emit(s, bytes)) == Base(s)
  {
    InterpConcat(s.initial, s.out, bytes);
    assert (s.out + bytes)[..s.start] == s.out[..s.start];
  }

  lemma CursorModesAct(t: Screen)
    requires t.Valid() && t.mode == Ground
    ensures Interp(t, CURSOR_HIDE) == t.(cursorShown := false)
    ensures Interp(t, CURSOR_SHOW) == t.(cursorShown := true)
  {
    SequenceActs(t, "?25", 'l');
    assert [ESC] + "[" + "?25" + ['l'] == CURSOR_HIDE;
    SequenceActs(t, "?25", 'h');
    assert [ESC] + "[" + "?25" + ['h'] == CURSOR_SHOW;
  }

  lemma {:induction false} NewlinesDescend(t: Screen, n: nat)
    requires AtLineStart(t)
    ensures Interp(t, Newlines(n)) == t.(rows := PadTo(t.rows, t.row + n + 1), row := t.row + n)
    decreases n
  {
    if n == 0 {
    } else {
      var u := LineFeed(t);
      assert Newlines(n)[1..] == Newlines(n - 1);
      NewlinesDescend(u, n - 1);
      assert PadTo(u.rows, u.row + n) == PadTo(t.rows, t.row + n + 1);
    }
  }

  lemma HideAccounts(s: State, a: Step)
    requires Protocol(s) && CursorAccount(s) && FrameAccount(s)
    requires StartStep(s, a).Some? && (a.BeginStart? || a.Hide?)
    ensures var t := StartStep(s, a).value; Protocol(t) && CursorAccount(t) && FrameAccount(t)
  {
  }

  lemma MakeAccounts(s: State, a: Step)
    requires Protocol(s) && CursorAccount(s) && FrameAccount(s)
    requires StartStep(s, a).Some? && !a.BeginStart? && !a.Hide?
    ensures var t := StartStep(s, a).value; Protocol(t) && CursorAccount(t) && FrameAccount(t)
  {
  }

  lemma StopStepAccounts(s: State, a: Step)
    requires Protocol(s) && CursorAccount(s) && FrameAccount(s) && InTime(s, a)
    requires StopStep(s, a).Some?
    ensures var t := StopStep(s, a).value; Protocol(t) && CursorAccount(t) && FrameAccount(t)
  {
  }

  lemma FlushStepAccounts(s: State, a: Step)
    requires Protocol(s) && CursorAccount(s) && FrameAccount(s)
    requires FlushStep(s, a).Some?
    ensures var t := FlushStep(s, a).value; Protocol(t) && CursorAccount(t) && FrameAccount(t)
  {
    var t := FlushStep(s, a).value;
    assert t.renderers == s.renderers && t.closed == s.closed && t.field == s.field && t.frame == s.frame;
    assert Newest(t) == Newest(s) && !Starting(t) && !Starting(s);
  }

  lemma MoreLevelsAccounts(s: State, t: State)
    requires Protocol(s) && CursorAccount(s) && FrameAccount(s)
    requires t == s.(bar := t.bar, past := t.past, updater := t.updater) && t.Levels() >= s.Levels()
    ensures Protocol(t) && CursorAccount(t) && FrameAccount(t)
  {
    assert Newest(t) == Newest(s);
  }

  lemma WriteAccounts(s: State, t: State)
    requires Protocol(s) && CursorAccount(s) && FrameAccount(s) && t == s.(buf := t.buf, written := t.written)
    ensures Protocol(t) && CursorAccount(t) && FrameAccount(t)
  {
    assert Newest(t) == Newest(s);
  }

  lemma UpdateStepAccounts(s: State, a: Step)
    requires Protocol(s) && CursorAccount(s) && FrameAccount(s)
    requires UpdateStep(s, a).Some?
    ensures var t := UpdateStep(s, a).value; Protocol(t) && CursorAccount(t) && FrameAccount(t)
  {
    if a.Write? {
      WriteAccounts(s, UpdateStep(s, a).value);
    } else {
      MoreLevelsAccounts(s, UpdateStep(s, a).value);
    }
  }

  lemma SelectStepAccounts(s: State, a: Step, r: nat)
    requires Protocol(s) && CursorAccount(s) && FrameAccount(s)
    requires r < |s.renderers| && SelectStep(s, a, r).Some?
    ensures var t := SelectStep(s, a, r).value; Protocol(t) && CursorAccount(t) && FrameAccount(t)
  {
    var t := SelectStep(s, a, r).value;
    assert r == |s.renderers| - 1 && t.renderers == s.renderers[r := Newest(t)] && t.closed == s.closed;
  }

  lemma DrawAccounts(s: State, a: Step, r: nat)
    requires Protocol(s) && CursorAccount(s) && FrameAccount(s)
    requires r < |s.renderers| && PaintStep(s, a, r).Some? && Draws(a)
    ensures var t := PaintStep(s, a, r).value; Protocol(t) && CursorAccount(t) && FrameAccount(t)
  {
    var t := PaintStep(s, a, r).value;
    assert r == |s.renderers| - 1 && Newest(t) == Newest(s).(drawn := Newest(t).drawn);
    assert |Newest(t).drawn| == |Newest(s).drawn| + 1;
  }

  lemma RangeAndUpAccounts(s: State, a: Step, r: nat)
    requires Protocol(s) && CursorAccount(s) && FrameAccount(s)
    requires r < |s.renderers| && PaintStep(s, a, r).Some? && !Draws(a)
    ensures var t := PaintStep(s, a, r).value; Protocol(t) && CursorAccount(t) && FrameAccount(t)
  {
  }

  lemma CloseStepAccounts(s: State, a: Step, r: nat)
    requires Protocol(s) && CursorAccount(s) && FrameAccount(s)
    requires r < |s.renderers| && CloseStep(s, a, r).Some?
    ensures var t := CloseStep(s, a, r).value; Protocol(t) && CursorAccount(t) && FrameAccount(t)
  {
    var t := CloseStep(s, a, r).value;
    assert r == |s.renderers| - 1 && s.renderers[r] == Newest(s);
    assert Newest(t) == match a case Show(_) => Revealed case Lower(_) => Lowered case _ => Exited;
  }

  lemma CallerStepBuffers(s: State, a: Step)
    requires BufferAccount(s) && Protocol(s) && !ByRenderer(a) && Apply(s, a).Some?
    ensures BufferAccount(Apply(s, a).value)
  {
  }

  lemma SelectStepBuffers(s: State, a: Step, r: nat)
    requires BufferAccount(s) && r < |s.renderers| && SelectStep(s, a, r).Some?
    ensures var t := SelectStep(s, a, r).value;
      BufferAccount(t) && t.initial == s.initial && t.start == s.start && |t.out| >= |s.out|
  {
  }

  lemma PaintStepBuffers(s: State, a: Step, r: nat)
    requires BufferAccount(s) && r < |s.renderers| && PaintStep(s, a, r).Some?
    ensures var t := PaintStep(s, a, r).value;
      BufferAccount(t) && t.initial == s.initial && t.start == s.start && |t.out| >= |s.out|
  {
  }

  lemma CloseStepBuffers(s: State, a: Step, r: nat)
    requires BufferAccount(s) && r < |s.renderers| && CloseStep(s, a, r).Some?
    ensures var t := CloseStep(s, a, r).value;
      BufferAccount(t) && t.initial == s.initial && t.start == s.start && |t.out| >= |s.out|
  {
  }

  lemma LineShows(base: Screen, shown: Screen, frame: seq<string>, drawn: seq<string>, line: string)
    requires AtLineStart(base) && FitsRow(line, base.width)
    requires shown == Splice(base, frame, drawn)
    ensures shown.Valid() && Interp(shown, LineOutput(line)) == Splice(base, frame, drawn + [line])
  {
    NextLineOnScreen(Picture(base, frame), drawn, line);
  }

  lemma UpShows(base: Screen, shown: Screen, frame: seq<string>, drawn: seq<string>)
    requires AtLineStart(base) && drawn != [] && |frame| <= |drawn|
    requires shown == Splice(base, frame, drawn)
    ensures shown.Valid() && Interp(shown, CursorUp(|drawn|)) == Picture(base, drawn)
  {
    CursorUpActs(shown, |drawn|);
    OverlayCovers(base.rows, base.row, frame, drawn);
  }

  lemma LowerShows(base: Screen, shown: Screen, frame: seq<string>, down: nat)
    requires AtLineStart(base) && shown == Picture(base, frame).(cursorShown := true)
    ensures Interp(shown, Newlines(down)) == Finished(base, frame, down)
  {
    NewlinesDescend(shown, down);
  }

  lemma NothingDrawnShows(base: Screen, frame: seq<string>)
    requires base.Valid()
    ensures Splice(base, frame, []) == Picture(base, frame)
  {
    OverlayNothing(Overlay(base.rows, base.row, frame), base.row);
  }

  lemma NoFrameShows(base: Screen)
    requires base.Valid()
    ensures Picture(base, []) == base
  {
    OverlayNothing(base.rows, base.row);
  }

  /** A step that writes nothing and leaves the renderer where it stands leaves the screen as described. */
  lemma QuietScreen(s: State, t: State)
    requires s.initial.Valid() && s.start <= |s.out| && OnScreen(s)
    requires t == s.(field := t.field, caller := t.caller, bar := t.bar, buf := t.buf, locked := t.locked,
                     panicked := t.panicked, written := t.written, updater := t.updater,
                     past := t.past, asked := t.asked)
    requires InSession(t) ==> InSession(s)
    requires Starting(s) == Starting(t)
    ensures OnScreen(t)
  {
  }

  lemma StartStepScreen(s: State, a: Step)
    requires Accounts(s) && OnScreen(s) && StartStep(s, a).Some? && Accounts(StartStep(s, a).value)
    ensures OnScreen(StartStep(s, a).value)
  {
    var t := StartStep(s, a).value;
    if a.Hide? {
      EmitShows(s, CURSOR_HIDE);
      assert t.out[..t.start] == s.out;
      if AtLineStart(Base(t)) {
        CursorModesAct(Shown(s));
      }
    } else {
      assert Shown(t) == Shown(s) && Base(t) == Base(s);
      NoFrameShows(Base(s).(cursorShown := false));
    }
  }

  lemma StopStepScreen(s: State, a: Step)
    requires Accounts(s) && OnScreen(s) && StopStep(s, a).Some?
    ensures OnScreen(StopStep(s, a).value)
  {
    QuietScreen(s, StopStep(s, a).value);
  }

  lemma FlushStepScreen(s: State, a: Step)
    requires Accounts(s) && OnScreen(s) && FlushStep(s, a).Some?
    ensures OnScreen(FlushStep(s, a).value)
  {
    var t := FlushStep(s, a).value;
    if a.EmitBuffer? {
      EmitShows(s, ERASE_LINE + s.buf);
      assert Shown(t) == Interp(Shown(s), FlushOutput(t.tail)) && Base(t) == Base(s);
    } else {
      QuietScreen(s, t);
    }
  }

  lemma UpdateStepScreen(s: State, a: Step)
    requires Accounts(s) && OnScreen(s) && UpdateStep(s, a).Some?
    ensures OnScreen(UpdateStep(s, a).value)
  {
    QuietScreen(s, UpdateStep(s, a).value);
  }

  lemma EnterSelectScreen(s: State, a: Step, r: nat)
    requires Accounts(s) && OnScreen(s) && a.EnterSelect?
    requires r < |s.renderers| && SelectStep(s, a, r).Some?
    ensures OnScreen(SelectStep(s, a, r).value)
  {
    var t := SelectStep(s, a, r).value;
    assert Shown(t) == Shown(s) && Base(t) == Base(s);
  }

  lemma BeginFrameScreen(s: State, a: Step, r: nat)
    requires Accounts(s) && OnScreen(s) && !a.EnterSelect?
    requires r < |s.renderers| && SelectStep(s, a, r).Some?
    ensures OnScreen(SelectStep(s, a, r).value)
  {
    var t := SelectStep(s, a, r).value;
    assert Shown(t) == Shown(s) && Base(t) == Base(s);
    NothingDrawnShows(Base(s).(cursorShown := false), s.frame);
  }

  lemma RangeScreen(s: State, a: Step, r: nat)
    requires Accounts(s) && OnScreen(s) && a.Range?
    requires r < |s.renderers| && PaintStep(s, a, r).Some?
    ensures OnScreen(PaintStep(s, a, r).value)
  {
    var t := PaintStep(s, a, r).value;
    assert r == |s.renderers| - 1 && t == At(s, r, Newest(t));
    assert Shown(t) == Shown(s) && Base(t) == Base(s);
    assert Newest(t).Painting? && Newest(t).drawn == Newest(s).drawn;
  }

  lemma UpStands(s: State, a: Step, r: nat)
    requires Accounts(s) && a.Up? && r < |s.renderers| && PaintStep(s, a, r).Some?
    ensures r == |s.renderers| - 1 && !Starting(s) && |s.frame| <= |s.renderers[r].drawn|
    ensures var t := PaintStep(s, a, r).value; var drawn := s.renderers[r].drawn;
      && drawn != [] && t == Emit(At(s, r, Newest(t)), CursorUp(|drawn|)).(frame := drawn, frameSeen := s.seen)
      && (Newest(t).Looping? || Newest(t).Repainted?)
  {
  }

  lemma UpScreen(s: State, a: Step, r: nat)
    requires Accounts(s) && OnScreen(s) && a.Up?
    requires r < |s.renderers| && PaintStep(s, a, r).Some?
    ensures OnScreen(PaintStep(s, a, r).value)
  {
    UpStands(s, a, r);
    var t := PaintStep(s, a, r).value;
    var drawn := s.renderers[r].drawn;
    EmitShows(s, CursorUp(|drawn|));
    assert Shown(t) == Interp(Shown(s), CursorUp(|drawn|)) && Base(t) == Base(s);
    if AtLineStart(Base(s)) {
      UpShows(Base(s).(cursorShown := false), Shown(s), s.frame, drawn);
    }
  }

  lemma DrawScreen(s: State, r: nat, line: string)
    requires Accounts(s) && OnScreen(s)
    requires r == |s.renderers| - 1 && s.renderers[r].Painting? && FitsRow(line, s.initial.width)
    ensures OnScreen(DrawLine(s, r, line))
  {
    var t := DrawLine(s, r, line);
    EmitShows(s, LineOutput(line));
    assert Shown(t) == Interp(Shown(s), LineOutput(line)) && Base(t) == Base(s);
    if AtLineStart(Base(s)) {
      LineShows(Base(s).(cursorShown := false), Shown(s), s.frame, s.renderers[r].drawn, line);
    }
  }

  lemma PaintStepScreen(s: State, a: Step, r: nat)
    requires Accounts(s) && OnScreen(s)
    requires r < |s.renderers| && PaintStep(s, a, r).Some?
    ensures OnScreen(PaintStep(s, a, r).value)
  {
    if a.Range? {
      RangeScreen(s, a, r);
    } else if a.Up? {
      UpScreen(s, a, r);
    } else if a.BarLine? {
      DrawScreen(s, r, s.style.level(LevelRead(s.past, |s.renderers[r].drawn| - 1, a.how), a.how.time));
    } else {
      var text := if a.Spinner? then s.style.spinner(s.bar.spinner, a.time) else s.style.message(s.bar.message, a.time);
      ShortenedLineFitsRow(text, s.initial.width);
      DrawScreen(s, r, ShortenedLine(text, s.initial.width));
    }
  }

  lemma ShowScreen(s: State, a: Step, r: nat)
    requires Accounts(s) && OnScreen(s) && a.Show?
    requires r < |s.renderers| && CloseStep(s, a, r).Some?
    ensures OnScreen(CloseStep(s, a, r).value)
  {
    var t := CloseStep(s, a, r).value;
    assert Newest(s) == Repainted && t == Emit(At(s, r, Revealed), CURSOR_SHOW).(shows := t.shows);
    EmitShows(s, CURSOR_SHOW);
    assert Shown(t) == Interp(Shown(s), CURSOR_SHOW) && Base(t) == Base(s);
    if AtLineStart(Base(s)) {
      CursorModesAct(Shown(s));
    }
  }

  lemma LowerScreen(s: State, a: Step, r: nat)
    requires Accounts(s) && OnScreen(s) && a.Lower?
    requires r < |s.renderers| && CloseStep(s, a, r).Some?
    ensures OnScreen(CloseStep(s, a, r).value)
  {
    var t := CloseStep(s, a, r).value;
    EmitShows(s, Newlines(2 + s.Levels()));
    assert Shown(t) == Interp(Shown(s), Newlines(2 + s.Levels())) && Base(t) == Base(s);
    if AtLineStart(Base(s)) {
      LowerShows(Base(s), Shown(s), s.frame, 2 + s.Levels());
    }
  }

  lemma CloseScreen(s: State, a: Step, r: nat)
    requires Accounts(s) && OnScreen(s) && a.Close?
    requires r < |s.renderers| && CloseStep(s, a, r).Some?
    ensures OnScreen(CloseStep(s, a, r).value)
  {
    var t := CloseStep(s, a, r).value;
    assert Shown(t) == Shown(s) && Base(t) == Base(s);
    assert FlushOutput(None) == "";
  }

  lemma SelectKeepsAccounts(s: State, a: Step, r: nat)
    requires Accounts(s) && r < |s.renderers| && SelectStep(s, a, r).Some?
    ensures Accounts(SelectStep(s, a, r).value)
  {
    SelectStepAccounts(s, a, r);
    SelectStepBuffers(s, a, r);
  }

  lemma PaintKeepsAccounts(s: State, a: Step, r: nat)
    requires Accounts(s) && r < |s.renderers| && PaintStep(s, a, r).Some?
    ensures Accounts(PaintStep(s, a, r).value)
  {
    PaintStepBuffers(s, a, r);
    if Draws(a) {
      DrawAccounts(s, a, r);
    } else {
      RangeAndUpAccounts(s, a, r);
    }
  }

  lemma CloseKeepsAccounts(s: State, a: Step, r: nat)
    requires Accounts(s) && r < |s.renderers| && CloseStep(s, a, r).Some?
    ensures Accounts(CloseStep(s, a, r).value)
  {
    CloseStepAccounts(s, a, r);
    CloseStepBuffers(s, a, r);
  }

  lemma RendererApplies(s: State, a: Step)
    requires ByRenderer(a) && Apply(s, a).Some?
    ensures a.r < |s.renderers|
    ensures Selects(a) ==> Apply(s, a) == SelectStep(s, a, a.r)
    ensures Closes(a) ==> Apply(s, a) == CloseStep(s, a, a.r)
    ensures Paints(a) ==> Apply(s, a) == PaintStep(s, a, a.r)
  {
    if Selects(a) {
    } else if Closes(a) {
    } else {
    }
  }

  lemma RendererStepAccounts(s: State, a: Step)
    requires Accounts(s) && ByRenderer(a) && Apply(s, a).Some?
    ensures Accounts(Apply(s, a).value)
  {
    RendererApplies(s, a);
    if Selects(a) {
      SelectKeepsAccounts(s, a, a.r);
    } else if Closes(a) {
      CloseKeepsAccounts(s, a, a.r);
    } else {
      PaintKeepsAccounts(s, a, a.r);
    }
  }

  lemma CallerStepAccounts(s: State, a: Step)
    requires Accounts(s) && InTime(s, a) && !ByRenderer(a) && Apply(s, a).Some?
    ensures Accounts(Apply(s, a).value)
  {
    CallerStepBuffers(s, a);
    if ByStart(a) {
      if a.BeginStart? || a.Hide? {
        HideAccounts(s, a);
      } else {
        MakeAccounts(s, a);
      }
    } else if ByFlush(a) {
      FlushStepAccounts(s, a);
    } else if ByAnyone(a) {
      UpdateStepAccounts(s, a);
    } else {
      StopStepAccounts(s, a);
    }
  }

  lemma StepAccounts(s: State, a: Step)
    requires Accounts(s) && InTime(s, a) && Apply(s, a).Some?
    ensures Accounts(Apply(s, a).value)
  {
    if ByRenderer(a) {
      RendererStepAccounts(s, a);
    } else {
      CallerStepAccounts(s, a);
    }
  }

  lemma StepScreen(s: State, a: Step)
    requires Accounts(s) && OnScreen(s) && Apply(s, a).Some? && Accounts(Apply(s, a).value)
    ensures OnScreen(Apply(s, a).value)
  {
    if ByStart(a) {
      StartStepScreen(s, a);
    } else if ByFlush(a) {
      FlushStepScreen(s, a);
    } else if ByAnyone(a) {
      UpdateStepScreen(s, a);
    } else if !ByRenderer(a) {
      StopStepScreen(s, a);
    } else if Selects(a) {
      if a.EnterSelect? {
        EnterSelectScreen(s, a, a.r);
      } else {
        BeginFrameScreen(s, a, a.r);
      }
    } else if Closes(a) {
      if a.Show? {
        ShowScreen(s, a, a.r);
      } else if a.Lower? {
        LowerScreen(s, a, a.r);
      } else {
        CloseScreen(s, a, a.r);
      }
    } else {
      PaintStepScreen(s, a, a.r);
    }
  }

  // ---- The content of the frames

  lemma {:induction false} RendersEach(style: Style, width: nat, past: seq<Content>, n: nat, seen: seq<nat>, lines: seq<string>, i: nat)
    requires Renders(style, width, past, n, seen, lines) && i < |lines|
    ensures seen[i] < |past| && RendersLine(style, width, past, n, i, LineBefore(seen, i), seen[i], lines[i])
    decreases |lines|
  {
    var last := |lines| - 1;
    if i == last {
    } else {
      RendersEach(style, width, past, n, seen[..last], lines[..last], i);
      assert LineBefore(seen[..last], i) == LineBefore(seen, i);
    }
  }

  lemma {:induction false} RendersGrows(style: Style, width: nat, past: seq<Content>, content: Content, n: nat, seen: seq<nat>, lines: seq<string>)
    requires Renders(style, width, past, n, seen, lines)
    ensures Renders(style, width, past + [content], n, seen, lines)
    decreases |lines|
  {
    if lines == [] {
    } else {
      var i := |lines| - 1;
      LineGrows(style, width, past, content, n, i, LineBefore(seen, i), seen[i], lines[i]);
      RendersGrows(style, width, past, content, n, seen[..i], lines[..i]);
    }
  }

  lemma {:induction false} RendersWithinPast(style: Style, width: nat, past: seq<Content>, n: nat, seen: seq<nat>, lines: seq<string>)
    requires Renders(style, width, past, n, seen, lines)
    ensures |seen| == |lines| && forall i :: 0 <= i < |seen| ==> seen[i] < |past|
  {
    forall i | 0 <= i < |seen| ensures seen[i] < |past| {
      RendersEach(style, width, past, n, seen, lines, i);
    }
  }

  lemma CountedGrows(past: seq<Content>, content: Content, seen: seq<nat>, n: nat)
    requires Counted(past, seen, n) && forall i :: 0 <= i < |seen| ==> seen[i] < |past|
    ensures Counted(past + [content], seen, n)
  {
  }

  lemma LineGrows(style: Style, width: nat, past: seq<Content>, content: Content,
                  n: nat, i: nat, from: nat, at: nat, line: string)
    requires at < |past| && RendersLine(style, width, past, n, i, from, at, line)
    ensures RendersLine(style, width, past + [content], n, i, from, at, line)
  {
    var how :| LineIs(style, width, past, n, i, from, at, how, line);
    assert LineIs(style, width, past + [content], n, i, from, at, how, line);
  }

  lemma FirstLineAnyCount(style: Style, width: nat, past: seq<Content>, n: nat, m: nat, at: nat, line: string)
    requires at < |past| && RendersLine(style, width, past, n, 0, 0, at, line)
    ensures RendersLine(style, width, past, m, 0, 0, at, line)
  {
    var how :| LineIs(style, width, past, n, 0, 0, at, how, line);
    assert LineIs(style, width, past, m, 0, 0, at, how, line);
  }

  ghost predicate SamePast(s: State, t: State) {
    t.style == s.style && t.initial == s.initial && t.past == s.past && t.bar == s.bar
  }

  lemma PastStays(s: State, t: State)
    requires PastAccount(s) && SamePast(s, t) && (t.asked == s.asked || t.asked == Now(s))
    ensures PastAccount(t)
  {
  }

  lemma FrameStays(s: State, t: State)
    requires FrameContent(s) && SamePast(s, t) && t.frame == s.frame && t.frameSeen == s.frameSeen
    requires PastFinal(t) ==> PastFinal(s) && t.asked == s.asked
    ensures FrameContent(t)
  {
  }

  lemma DrawnStays(s: State, t: State)
    requires DrawnContent(s) && SamePast(s, t) && t.seen == s.seen && Newest(t) == Newest(s)
    requires t.asked == s.asked || !Closing(Newest(s))
    ensures DrawnContent(t)
  {
  }

  lemma StartStepStands(s: State, a: Step)
    requires Protocol(s) && FrameAccount(s) && StartStep(s, a).Some?
    ensures var t := StartStep(s, a).value;
      && SamePast(s, t) && t.asked == s.asked && t.seen == s.seen
      && (t.frame == [] || (t.frame == s.frame && t.frameSeen == s.frameSeen && (PastFinal(t) ==> PastFinal(s))))
      && (Newest(t) == Newest(s) || Newest(t) == Looping)
  {
  }

  lemma StartStepContent(s: State, a: Step)
    requires Protocol(s) && FrameAccount(s) && ContentAccount(s) && StartStep(s, a).Some?
    ensures ContentAccount(StartStep(s, a).value)
  {
    StartStepStands(s, a);
    PastStays(s, StartStep(s, a).value);
    var t := StartStep(s, a).value;
    if t.frame != [] {
      FrameStays(s, t);
    }
    if Newest(t).Painting? {
      DrawnStays(s, t);
    }
  }

  lemma StopStepStands(s: State, a: Step)
    requires Protocol(s) && StopStep(s, a).Some?
    ensures var t := StopStep(s, a).value;
      && t == s.(field := t.field, caller := t.caller, asked := t.asked, panicked := t.panicked)
      && !Starting(s) && !Starting(t)
      && (t.asked == s.asked || (Live(s) && !Closing(Newest(s)) && t.asked == Now(s)))
  {
  }

  lemma StopStepContent(s: State, a: Step)
    requires Protocol(s) && ContentAccount(s) && StopStep(s, a).Some?
    ensures ContentAccount(StopStep(s, a).value)
  {
    StopStepStands(s, a);
    PastStays(s, StopStep(s, a).value);
    var t := StopStep(s, a).value;
    FrameStays(s, t);
    DrawnStays(s, t);
  }

  lemma FlushStepStands(s: State, a: Step)
    requires FlushStep(s, a).Some?
    ensures var t := FlushStep(s, a).value;
      && SamePast(s, t) && t.asked == s.asked && t.seen == s.seen && t.frame == s.frame && t.frameSeen == s.frameSeen
      && t.renderers == s.renderers && !Starting(s) && !Starting(t)
  {
  }

  lemma FlushStepContent(s: State, a: Step)
    requires ContentAccount(s) && FlushStep(s, a).Some?
    ensures ContentAccount(FlushStep(s, a).value)
  {
    FlushStepStands(s, a);
    PastStays(s, FlushStep(s, a).value);
    var t := FlushStep(s, a).value;
    FrameStays(s, t);
    DrawnStays(s, t);
  }

  /** A setter leaves the lines already drawn as renderings of the past. */
  lemma MoreContent(s: State, t: State, content: Content)
    requires ContentAccount(s) && |content.levels| >= s.Levels()
    requires t == WithContent(s, content).(updater := t.updater)
    ensures ContentAccount(t)
  {
    PastGrows(s, t, content);
    DrawnGrows(s, t, content);
    FrameGrows(s, t, content);
  }

  lemma PastGrows(s: State, t: State, content: Content)
    requires PastAccount(s) && |content.levels| >= s.Levels() && t == WithContent(s, content).(updater := t.updater)
    ensures PastAccount(t)
  {
  }

  lemma LinesGrow(style: Style, width: nat, past: seq<Content>, content: Content, since: nat, bars: Option<nat>,
                  seen: seq<nat>, drawn: seq<string>)
    requires DrawnSince(style, width, past, since, bars, seen, drawn)
    ensures DrawnSince(style, width, past + [content], since, bars, seen, drawn)
  {
    RendersGrows(style, width, past, content, bars.GetOr(0), seen, drawn);
    RendersWithinPast(style, width, past, bars.GetOr(0), seen, drawn);
    if bars.Some? {
      CountedGrows(past, content, seen, bars.value);
    }
  }

  lemma DrawnGrows(s: State, t: State, content: Content)
    requires DrawnContent(s) && t == WithContent(s, content).(updater := t.updater)
    ensures DrawnContent(t)
  {
    assert Newest(t) == Newest(s) && Since(t) == Since(s);
    if Newest(s).Painting? {
      LinesGrow(s.style, s.initial.width, s.past, content, Since(s), Newest(s).bars, s.seen, Newest(s).drawn);
    }
  }

  lemma FrameGrows(s: State, t: State, content: Content)
    requires FrameContent(s) && t == WithContent(s, content).(updater := t.updater)
    ensures FrameContent(t)
  {
    assert PastFinal(t) == PastFinal(s);
    if s.frame != [] {
      LinesGrow(s.style, s.initial.width, s.past, content, if PastFinal(s) then s.asked else 0, Some(|s.frame| - 2), s.frameSeen, s.frame);
    }
  }

  lemma UpdateStepStands(s: State, a: Step)
    requires UpdateStep(s, a).Some?
    ensures var t := UpdateStep(s, a).value;
      || t == s.(buf := t.buf, written := t.written)
      || (t == WithContent(s, t.bar).(updater := t.updater) && t.Levels() >= s.Levels())
  {
  }

  lemma UpdateStepContent(s: State, a: Step)
    requires ContentAccount(s) && UpdateStep(s, a).Some?
    ensures ContentAccount(UpdateStep(s, a).value)
  {
    UpdateStepStands(s, a);
    var t := UpdateStep(s, a).value;
    if t.past != s.past {
      MoreContent(s, t, t.bar);
    } else {
      DrawnStays(s, t);
      FrameStays(s, t);
    }
  }

  lemma SelectStands(s: State, a: Step, r: nat)
    requires Protocol(s) && r < |s.renderers| && SelectStep(s, a, r).Some?
    ensures var t := SelectStep(s, a, r).value;
      && SamePast(s, t) && t.asked == s.asked && t.frame == s.frame && t.frameSeen == s.frameSeen && !PastFinal(t)
      && (Newest(t).Painting? ==> Newest(t).drawn == [] && Newest(t).bars.None? && t.seen == [])
  {
    assert r == |s.renderers| - 1;
  }

  lemma SelectStepContent(s: State, a: Step, r: nat)
    requires Protocol(s) && ContentAccount(s) && r < |s.renderers| && SelectStep(s, a, r).Some?
    ensures ContentAccount(SelectStep(s, a, r).value)
  {
    SelectStands(s, a, r);
    var t := SelectStep(s, a, r).value;
    PastStays(s, t);
    FrameStays(s, t);
    NothingDrawnYet(t);
  }

  lemma NothingDrawnYet(t: State)
    requires Newest(t).Painting? ==> Newest(t).drawn == [] && Newest(t).bars.None? && t.seen == []
    ensures DrawnContent(t)
  {
  }

  lemma LineDrawn(s: State, a: Step, r: nat) returns (line: string)
    requires Protocol(s) && FrameAccount(s) && r == |s.renderers| - 1
    requires PaintStep(s, a, r).Some? && Draws(a)
    ensures PaintStep(s, a, r).value == DrawLine(s, r, line)
    ensures s.renderers[r].drawn != [] ==> s.renderers[r].bars.Some?
    ensures PastAccount(s) ==>
      var Painting(_, drawn, bars) := s.renderers[r];
      RendersLine(s.style, s.initial.width, s.past, bars.GetOr(0), |drawn|, Looked(s), Now(s), line)
  {
    var Painting(_, drawn, bars) := s.renderers[r];
    line := if a.Spinner? then ShortenedLine(s.style.spinner(s.bar.spinner, a.time), s.initial.width)
            else if a.BarLine? then s.style.level(LevelRead(s.past, |drawn| - 1, a.how), a.how.time)
            else ShortenedLine(s.style.message(s.bar.message, a.time), s.initial.width);
    if PastAccount(s) {
      var how := if a.BarLine? then a.how else Reading(0, 0, 0, a.time);
      assert LineIs(s.style, s.initial.width, s.past, bars.GetOr(0), |drawn|, Looked(s), Now(s), how, line);
    }
  }

  lemma RendersMore(style: Style, width: nat, past: seq<Content>, n: nat, seen: seq<nat>, lines: seq<string>, line: string)
    requires past != [] && Renders(style, width, past, n, seen, lines)
    requires RendersLine(style, width, past, n, |lines|, LineBefore(seen, |seen|), |past| - 1, line)
    ensures Renders(style, width, past, n, seen + [|past| - 1], lines + [line])
  {
    var k := |lines|;
    var seen', lines' := seen + [|past| - 1], lines + [line];
    assert seen'[..k] == seen && lines'[..k] == lines && LineBefore(seen', k) == LineBefore(seen, k);
  }

  lemma OneMoreDrawn(style: Style, width: nat, past: seq<Content>, since: nat, bars: Option<nat>,
                     seen: seq<nat>, drawn: seq<string>, line: string)
    requires past != [] && since < |past| && DrawnSince(style, width, past, since, bars, seen, drawn)
    requires RendersLine(style, width, past, bars.GetOr(0), |drawn|, LineBefore(seen, |seen|), |past| - 1, line)
    requires bars.Some? ==> drawn != [] && bars.value <= |past[|past| - 1].levels|
    ensures DrawnSince(style, width, past, since, bars, seen + [|past| - 1], drawn + [line])
  {
    RendersMore(style, width, past, bars.GetOr(0), seen, drawn, line);
    RendersWithinPast(style, width, past, bars.GetOr(0), seen, drawn);
  }

  lemma DrawContent(s: State, r: nat, line: string)
    requires ContentAccount(s) && FrameAccount(s) && !Starting(s)
    requires r == |s.renderers| - 1 && s.renderers[r].Painting?
    requires var Painting(_, drawn, bars) := s.renderers[r];
      && RendersLine(s.style, s.initial.width, s.past, bars.GetOr(0), |drawn|, Looked(s), Now(s), line)
      && (drawn != [] ==> bars.Some?)
    ensures ContentAccount(DrawLine(s, r, line))
  {
    var t := DrawLine(s, r, line);
    assert PastAccount(t) && SamePast(s, t);
    DrawnContentGrows(s, r, line);
    FrameStays(s, t);
  }

  lemma DrawnContentGrows(s: State, r: nat, line: string)
    requires PastAccount(s) && DrawnContent(s) && LinesCounted(s, Newest(s))
    requires r == |s.renderers| - 1 && s.renderers[r].Painting?
    requires var Painting(_, drawn, bars) := s.renderers[r];
      && RendersLine(s.style, s.initial.width, s.past, bars.GetOr(0), |drawn|, Looked(s), Now(s), line)
      && (drawn != [] ==> bars.Some?)
    ensures DrawnContent(DrawLine(s, r, line))
  {
    var t := DrawLine(s, r, line);
    var Painting(final, drawn, bars) := s.renderers[r];
    assert Looked(s) == LineBefore(s.seen, |s.seen|);
    assert Newest(t) == Painting(final, drawn + [line], bars) && Since(t) == Since(s);
    assert t.seen == s.seen + [|s.past| - 1] && SamePast(s, t);
    OneMoreDrawn(s.style, s.initial.width, s.past, Since(s), bars, s.seen, drawn, line);
  }

  lemma LinesCountedBy(style: Style, width: nat, past: seq<Content>, since: nat, seen: seq<nat>, drawn: seq<string>, n: nat)
    requires DrawnSince(style, width, past, since, None, seen, drawn) && |drawn| == 1
    requires seen[0] < |past| ==> |past[seen[0]].levels| <= n
    ensures DrawnSince(style, width, past, since, Some(n), seen, drawn)
  {
    assert LineBefore(seen, 0) == 0 && seen[..0] == [] && drawn[..0] == [];
    FirstLineAnyCount(style, width, past, 0, n, seen[0], drawn[0]);
    assert Renders(style, width, past, n, [], []);
  }

  lemma RangeStands(s: State, a: Step, r: nat)
    requires Protocol(s) && FrameAccount(s) && r == |s.renderers| - 1
    requires PaintStep(s, a, r).Some? && a.Range?
    ensures var t := PaintStep(s, a, r).value;
      && t == At(s, r, Newest(s).(bars := Some(s.Levels()))) && Newest(t) == Newest(s).(bars := Some(s.Levels()))
      && |Newest(s).drawn| == 1 && Newest(s).bars.None? && PastFinal(s) == PastFinal(t) == false
  {
  }

  lemma RangeContent(s: State, a: Step, r: nat)
    requires Protocol(s) && FrameAccount(s) && ContentAccount(s) && r == |s.renderers| - 1
    requires PaintStep(s, a, r).Some? && a.Range?
    ensures ContentAccount(PaintStep(s, a, r).value)
  {
    RangeStands(s, a, r);
    var t := PaintStep(s, a, r).value;
    FrameStays(s, t);
    LinesCountedBy(s.style, s.initial.width, s.past, Since(s), s.seen, Newest(s).drawn, s.Levels());
  }

  lemma UpMoves(s: State, a: Step, r: nat)
    requires Protocol(s) && FrameAccount(s) && r == |s.renderers| - 1
    requires PaintStep(s, a, r).Some? && a.Up?
    ensures var t := PaintStep(s, a, r).value; var Painting(final, drawn, bars) := Newest(s);
      && SamePast(s, t) && t.asked == s.asked && t.frame == drawn && t.frameSeen == s.seen
      && bars == Some(|drawn| - 2) && 2 <= |drawn| && PastFinal(t) == final && !Newest(t).Painting?
  {
  }

  lemma UpContent(s: State, a: Step, r: nat)
    requires Protocol(s) && FrameAccount(s) && ContentAccount(s) && r == |s.renderers| - 1
    requires PaintStep(s, a, r).Some? && a.Up?
    ensures ContentAccount(PaintStep(s, a, r).value)
  {
    UpMoves(s, a, r);
    assert Since(s) == if PastFinal(PaintStep(s, a, r).value) then s.asked else 0;
  }

  lemma PaintStepContent(s: State, a: Step, r: nat)
    requires Protocol(s) && FrameAccount(s) && ContentAccount(s) && r < |s.renderers| && PaintStep(s, a, r).Some?
    ensures ContentAccount(PaintStep(s, a, r).value)
  {
    assert r == |s.renderers| - 1;
    if a.Range? {
      RangeContent(s, a, r);
    } else if a.Up? {
      UpContent(s, a, r);
    } else {
      var line := LineDrawn(s, a, r);
      DrawContent(s, r, line);
    }
  }

  lemma CloseStepStands(s: State, a: Step, r: nat)
    requires Protocol(s) && r < |s.renderers| && CloseStep(s, a, r).Some?
    ensures var t := CloseStep(s, a, r).value;
      && SamePast(s, t) && t.frame == s.frame && t.frameSeen == s.frameSeen && t.asked == s.asked
      && PastFinal(s) && PastFinal(t)
  {
    assert !s.renderers[r].Exited?;
  }

  lemma CloseStepContent(s: State, a: Step, r: nat)
    requires Protocol(s) && ContentAccount(s) && r < |s.renderers| && CloseStep(s, a, r).Some?
    ensures ContentAccount(CloseStep(s, a, r).value)
  {
    CloseStepStands(s, a, r);
    PastStays(s, CloseStep(s, a, r).value);
    FrameStays(s, CloseStep(s, a, r).value);
  }

  lemma StepContent(s: State, a: Step)
    requires Accounts(s) && ContentAccount(s) && Apply(s, a).Some?
    ensures ContentAccount(Apply(s, a).value)
  {
    if ByStart(a) {
      StartStepContent(s, a);
    } else if ByFlush(a) {
      FlushStepContent(s, a);
    } else if ByAnyone(a) {
      UpdateStepContent(s, a);
    } else if !ByRenderer(a) {
      StopStepContent(s, a);
    } else if Selects(a) {
      SelectStepContent(s, a, a.r);
    } else if Closes(a) {
      CloseStepContent(s, a, a.r);
    } else {
      PaintStepContent(s, a, a.r);
    }
  }

  lemma StepLevels(s: State, a: Step)
    requires LevelAccount(s) && Apply(s, a).Some?
    ensures LevelAccount(Apply(s, a).value)
  {
    if a.SetProgress? || a.StoreField? {
      UpdateStepLevels(s, a);
    } else {
      OtherStepLevels(s, a);
    }
  }

  lemma OtherStepLevels(s: State, a: Step)
    requires Apply(s, a).Some? && !a.SetProgress? && !a.StoreField?
    ensures var t := Apply(s, a).value; t.updater.Some? ==> t.updater == s.updater && t.bar.levels == s.bar.levels
  {
    if ByAnyone(a) {
      assert Apply(s, a) == UpdateStep(s, a);
    } else if ByRenderer(a) {
      RendererApplies(s, a);
    }
  }

  lemma UpdateStepLevels(s: State, a: Step)
    requires LevelAccount(s) && UpdateStep(s, a).Some? && (a.SetProgress? || a.StoreField?)
    ensures LevelAccount(UpdateStep(s, a).value)
  {
  }

  lemma StepKeeps(s: State, a: Step)
    requires Inv(s) && InTime(s, a) && Apply(s, a).Some?
    ensures Inv(Apply(s, a).value)
  {
    StepAccounts(s, a);
    StepLevels(s, a);
    StepContent(s, a);
    StepScreen(s, a);
  }

  /** The invariant holds throughout every run. */
  lemma {:induction false} RunKeeps(s: State, steps: seq<Step>)
    requires Inv(s) && Run(s, steps).Some?
    ensures Inv(Run(s, steps).value)
    decreases |steps|
  {
    if steps == [] {
    } else {
      StepKeeps(s, steps[0]);
      RunKeeps(Apply(s, steps[0]).value, steps[1..]);
    }
  }

  lemma Reachable(s: State, steps: seq<Step>)
    requires Initial(s) && Run(s, steps).Some?
    ensures Inv(Run(s, steps).value)
  {
    assert Inv(s);
    RunKeeps(s, steps);
  }

  lemma {:induction false} RunConcat(s: State, a: seq<Step>, b: seq<Step>)
    ensures Run(s, a + b) == if Run(s, a).Some? then Run(Run(s, a).value, b) else None
    decreases |a|
  {
    if a == [] {
      assert a + b == b;
    } else {
      assert (a + b)[0] == a[0] && (a + b)[1..] == a[1..] + b;
      if InTime(s, a[0]) && Apply(s, a[0]).Some? {
        RunConcat(Apply(s, a[0]).value, a[1..], b);
      }
    }
  }

  lemma RunOne(s: State, a: Step)
    ensures Run(s, [a]) == if InTime(s, a) then Apply(s, a) else None
  {
    assert [a][1..] == [];
    if Apply(s, a).Some? {
      assert Run(Apply(s, a).value, []) == Apply(s, a);
    }
  }

  lemma PastIsAppended(s: State, a: Step)
    requires Apply(s, a).Some?
    ensures var t := Apply(s, a).value; s.past <= t.past && |t.past| <= |s.past| + 1
  {
  }

  lemma OnlyUpdatesLevels(s: State, a: Step)
    requires Apply(s, a).Some? && s.updater.None? && !a.SetProgress?
    ensures Apply(s, a).value.bar.levels == s.bar.levels
  {
    if ByAnyone(a) {
      assert Apply(s, a) == UpdateStep(s, a);
    } else {
      OthersSetNothing(s, a);
    }
  }

  lemma OthersSetNothing(s: State, a: Step)
    requires Apply(s, a).Some? && !ByAnyone(a)
    ensures var t := Apply(s, a).value; t.bar == s.bar && t.written == s.written
  {
    if ByRenderer(a) {
      RendererApplies(s, a);
    }
  }
}
