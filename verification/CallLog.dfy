/** The mock command of the tests: its script records the arguments of each call, and CallArgsList reads the record. */
module CallLog {
  import opened Text

  const NUL: char := '\0'

  /** The text a script passes to "echo -e" to record an argument. */
  function Escaped(arg: string): string {
    arg + "\\x0"
  }

  /** An interpretation of "echo -e -n": text without backslashes stays as it is, and the escape at the end is a NUL. */
  ghost predicate EchoesPlainText(echo: string -> string) {
    forall arg: string :: '\\' !in arg ==> echo(Escaped(arg)) == arg + [NUL]
  }

  predicate NoBackslash(calls: seq<seq<string>>) {
    forall i, j :: 0 <= i < |calls| && 0 <= j < |calls[i]| ==> '\\' !in calls[i][j]
  }

  function ArgsRecord(args: seq<string>, echo: string -> string): string {
    if args == [] then "" else echo(Escaped(args[0])) + ArgsRecord(args[1..], echo)
  }

  function CallRecord(args: seq<string>, echo: string -> string): string {
    ArgsRecord(args, echo) + "\n"
  }

  function Record(calls: seq<seq<string>>, echo: string -> string): string {
    if calls == [] then "" else CallRecord(calls[0], echo) + Record(calls[1..], echo)
  }

  class MockCmd {
    var run: string

    constructor ()
      ensures run == ""
    {
      run := "";
    }

    /** The script, for one call. */
    method Call(args: seq<string>, echo: string -> string)
      modifies this
      ensures run == old(run) + CallRecord(args, echo)
    {
      for i := 0 to |args|
        invariant run + ArgsRecord(args[i..], echo) == old(run) + ArgsRecord(args, echo)
      {
        assert run + (echo(Escaped(args[i])) + ArgsRecord(args[i + 1..], echo))
          == run + echo(Escaped(args[i])) + ArgsRecord(args[i + 1..], echo);
        assert args[i..][1..] == args[i + 1..];
        run := run + echo(Escaped(args[i]));
      }
      assert args[|args|..] == [] && run + "" == run;
      run := run + "\n";
    }
  }

  function CallOf(line: string): seq<string> {
    var parts := Split(line, NUL);
    parts[..|parts| - 1]
  }

  function CallsOf(lines: seq<string>): seq<seq<string>> {
    if lines == [] then [] else (if lines[0] == "" then [] else [CallOf(lines[0])]) + CallsOf(lines[1..])
  }

  method CallArgsList(log: string) returns (callArgsList: seq<seq<string>>)
    ensures callArgsList == CallsOf(Split(log, '\n'))
  {
    callArgsList := [];
    var lines := Split(log, '\n');
    for i := 0 to |lines|
      invariant callArgsList + CallsOf(lines[i..]) == CallsOf(lines)
    {
      assert lines[i..][1..] == lines[i + 1..];
      if lines[i] == "" {
        continue;
      }
      var call := Split(lines[i], NUL);
      callArgsList := callArgsList + [call[..|call| - 1]];
    }
    assert lines[|lines|..] == [];
  }

  // ---- Round trip

  function NonEmpty(calls: seq<seq<string>>): seq<seq<string>> {
    if calls == [] then [] else (if calls[0] == [] then [] else [calls[0]]) + NonEmpty(calls[1..])
  }

  predicate SingleLineArg(arg: string) {
    '\n' !in arg && NUL !in arg
  }

  predicate SingleLineArgs(args: seq<string>) {
    forall i :: 0 <= i < |args| ==> SingleLineArg(args[i])
  }

  predicate SingleLine(calls: seq<seq<string>>) {
    calls == [] || (SingleLineArgs(calls[0]) && SingleLine(calls[1..]))
  }

  lemma {:induction false} ArgsComeBack(args: seq<string>, echo: string -> string)
    requires EchoesPlainText(echo) && SingleLineArgs(args) && forall i :: 0 <= i < |args| ==> '\\' !in args[i]
    ensures Split(ArgsRecord(args, echo), NUL) == args + [""]
    ensures '\n' !in ArgsRecord(args, echo) && (args != [] ==> ArgsRecord(args, echo) != "")
    decreases |args|
  {
    if args == [] {
    } else {
      ArgsComeBack(args[1..], echo);
      assert SingleLineArg(args[0]);
      SplitFirst(args[0], ArgsRecord(args[1..], echo), NUL);
      assert args == [args[0]] + args[1..];
    }
  }

  lemma {:induction false} CallsComeBack(calls: seq<seq<string>>, echo: string -> string)
    requires EchoesPlainText(echo) && NoBackslash(calls) && SingleLine(calls)
    ensures CallsOf(Split(Record(calls, echo), '\n')) == NonEmpty(calls)
    decreases |calls|
  {
    if calls == [] {
      assert Split("", '\n') == [""] && [""][1..] == [];
    } else {
      var line := ArgsRecord(calls[0], echo);
      assert SingleLineArgs(calls[0]);
      ArgsComeBack(calls[0], echo);
      assert Record(calls, echo) == line + ['\n'] + Record(calls[1..], echo);
      SplitFirst(line, Record(calls[1..], echo), '\n');
      CallsComeBack(calls[1..], echo);
      var lines := Split(Record(calls[1..], echo), '\n');
      assert ([line] + lines)[1..] == lines;
      assert (calls[0] + [""])[..|calls[0]|] == calls[0];
    }
  }

  /** Whatever is read back is free of newlines and NULs. */
  lemma {:induction false} ReadCallsAreSingleLine(lines: seq<string>)
    requires forall i :: 0 <= i < |lines| ==> '\n' !in lines[i]
    ensures SingleLine(CallsOf(lines))
    decreases |lines|
  {
    if lines == [] {
    } else {
      ReadCallsAreSingleLine(lines[1..]);
      var rest := CallsOf(lines[1..]);
      assert ([CallOf(lines[0])] + rest)[1..] == rest && [] + rest == rest;
      PartsAreFree(lines[0], NUL);
      forall j | 0 <= j < |CallOf(lines[0])| ensures SingleLineArg(CallOf(lines[0])[j]) {
        assert CallOf(lines[0])[j] in Split(lines[0], NUL);
      }
    }
  }

  lemma {:induction false} SingleLineIffNonEmptyIs(calls: seq<seq<string>>)
    ensures SingleLine(calls) <==> SingleLine(NonEmpty(calls))
    decreases |calls|
  {
    if calls == [] {
    } else {
      SingleLineIffNonEmptyIs(calls[1..]);
      var rest := NonEmpty(calls[1..]);
      assert ([calls[0]] + rest)[1..] == rest && [] + rest == rest;
    }
  }

  /** Reading the record gives exactly the calls that had arguments, in order, with empty arguments kept, if and only if
      no argument holds a newline or a NUL. */
  lemma RoundTripIff(calls: seq<seq<string>>, echo: string -> string)
    requires EchoesPlainText(echo) && NoBackslash(calls)
    ensures CallsOf(Split(Record(calls, echo), '\n')) == NonEmpty(calls) <==> SingleLine(calls)
    ensures SingleLine(calls) && (forall i :: 0 <= i < |calls| ==> calls[i] != []) ==>
      CallsOf(Split(Record(calls, echo), '\n')) == calls
  {
    if SingleLine(calls) {
      CallsComeBack(calls, echo);
    }
    var lines := Split(Record(calls, echo), '\n');
    PartsAreFree(Record(calls, echo), '\n');
    forall i | 0 <= i < |lines| ensures '\n' !in lines[i] {
      assert lines[i] in lines;
    }
    ReadCallsAreSingleLine(lines);
    SingleLineIffNonEmptyIs(calls);
    NonEmptyKeepsCalls(calls);
  }

  /** Of the calls those without arguments are left out and the others keep their order. */
  lemma {:induction false} EmptyCallIsLeftOut(a: seq<seq<string>>, call: seq<string>, b: seq<seq<string>>)
    ensures NonEmpty(a + [call] + b) == NonEmpty(a) + (if call == [] then [] else [call]) + NonEmpty(b)
    decreases |a|
  {
    var all := a + [call] + b;
    if a == [] {
      assert all[0] == call && all[1..] == b;
    } else {
      assert all[0] == a[0] && all[1..] == a[1..] + [call] + b;
      EmptyCallIsLeftOut(a[1..], call, b);
    }
  }

  lemma {:induction false} NonEmptyKeepsCalls(calls: seq<seq<string>>)
    ensures (forall i :: 0 <= i < |calls| ==> calls[i] != []) ==> NonEmpty(calls) == calls
    decreases |calls|
  {
    if calls == [] {
    } else {
      NonEmptyKeepsCalls(calls[1..]);
      assert calls == [calls[0]] + calls[1..];
    }
  }
}
