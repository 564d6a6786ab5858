/** The argument vector of osbuild, and a left-to-right option parser that reads it back. */
module CommandLine {
  import opened Decimal
  import opened Wrappers

  datatype Options = Options(storeDir: string, outputDir: string, inVm: seq<string>, cacheMaxSize: int)

  const GIB: int := 1024 * 1024 * 1024

  function EffectiveCacheSize(opts: Options): int {
    if opts.cacheMaxSize != 0 then opts.cacheMaxSize else 20 * GIB
  }

  function ShowInt(n: int): string {
    if n < 0 then "-" + Print(-n) else Print(n)
  }

  function ReadInt(s: string): Option<int> {
    if s != "" && AllDigits(s) then Some(Value(s) as int)
    else if |s| > 1 && s[0] == '-' && AllDigits(s[1..]) then Some(-(Value(s[1..]) as int))
    else None
  }

  lemma ReadShownInt(n: int)
    ensures ReadInt(ShowInt(n)) == Some(n)
  {
    if n < 0 {
      ValueOfPrint(-n);
      assert ShowInt(n)[1..] == Print(-n);
    } else {
      ValueOfPrint(n);
    }
  }

  /** Each value behind its own copy of the option. */
  function Flagged(option: string, values: seq<string>): seq<string> {
    if values == [] then [] else [option, values[0]] + Flagged(option, values[1..])
  }

  const CACHE_OPTION: string := "--cache-max-size="

  const MONITOR: seq<string> := ["--monitor=JSONSeqMonitor", "--monitor-fd=3"]

  function ArgVector(exports: seq<string>, opts: Options): seq<string> {
    ["osbuild", "--store", opts.storeDir, "--output-directory", opts.outputDir,
     CACHE_OPTION + ShowInt(EffectiveCacheSize(opts)), "-"]
    + Flagged("--export", exports) + Flagged("--in-vm", opts.inVm)
  }

  lemma {:induction false} FlaggedAppend(option: string, values: seq<string>, more: seq<string>)
    ensures Flagged(option, values + more) == Flagged(option, values) + Flagged(option, more)
    decreases |values|
  {
    if values == [] {
      assert values + more == more;
    } else {
      assert (values + more)[1..] == values[1..] + more;
      FlaggedAppend(option, values[1..], more);
    }
  }

  lemma FlaggedOne(option: string, values: seq<string>, i: nat)
    requires i < |values|
    ensures Flagged(option, values[..i + 1]) == Flagged(option, values[..i]) + [option, values[i]]
  {
    assert values[..i + 1] == values[..i] + [values[i]];
    FlaggedAppend(option, values[..i], [values[i]]);
    assert [values[i]][1..] == [];
  }

  /** The command as it is built; the monitor options are those of a run with progress. */
  method NewOsbuildCmd(exports: seq<string>, opts: Options, monitored: bool) returns (args: seq<string>)
    ensures args == ArgVector(exports, opts) + if monitored then MONITOR else []
    ensures var size := if opts.cacheMaxSize != 0 then opts.cacheMaxSize else 20 * 1024 * 1024 * 1024;
      args[..7] == ["osbuild", "--store", opts.storeDir, "--output-directory", opts.outputDir,
                    "--cache-max-size=" + ShowInt(size), "-"]
    ensures |args| == 7 + 2 * |exports| + 2 * |opts.inVm| + if monitored then 2 else 0
    ensures forall i :: 0 <= i < |exports| ==> args[7 + 2 * i] == "--export" && args[7 + 2 * i + 1] == exports[i]
    ensures forall i :: 0 <= i < |opts.inVm| ==>
      args[7 + 2 * |exports| + 2 * i] == "--in-vm" && args[7 + 2 * |exports| + 2 * i + 1] == opts.inVm[i]
    ensures monitored ==> args[|args| - 2..] == ["--monitor=JSONSeqMonitor", "--monitor-fd=3"]
  {
    var cacheMaxSize := 20 * GIB;
    if opts.cacheMaxSize != 0 {
      cacheMaxSize := opts.cacheMaxSize;
    }
    args := ["osbuild", "--store", opts.storeDir, "--output-directory", opts.outputDir,
             CACHE_OPTION + ShowInt(cacheMaxSize), "-"];
    ghost var fixed := args;
    for i := 0 to |exports|
      invariant args == fixed + Flagged("--export", exports[..i])
    {
      FlaggedOne("--export", exports, i);
      args := args + ["--export", exports[i]];
    }
    assert exports[..|exports|] == exports;
    ghost var exported := args;
    for i := 0 to |opts.inVm|
      invariant args == exported + Flagged("--in-vm", opts.inVm[..i])
    {
      FlaggedOne("--in-vm", opts.inVm, i);
      args := args + ["--in-vm", opts.inVm[i]];
    }
    assert opts.inVm[..|opts.inVm|] == opts.inVm;
    if monitored {
      args := args + ["--monitor=JSONSeqMonitor"];
      args := args + ["--monitor-fd=3"];
    }
    ArgVectorSpelled(exports, opts, monitored);
  }

  lemma {:induction false} FlaggedAt(option: string, values: seq<string>, i: nat)
    requires i < |values|
    ensures |Flagged(option, values)| == 2 * |values|
    ensures Flagged(option, values)[2 * i] == option && Flagged(option, values)[2 * i + 1] == values[i]
    decreases |values|
  {
    FlaggedLength(option, values);
    if i == 0 {
    } else {
      FlaggedAt(option, values[1..], i - 1);
      assert Flagged(option, values)[2 * i] == Flagged(option, values[1..])[2 * (i - 1)];
      assert Flagged(option, values)[2 * i + 1] == Flagged(option, values[1..])[2 * (i - 1) + 1];
    }
  }

  lemma {:induction false} FlaggedLength(option: string, values: seq<string>)
    ensures |Flagged(option, values)| == 2 * |values|
    decreases |values|
  {
    if values == [] {
    } else {
      FlaggedLength(option, values[1..]);
    }
  }

  lemma ArgVectorSpelled(exports: seq<string>, opts: Options, monitored: bool)
    ensures var args := ArgVector(exports, opts) + if monitored then MONITOR else [];
      var size := if opts.cacheMaxSize != 0 then opts.cacheMaxSize else 20 * 1024 * 1024 * 1024;
      && |args| == 7 + 2 * |exports| + 2 * |opts.inVm| + (if monitored then 2 else 0)
      && args[..7] == ["osbuild", "--store", opts.storeDir, "--output-directory", opts.outputDir,
                       "--cache-max-size=" + ShowInt(size), "-"]
      && (forall i :: 0 <= i < |exports| ==> args[7 + 2 * i] == "--export" && args[7 + 2 * i + 1] == exports[i])
      && (forall i :: 0 <= i < |opts.inVm| ==>
          args[7 + 2 * |exports| + 2 * i] == "--in-vm" && args[7 + 2 * |exports| + 2 * i + 1] == opts.inVm[i])
      && (monitored ==> args[|args| - 2..] == ["--monitor=JSONSeqMonitor", "--monitor-fd=3"])
  {
    FlaggedLength("--export", exports);
    FlaggedLength("--in-vm", opts.inVm);
    var size := if opts.cacheMaxSize != 0 then opts.cacheMaxSize else 20 * 1024 * 1024 * 1024;
    var head := ["osbuild", "--store", opts.storeDir, "--output-directory", opts.outputDir,
                 "--cache-max-size=" + ShowInt(size), "-"];
    var last := if monitored then MONITOR else [];
    forall i | 0 <= i < |exports|
      ensures Flagged("--export", exports)[2 * i] == "--export" && Flagged("--export", exports)[2 * i + 1] == exports[i]
    {
      FlaggedAt("--export", exports, i);
    }
    forall i | 0 <= i < |opts.inVm|
      ensures Flagged("--in-vm", opts.inVm)[2 * i] == "--in-vm" && Flagged("--in-vm", opts.inVm)[2 * i + 1] == opts.inVm[i]
    {
      FlaggedAt("--in-vm", opts.inVm, i);
    }
    Spelled(head, Flagged("--export", exports), Flagged("--in-vm", opts.inVm), last, exports, opts.inVm);
  }

  lemma Spelled(head: seq<string>, middle: seq<string>, end: seq<string>, last: seq<string>,
                exports: seq<string>, inVm: seq<string>)
    requires |head| == 7 && |middle| == 2 * |exports| && |end| == 2 * |inVm|
    requires forall i :: 0 <= i < |exports| ==> middle[2 * i] == "--export" && middle[2 * i + 1] == exports[i]
    requires forall i :: 0 <= i < |inVm| ==> end[2 * i] == "--in-vm" && end[2 * i + 1] == inVm[i]
    ensures var args := head + middle + end + last;
      && |args| == 7 + 2 * |exports| + 2 * |inVm| + |last| && args[..7] == head && args[|args| - |last|..] == last
      && (forall i :: 0 <= i < |exports| ==> args[7 + 2 * i] == "--export" && args[7 + 2 * i + 1] == exports[i])
      && (forall i :: 0 <= i < |inVm| ==>
          args[7 + 2 * |exports| + 2 * i] == "--in-vm" && args[7 + 2 * |exports| + 2 * i + 1] == inVm[i])
  {
    var args := head + middle + end + last;
    forall i | 0 <= i < |exports| ensures args[7 + 2 * i] == "--export" && args[7 + 2 * i + 1] == exports[i] {
      Inside(head, middle, end + last, 2 * i);
      Inside(head, middle, end + last, 2 * i + 1);
      assert args == head + middle + (end + last);
    }
    forall i | 0 <= i < |inVm|
      ensures args[7 + 2 * |exports| + 2 * i] == "--in-vm" && args[7 + 2 * |exports| + 2 * i + 1] == inVm[i]
    {
      Inside(head + middle, end, last, 2 * i);
      Inside(head + middle, end, last, 2 * i + 1);
    }
  }

  lemma Inside(a: seq<string>, b: seq<string>, c: seq<string>, i: nat)
    requires i < |b|
    ensures (a + b + c)[|a| + i] == b[i]
  {
  }

  lemma ShowIntSpelled(n: int)
    requires n >= 0
    ensures ShowInt(n) == Print(n) && (n > 0 ==> ShowInt(-n) == "-" + Print(n))
  {
  }

  // ---- Reading it back

  datatype Parsed = Parsed(store: Option<string>, output: Option<string>, cache: Option<int>, fromStdin: bool,
                           exports: seq<string>, inVm: seq<string>, monitor: seq<string>)

  const NOTHING: Parsed := Parsed(None, None, None, false, [], [], [])

  datatype Token = Stdin | Cache(size: Option<int>) | Monitor | Store | Output | Export | InVm | Unknown

  function TokenOf(arg: string): Token {
    if arg == "-" then Stdin
    else if CACHE_OPTION <= arg then Cache(ReadInt(arg[|CACHE_OPTION|..]))
    else if "--monitor" <= arg then Monitor
    else if arg == "--store" then Store
    else if arg == "--output-directory" then Output
    else if arg == "--export" then Export
    else if arg == "--in-vm" then InVm
    else Unknown
  }

  /** Options are recognised from the left; one that takes a value takes the next argument, whatever it looks like. */
  function Parse(args: seq<string>, p: Parsed): Option<Parsed>
    decreases |args|
  {
    if args == [] then Some(p)
    else match TokenOf(args[0])
      case Stdin => Parse(args[1..], p.(fromStdin := true))
      case Cache(Some(n)) => Parse(args[1..], p.(cache := Some(n)))
      case Monitor => Parse(args[1..], p.(monitor := p.monitor + [args[0]]))
      case Store => if |args| < 2 then None else Parse(args[2..], p.(store := Some(args[1])))
      case Output => if |args| < 2 then None else Parse(args[2..], p.(output := Some(args[1])))
      case Export => if |args| < 2 then None else Parse(args[2..], p.(exports := p.exports + [args[1]]))
      case InVm => if |args| < 2 then None else Parse(args[2..], p.(inVm := p.inVm + [args[1]]))
      case _ => None
  }

  lemma DirectoryTokens()
    ensures TokenOf("--store") == Store && TokenOf("--output-directory") == Output && TokenOf("-") == Stdin
  {
    assert "--store"[2] == 's' && "--output-directory"[2] == 'o' && CACHE_OPTION[2] == 'c' && "--monitor"[2] == 'm';
  }

  lemma ListTokens()
    ensures TokenOf("--export") == Export && TokenOf("--in-vm") == InVm
  {
    assert "--export"[2] == 'e' && "--in-vm"[2] == 'i' && "--store"[2] == 's' && "--output-directory"[2] == 'o';
    assert CACHE_OPTION[2] == 'c' && "--monitor"[2] == 'm';
  }

  lemma MonitorTokens()
    ensures TokenOf(MONITOR[0]) == TokenOf(MONITOR[1]) == Monitor
  {
    assert CACHE_OPTION[2] == 'c' && MONITOR[0][2] == 'm' && MONITOR[1][2] == 'm';
  }

  lemma CacheToken(n: int)
    ensures TokenOf(CACHE_OPTION + ShowInt(n)) == Cache(Some(n))
  {
    ReadShownInt(n);
    var arg := CACHE_OPTION + ShowInt(n);
    assert arg[|CACHE_OPTION|..] == ShowInt(n);
  }

  lemma {:induction false} ExportsRead(values: seq<string>, rest: seq<string>, p: Parsed)
    ensures Parse(Flagged("--export", values) + rest, p) == Parse(rest, p.(exports := p.exports + values))
    decreases |values|
  {
    ListTokens();
    var args := Flagged("--export", values) + rest;
    if values == [] {
      assert args == rest && p.exports + values == p.exports;
    } else {
      assert args[2..] == Flagged("--export", values[1..]) + rest;
      var q := p.(exports := p.exports + [values[0]]);
      ExportsRead(values[1..], rest, q);
      assert q.exports + values[1..] == p.exports + values;
    }
  }

  lemma {:induction false} InVmRead(values: seq<string>, rest: seq<string>, p: Parsed)
    ensures Parse(Flagged("--in-vm", values) + rest, p) == Parse(rest, p.(inVm := p.inVm + values))
    decreases |values|
  {
    ListTokens();
    var args := Flagged("--in-vm", values) + rest;
    if values == [] {
      assert args == rest && p.inVm + values == p.inVm;
    } else {
      assert args[2..] == Flagged("--in-vm", values[1..]) + rest;
      var q := p.(inVm := p.inVm + [values[0]]);
      InVmRead(values[1..], rest, q);
      assert q.inVm + values[1..] == p.inVm + values;
    }
  }

  lemma OneRead(arg: string, rest: seq<string>, p: Parsed)
    ensures TokenOf(arg).Stdin? ==> Parse([arg] + rest, p) == Parse(rest, p.(fromStdin := true))
    ensures TokenOf(arg).Cache? && TokenOf(arg).size.Some? ==>
      Parse([arg] + rest, p) == Parse(rest, p.(cache := TokenOf(arg).size))
    ensures TokenOf(arg).Monitor? ==> Parse([arg] + rest, p) == Parse(rest, p.(monitor := p.monitor + [arg]))
  {
    assert ([arg] + rest)[1..] == rest;
  }

  lemma TwoRead(arg: string, value: string, rest: seq<string>, p: Parsed)
    ensures TokenOf(arg).Store? ==> Parse([arg, value] + rest, p) == Parse(rest, p.(store := Some(value)))
    ensures TokenOf(arg).Output? ==> Parse([arg, value] + rest, p) == Parse(rest, p.(output := Some(value)))
  {
    assert ([arg, value] + rest)[2..] == rest;
  }

  lemma FixedRead(opts: Options, rest: seq<string>)
    ensures var cache := CACHE_OPTION + ShowInt(EffectiveCacheSize(opts));
      Parse(["--store", opts.storeDir] + (["--output-directory", opts.outputDir] + ([cache] + (["-"] + rest))), NOTHING)
      == Parse(rest, NOTHING.(store := Some(opts.storeDir), output := Some(opts.outputDir),
                              cache := Some(EffectiveCacheSize(opts)), fromStdin := true))
  {
    var size := EffectiveCacheSize(opts);
    var cache := CACHE_OPTION + ShowInt(size);
    DirectoryTokens();
    CacheToken(size);
    var p1 := NOTHING.(store := Some(opts.storeDir));
    var p2 := p1.(output := Some(opts.outputDir));
    TwoRead("--store", opts.storeDir, ["--output-directory", opts.outputDir] + ([cache] + (["-"] + rest)), NOTHING);
    TwoRead("--output-directory", opts.outputDir, [cache] + (["-"] + rest), p1);
    OneRead(cache, ["-"] + rest, p2);
    OneRead("-", rest, p2.(cache := Some(size)));
  }

  lemma MonitorRead(p: Parsed)
    requires p.monitor == []
    ensures Parse(MONITOR, p) == Some(p.(monitor := MONITOR))
  {
    MonitorTokens();
    OneRead(MONITOR[0], [MONITOR[1]], p);
    OneRead(MONITOR[1], [], p.(monitor := [MONITOR[0]]));
    assert p.monitor + [MONITOR[0]] == [MONITOR[0]];
    assert [MONITOR[0]] + [MONITOR[1]] == MONITOR && [MONITOR[1]] + [] == [MONITOR[1]];
  }

  lemma ListsRead(exports: seq<string>, inVm: seq<string>, monitored: bool, p: Parsed)
    requires p.exports == [] && p.inVm == [] && p.monitor == []
    ensures var monitor := if monitored then MONITOR else [];
      Parse(Flagged("--export", exports) + (Flagged("--in-vm", inVm) + monitor), p)
      == Some(p.(exports := exports, inVm := inVm, monitor := monitor))
  {
    var monitor := if monitored then MONITOR else [];
    ExportsRead(exports, Flagged("--in-vm", inVm) + monitor, p);
    assert [] + exports == exports && [] + inVm == inVm;
    InVmRead(inVm, monitor, p.(exports := exports));
    if monitored {
      MonitorRead(p.(exports := exports, inVm := inVm));
    }
  }

  lemma Regrouped(head: string, a: string, b: string, c: string, d: string, e: string, f: string,
                  x: seq<string>, y: seq<string>, z: seq<string>)
    ensures ([head, a, b, c, d, e, f] + x + y + z)[1..] == [a, b] + ([c, d] + ([e] + ([f] + (x + (y + z)))))
  {
  }

  /** The parser recovers every option, the effective cache size and both lists in order, whatever the values are. */
  lemma ArgVectorReads(exports: seq<string>, opts: Options, monitored: bool)
    ensures var monitor := if monitored then MONITOR else [];
      Parse((ArgVector(exports, opts) + monitor)[1..], NOTHING) ==
      Some(Parsed(Some(opts.storeDir), Some(opts.outputDir), Some(EffectiveCacheSize(opts)), true, exports, opts.inVm, monitor))
  {
    var monitor := if monitored then MONITOR else [];
    var lists := Flagged("--export", exports) + (Flagged("--in-vm", opts.inVm) + monitor);
    var cache := CACHE_OPTION + ShowInt(EffectiveCacheSize(opts));
    FixedRead(opts, lists);
    Regrouped("osbuild", "--store", opts.storeDir, "--output-directory", opts.outputDir, cache, "-",
              Flagged("--export", exports), Flagged("--in-vm", opts.inVm), monitor);
    var p := Parsed(Some(opts.storeDir), Some(opts.outputDir), Some(EffectiveCacheSize(opts)), true, [], [], []);
    ListsRead(exports, opts.inVm, monitored, p);
  }

  /** So no two requests share a command line, except that no cache size means the default one. */
  lemma ArgVectorDetermines(exports: seq<string>, opts: Options, exports': seq<string>, opts': Options)
    requires ArgVector(exports, opts) == ArgVector(exports', opts')
    ensures exports == exports' && opts == opts'.(cacheMaxSize := opts.cacheMaxSize)
    ensures opts.cacheMaxSize == opts'.cacheMaxSize || {opts.cacheMaxSize, opts'.cacheMaxSize} == {0, 20 * GIB}
  {
    ArgVectorReads(exports, opts, false);
    ArgVectorReads(exports', opts', false);
  }
}
