/** The slowest stages of a build: measurements are recorded as statuses arrive, sorted in place and the top ten
    printed. */
module Metrics {
  import opened Osbuild
  import Decimal
  import opened Text

  const SECOND: int := 1_000_000_000

  datatype Measurement = Measurement(pipeline: string, name: string, duration: nat)

  /** A status is recorded when it names a stage that took more than a second. */
  function Recorded(st: Status): (r: seq<Measurement>) {
    if st.duration > SECOND && st.message != "" then [Measurement(st.pipeline, st.message, st.duration)] else []
  }

  function AllRecorded(statuses: seq<Status>): (r: seq<Measurement>) {
    if statuses == [] then []
    else AllRecorded(statuses[..|statuses| - 1]) + Recorded(statuses[|statuses| - 1])
  }

  predicate SlowestFirst(xs: seq<Measurement>) {
    forall i, j :: 0 <= i < j < |xs| ==> xs[i].duration >= xs[j].duration
  }

  function Printed(sorted: seq<Measurement>): seq<Measurement> {
    if |sorted| <= 10 then sorted else sorted[..10]
  }

  /** A duration truncated to seconds, as Go writes it. */
  function SecondsText(duration: nat): string {
    var s := duration / SECOND;
    var tail := Decimal.Print(s % 60) + "s";
    if s < 60 then tail
    else if s < 3600 then Decimal.Print(s / 60) + "m" + tail
    else Decimal.Print(s / 3600) + "h" + Decimal.Print(s / 60 % 60) + "m" + tail
  }

  function Line(m: Measurement): string {
    "\t" + m.pipeline + ": " + m.name + ": " + SecondsText(m.duration) + "\n"
  }

  function Lines(xs: seq<Measurement>, text: Measurement -> string): string {
    if xs == [] then "" else Lines(xs[..|xs| - 1], text) + text(xs[|xs| - 1])
  }

  function Report(sorted: seq<Measurement>): string {
    if sorted == [] then "" else "Metrics:\n" + Lines(Printed(sorted), Line)
  }

  lemma InsertedInOrder(sorted: seq<Measurement>, k: nat, m: Measurement)
    requires SlowestFirst(sorted) && k <= |sorted|
    requires forall j :: 0 <= j < k ==> sorted[j].duration >= m.duration
    requires k < |sorted| ==> sorted[k].duration < m.duration
    ensures SlowestFirst(sorted[..k] + [m] + sorted[k..])
  {
    var r := sorted[..k] + [m] + sorted[k..];
    forall i, j | 0 <= i < j < |r| ensures r[i].duration >= r[j].duration {
      assert r[j] == if j < k then sorted[j] else if j == k then m else sorted[j - 1];
      assert r[i] == if i < k then sorted[i] else if i == k then m else sorted[i - 1];
    }
  }

  lemma InsertedOnce(xs: seq<Measurement>, k: nat, m: Measurement)
    requires k <= |xs|
    ensures multiset(xs[..k] + [m] + xs[k..]) == multiset(xs) + multiset{m}
  {
    assert xs == xs[..k] + xs[k..];
  }

  method InsertSlowestFirst(sorted: seq<Measurement>, m: Measurement) returns (r: seq<Measurement>)
    requires SlowestFirst(sorted)
    ensures SlowestFirst(r) && multiset(r) == multiset(sorted) + multiset{m}
  {
    var k := 0;
    while k < |sorted| && sorted[k].duration >= m.duration
      invariant k <= |sorted|
      invariant forall j :: 0 <= j < k ==> sorted[j].duration >= m.duration
    {
      k := k + 1;
    }
    InsertedInOrder(sorted, k, m);
    InsertedOnce(sorted, k, m);
    r := sorted[..k] + [m] + sorted[k..];
  }

  /** Some descending sort; its callers know only that the result is a sorted permutation. */
  method SortSlowestFirst(xs: seq<Measurement>) returns (sorted: seq<Measurement>)
    ensures SlowestFirst(sorted) && multiset(sorted) == multiset(xs)
  {
    sorted := [];
    for i := 0 to |xs|
      invariant SlowestFirst(sorted) && multiset(sorted) == multiset(xs[..i])
    {
      assert xs[..i + 1] == xs[..i] + [xs[i]];
      sorted := InsertSlowestFirst(sorted, xs[i]);
    }
    assert xs[..|xs|] == xs;
  }

  /** The loop that prints: it stops after the tenth line. */
  method PrintTopTen(sorted: seq<Measurement>, text: Measurement -> string) returns (result: string)
    ensures result == "Metrics:\n" + Lines(Printed(sorted), text)
  {
    result := "Metrics:\n";
    ghost var heading := result;
    var i := 0;
    while i < |sorted|
      invariant 0 <= i <= |sorted| && i <= 9
      invariant result == heading + Lines(sorted[..i], text)
    {
      LinesGrow(heading, sorted, text, i);
      result := result + text(sorted[i]);
      i := i + 1;
      if i - 1 >= 9 {
        break;
      }
    }
    assert sorted[..|sorted|] == sorted;
  }

  class OsbuildStageMetrics {
    var durations: seq<Measurement>

    constructor ()
      ensures durations == []
    {
      durations := [];
    }

    method Add(st: Status)
      modifies this
      ensures Effect(Operation.Add(st), old(durations), durations)
      ensures durations == old(durations) +
        if st.duration > 1_000_000_000 && st.message != "" then [Measurement(st.pipeline, st.message, st.duration)] else []
    {
      if st.duration > SECOND && st.message != "" {
        durations := durations + [Measurement(st.pipeline, st.message, st.duration)];
      }
    }

    method String() returns (result: string)
      modifies this
      ensures Effect(Operation.String, old(durations), durations)
      ensures result == Report(durations)
      ensures durations == [] ==> result == ""
      ensures durations != [] ==>
        result == "Metrics:\n" + Lines(if |durations| <= 10 then durations else durations[..10], Line)
    {
      if |durations| == 0 {
        return "";
      }
      durations := SortSlowestFirst(durations);
      assert |durations| == |multiset(durations)|;
      result := PrintTopTen(durations, Line);
    }
  }

  lemma LinesGrow(heading: string, xs: seq<Measurement>, text: Measurement -> string, i: nat)
    requires i < |xs|
    ensures heading + Lines(xs[..i], text) + text(xs[i]) == heading + Lines(xs[..i + 1], text)
  {
    assert xs[..i + 1][..i] == xs[..i];
  }

  // ---- What is printed

  /** The lines stand in the order of the measurements. */
  lemma {:induction false} LinesConcat(a: seq<Measurement>, b: seq<Measurement>, text: Measurement -> string)
    ensures Lines([], text) == "" && Lines(a + b, text) == Lines(a, text) + Lines(b, text)
    decreases |b|
  {
    if b == [] {
      assert a + b == a;
    } else {
      var before, last := b[..|b| - 1], b[|b| - 1];
      assert (a + b)[..|a + b| - 1] == a + before && (a + b)[|a + b| - 1] == last;
      LinesConcat(a, before, text);
      Associative(Lines(a, text), Lines(before, text), text(last));
    }
  }

  lemma OneLine(m: Measurement, text: Measurement -> string)
    ensures Lines([m], text) == text(m)
  {
    assert [m][..0] == [] && "" + text(m) == text(m);
  }

  /** A duration is printed in hours, minutes and seconds that add up to it but for the fraction of a second, without
      leading zero units. */
  lemma SecondsTextSays(duration: nat) returns (h: nat, m: nat, s: nat)
    ensures m < 60 && s < 60 && h * 3600 + m * 60 + s == duration / 1_000_000_000
    ensures SecondsText(duration) ==
      if h > 0 then Decimal.Print(h) + "h" + Decimal.Print(m) + "m" + Decimal.Print(s) + "s"
      else if m > 0 then Decimal.Print(m) + "m" + Decimal.Print(s) + "s"
      else Decimal.Print(s) + "s"
  {
    var total := duration / SECOND;
    h, m, s := total / 3600, total / 60 % 60, total % 60;
    Associative(Decimal.Print(h) + "h" + Decimal.Print(m) + "m", Decimal.Print(s), "s");
    Associative(Decimal.Print(m) + "m", Decimal.Print(s), "s");
  }

  /** A line names the pipeline, the stage and the duration. */
  lemma LineReads(m: Measurement)
    ensures Line(m) == "\t" + (m.pipeline + (": " + (m.name + (": " + (SecondsText(m.duration) + "\n")))))
  {
    Associative("\t" + m.pipeline + ": " + m.name + ": ", SecondsText(m.duration), "\n");
    Associative("\t" + m.pipeline + ": " + m.name, ": ", SecondsText(m.duration) + "\n");
    Associative("\t" + m.pipeline + ": ", m.name, ": " + (SecondsText(m.duration) + "\n"));
    Associative("\t" + m.pipeline, ": ", m.name + (": " + (SecondsText(m.duration) + "\n")));
    Associative("\t", m.pipeline, ": " + (m.name + (": " + (SecondsText(m.duration) + "\n"))));
  }

  /** As here. */
  lemma SecondsRead()
    ensures SecondsText(3_723_900_000_000) == "1h2m3s" && SecondsText(65_000_000_000) == "1m5s" && SecondsText(2_500_000_000) == "2s"
  {
    assert Decimal.Print(1) == "1" && Decimal.Print(2) == "2" && Decimal.Print(3) == "3" && Decimal.Print(5) == "5";
  }

  // ---- What is printed depends only on what was recorded

  function CountAtLeast(xs: seq<Measurement>, d: int): nat {
    if xs == [] then 0 else (if xs[0].duration >= d then 1 else 0) + CountAtLeast(xs[1..], d)
  }

  lemma {:induction false} CountConcat(xs: seq<Measurement>, ys: seq<Measurement>, d: int)
    ensures CountAtLeast(xs + ys, d) == CountAtLeast(xs, d) + CountAtLeast(ys, d)
  {
    if xs == [] {
      assert xs + ys == ys;
    } else {
      assert (xs + ys)[1..] == xs[1..] + ys;
      CountConcat(xs[1..], ys, d);
    }
  }

  lemma RemovedOnce(ys: seq<Measurement>, k: nat, d: int)
    requires k < |ys|
    ensures var rest := ys[..k] + ys[k + 1..];
      multiset(rest) == multiset(ys) - multiset{ys[k]}
      && CountAtLeast(ys, d) == CountAtLeast(rest, d) + (if ys[k].duration >= d then 1 else 0)
  {
    assert ys == ys[..k] + ([ys[k]] + ys[k + 1..]);
    CountConcat(ys[..k], [ys[k]] + ys[k + 1..], d);
    CountConcat([ys[k]], ys[k + 1..], d);
    CountConcat(ys[..k], ys[k + 1..], d);
    assert [ys[k]][1..] == [];
  }

  lemma HeadRemoved(xs: seq<Measurement>)
    requires xs != []
    ensures multiset(xs[1..]) == multiset(xs) - multiset{xs[0]} && xs[0] in multiset(xs)
  {
    assert xs == [xs[0]] + xs[1..];
  }

  lemma PositionOf(ys: seq<Measurement>, m: Measurement) returns (k: nat)
    requires m in multiset(ys)
    ensures k < |ys| && ys[k] == m
  {
    assert m in ys;
    k :| k < |ys| && ys[k] == m;
  }

  lemma {:induction false} CountOfPermutation(xs: seq<Measurement>, ys: seq<Measurement>, d: int)
    requires multiset(xs) == multiset(ys)
    ensures CountAtLeast(xs, d) == CountAtLeast(ys, d)
    decreases |xs|
  {
    if xs == [] {
      assert |ys| == |multiset(ys)|;
    } else {
      HeadRemoved(xs);
      var k := PositionOf(ys, xs[0]);
      RemovedOnce(ys, k, d);
      CountOfPermutation(xs[1..], ys[..k] + ys[k + 1..], d);
    }
  }

  lemma {:induction false} SortedByCount(xs: seq<Measurement>, i: nat, d: int)
    requires SlowestFirst(xs) && i < |xs|
    ensures xs[i].duration >= d <==> i < CountAtLeast(xs, d)
    decreases |xs|
  {
    if xs[0].duration < d {
      NoneAtLeast(xs, d);
    } else if i > 0 {
      SortedByCount(xs[1..], i - 1, d);
    }
  }

  lemma {:induction false} NoneAtLeast(xs: seq<Measurement>, d: int)
    requires forall i :: 0 <= i < |xs| ==> xs[i].duration < d
    ensures CountAtLeast(xs, d) == 0
  {
    if xs == [] {
    } else {
      NoneAtLeast(xs[1..], d);
    }
  }

  /** A use of the metrics object. */
  datatype Operation = Add(st: Status) | String

  predicate Effect(op: Operation, before: seq<Measurement>, after: seq<Measurement>) {
    match op
    case Add(st) => after == before + Recorded(st)
    case String => SlowestFirst(after) && multiset(after) == multiset(before)
  }

  /** The contents of a fresh metrics object along a run of operations, whatever sort String uses. */
  predicate History(ops: seq<Operation>, contents: seq<seq<Measurement>>) {
    && |contents| == |ops| + 1 && contents[0] == []
    && forall i :: 0 <= i < |ops| ==> Effect(ops[i], contents[i], contents[i + 1])
  }

  function Added(ops: seq<Operation>): multiset<Measurement> {
    if ops == [] then multiset{}
    else Added(ops[..|ops| - 1]) + (match ops[|ops| - 1] case Add(st) => multiset(Recorded(st)) case String => multiset{})
  }

  lemma {:induction false} ContentsAreAdded(ops: seq<Operation>, contents: seq<seq<Measurement>>)
    requires History(ops, contents)
    ensures multiset(contents[|ops|]) == Added(ops)
    decreases |ops|
  {
    if ops == [] {
    } else {
      ContentsAreAdded(ops[..|ops| - 1], contents[..|ops|]);
    }
  }

  /** Sorting a list in two ways puts the same durations in the same places. */
  lemma SortedDurationsAgree(xs: seq<Measurement>, ys: seq<Measurement>)
    requires SlowestFirst(xs) && SlowestFirst(ys) && multiset(xs) == multiset(ys)
    ensures |xs| == |ys| && forall i :: 0 <= i < |xs| ==> xs[i].duration == ys[i].duration
  {
    assert |xs| == |multiset(xs)| == |multiset(ys)| == |ys|;
    forall i | 0 <= i < |xs| ensures xs[i].duration == ys[i].duration {
      var d, e := xs[i].duration, ys[i].duration;
      SortedByCount(xs, i, d);
      SortedByCount(ys, i, d);
      CountOfPermutation(xs, ys, d);
      SortedByCount(xs, i, e);
      SortedByCount(ys, i, e);
      CountOfPermutation(xs, ys, e);
    }
  }

  lemma FinalStringSorts(ops: seq<Operation>, contents: seq<seq<Measurement>>)
    requires History(ops, contents) && ops != [] && ops[|ops| - 1].String?
    ensures SlowestFirst(contents[|ops|]) && multiset(contents[|ops|]) == Added(ops)
  {
    ContentsAreAdded(ops, contents);
    assert Effect(ops[|ops| - 1], contents[|ops| - 1], contents[|ops|]);
  }

  /** The ten slowest of the recorded measurements, or all of them, in descending order, also in whole seconds. */
  ghost predicate IsTopTenOf(printed: seq<Measurement>, recorded: multiset<Measurement>) {
    && |printed| == (if |recorded| < 10 then |recorded| else 10)
    && multiset(printed) <= recorded
    && SlowestFirst(printed)
    && (forall m, i :: m in recorded - multiset(printed) && 0 <= i < |printed| ==> m.duration <= printed[i].duration)
    && (forall i, j :: 0 <= i < j < |printed| ==> printed[i].duration / SECOND >= printed[j].duration / SECOND)
  }

  lemma SecondsKeepOrder(d: nat, e: nat)
    requires d >= e
    ensures d / SECOND >= e / SECOND
  {
  }

  lemma OmittedAreSlower(all: seq<Measurement>, n: nat, m: Measurement)
    requires SlowestFirst(all) && n <= |all| && m in multiset(all) - multiset(all[..n])
    ensures forall i :: 0 <= i < n ==> m.duration <= all[i].duration
  {
    assert all == all[..n] + all[n..];
    assert m in multiset(all[n..]);
    var j :| 0 <= j < |all[n..]| && all[n..][j] == m;
    assert all[n + j] == m;
  }

  lemma PrefixInSeconds(all: seq<Measurement>, n: nat)
    requires SlowestFirst(all) && n <= |all|
    ensures SlowestFirst(all[..n]) && multiset(all[..n]) <= multiset(all)
    ensures forall i, j :: 0 <= i < j < n ==> all[i].duration / SECOND >= all[j].duration / SECOND
  {
    assert all == all[..n] + all[n..];
    forall i, j | 0 <= i < j < n ensures all[i].duration / SECOND >= all[j].duration / SECOND {
      SecondsKeepOrder(all[i].duration, all[j].duration);
    }
  }

  lemma FirstTenAreSlowest(all: seq<Measurement>)
    requires SlowestFirst(all)
    ensures IsTopTenOf(Printed(all), multiset(all))
  {
    var n := |Printed(all)|;
    assert |multiset(all)| == |all| && Printed(all) == all[..n];
    PrefixInSeconds(all, n);
    forall m | m in multiset(all) - multiset(all[..n]) ensures forall i :: 0 <= i < n ==> m.duration <= all[i].duration {
      OmittedAreSlower(all, n, m);
    }
  }

  /** However Add and String interleave, a final String prints the ten slowest measurements recorded so far. */
  lemma TopTenPrinted(ops: seq<Operation>, contents: seq<seq<Measurement>>)
    requires History(ops, contents) && ops != [] && ops[|ops| - 1].String?
    ensures IsTopTenOf(Printed(contents[|ops|]), Added(ops))
  {
    FinalStringSorts(ops, contents);
    FirstTenAreSlowest(contents[|ops|]);
  }

  function Durations(xs: seq<Measurement>): (ds: seq<nat>)
    ensures |ds| == |xs| && forall i :: 0 <= i < |xs| ==> ds[i] == xs[i].duration
  {
    seq(|xs|, i requires 0 <= i < |xs| => xs[i].duration)
  }

  /** Two runs that recorded the same measurements, in any order and however interleaved, print the same durations. */
  lemma PrintedDurationsAgree(ops: seq<Operation>, contents: seq<seq<Measurement>>,
                              ops': seq<Operation>, contents': seq<seq<Measurement>>)
    requires History(ops, contents) && ops != [] && ops[|ops| - 1].String?
    requires History(ops', contents') && ops' != [] && ops'[|ops'| - 1].String?
    requires Added(ops) == Added(ops')
    ensures Durations(Printed(contents[|ops|])) == Durations(Printed(contents'[|ops'|]))
  {
    FinalStringSorts(ops, contents);
    FinalStringSorts(ops', contents');
    SortedDurationsAgree(contents[|ops|], contents'[|ops'|]);
  }
}
