/** Preparing a container for osbuild: a fixed order of commands, any of which may fail with or without effect, and
    the bind mount at the end as the sign that all of it is done. */
module Setup {
  /** The copy of osbuild in the temporary directory. */
  datatype Copy = Absent | Partial | Complete

  /** What the commands change outside; mounts are counted because they stack. */
  datatype Env = Env(storeLabelled: bool, runDir: bool, tmpfs: nat, copy: Copy, copyLabelled: bool, devtmpfs: nat, bind: nat)

  datatype Command = LabelStore | MakeRunDir | MountTmpfs | CopyOsbuild | LabelCopy | MountDev | BindOsbuild

  /** A command succeeds, or fails before, in the middle of, or after its effect. */
  datatype Outcome = Done | FailedBefore | FailedMidway | FailedAfter

  type Outcomes = Command -> Outcome

  const FRESH: Env := Env(false, false, 0, Absent, false, 0, 0)

  const ORDER: seq<Command> := [LabelStore, MakeRunDir, MountTmpfs, CopyOsbuild, LabelCopy, MountDev, BindOsbuild]

  function Effect(e: Env, c: Command, o: Outcome): Env {
    var took := o == Done || o == FailedAfter;
    match c
    case LabelStore => if took then e.(storeLabelled := true) else e
    case MakeRunDir => if took then e.(runDir := true) else e
    case MountTmpfs => if took then e.(tmpfs := e.tmpfs + 1, copy := Absent, copyLabelled := false) else e
    case CopyOsbuild => if took then e.(copy := Complete) else if o == FailedMidway then e.(copy := Partial) else e
    case LabelCopy => if took then e.(copyLabelled := true) else e
    case MountDev => if took then e.(devtmpfs := e.devtmpfs + 1) else e
    case BindOsbuild => if took then e.(bind := e.bind + 1) else e
  }

  predicate Skipped(e: Env, c: Command, inVm: bool) {
    (c.MountTmpfs? && e.tmpfs > 0) || (c.MountDev? && inVm)
  }

  /** The commands from the k-th on, up to the first failure. */
  function Perform(e: Env, k: nat, inVm: bool, outs: Outcomes): (Env, bool)
    requires k <= |ORDER|
    decreases |ORDER| - k
  {
    if k == |ORDER| then (e, true)
    else
      var c := ORDER[k];
      if Skipped(e, c, inVm) then Perform(e, k + 1, inVm, outs)
      else if outs(c) == Done then Perform(Effect(e, c, Done), k + 1, inVm, outs)
      else (Effect(e, c, outs(c)), false)
  }

  /** One call: nothing when osbuild is a mount point already. */
  function Ensure(e: Env, inVm: bool, outs: Outcomes): (Env, bool) {
    if e.bind > 0 then (e, true) else Perform(e, 0, inVm, outs)
  }

  class Container {
    var env: Env

    method RunCommand(c: Command, outs: Outcomes) returns (ok: bool)
      modifies this
      ensures env == Effect(old(env), c, outs(c)) && ok == (outs(c) == Done)
    {
      ok := outs(c) == Done;
      env := Effect(env, c, outs(c));
    }

    method EnsureEnvironment(inVm: bool, outs: Outcomes) returns (ok: bool)
      modifies this
      ensures (env, ok) == Ensure(old(env), inVm, outs)
    {
      if env.bind > 0 {
        return true;
      }
      ghost var goal := Perform(env, 0, inVm, outs);
      PerformNext(env, 0, inVm, outs);
      ok := RunCommand(LabelStore, outs);
      if !ok {
        return;
      }
      assert goal == Perform(env, 1, inVm, outs);
      PerformNext(env, 1, inVm, outs);
      ok := RunCommand(MakeRunDir, outs);
      if !ok {
        return;
      }
      assert goal == Perform(env, 2, inVm, outs);
      PerformNext(env, 2, inVm, outs);
      if env.tmpfs == 0 {
        ok := RunCommand(MountTmpfs, outs);
        if !ok {
          return;
        }
      }
      assert goal == Perform(env, 3, inVm, outs);
      PerformNext(env, 3, inVm, outs);
      ok := RunCommand(CopyOsbuild, outs);
      if !ok {
        return;
      }
      assert goal == Perform(env, 4, inVm, outs);
      PerformNext(env, 4, inVm, outs);
      ok := RunCommand(LabelCopy, outs);
      if !ok {
        return;
      }
      assert goal == Perform(env, 5, inVm, outs);
      PerformNext(env, 5, inVm, outs);
      if !inVm {
        ok := RunCommand(MountDev, outs);
        if !ok {
          return;
        }
      }
      assert goal == Perform(env, 6, inVm, outs);
      PerformNext(env, 6, inVm, outs);
      ok := RunCommand(BindOsbuild, outs);
      return ok;
    }
  }

  /** What the k-th command makes of it. */
  lemma PerformNext(e: Env, k: nat, inVm: bool, outs: Outcomes)
    requires k < |ORDER|
    ensures var c := ORDER[k];
      Perform(e, k, inVm, outs) ==
        if Skipped(e, c, inVm) then Perform(e, k + 1, inVm, outs)
        else if outs(c) == Done then Perform(Effect(e, c, Done), k + 1, inVm, outs)
        else (Effect(e, c, outs(c)), false)
    ensures Perform(e, |ORDER|, inVm, outs) == (e, true)
  {
  }

  // ---- Histories of calls

  function AfterCalls(e: Env, inVm: bool, calls: seq<Outcomes>): Env {
    if calls == [] then e
    else Ensure(AfterCalls(e, inVm, calls[..|calls| - 1]), inVm, calls[|calls| - 1]).0
  }

  /** The state of a finished preparation, with some number of device file systems stacked. */
  function Prepared(devtmpfs: nat): Env {
    Env(true, true, 1, Complete, true, devtmpfs, 1)
  }

  /** What a call without failures makes of a fresh container. */
  function CleanRun(inVm: bool): Env {
    Prepared(if inVm then 0 else 1)
  }

  /** At most one temporary file system and one bind mount; and where the bind mount is, everything is. */
  predicate Safe(e: Env, inVm: bool) {
    && e.tmpfs <= 1 && e.bind <= 1
    && (inVm ==> e.devtmpfs == 0)
    && (e.bind == 1 ==> e == Prepared(e.devtmpfs) && (inVm || e.devtmpfs >= 1))
  }

  /** The effects of the commands before the k-th, while osbuild is not bind-mounted. */
  predicate DoneBefore(e: Env, k: nat, inVm: bool) {
    && Safe(e, inVm) && e.bind == 0
    && (k > 0 ==> e.storeLabelled)
    && (k > 1 ==> e.runDir)
    && (k > 2 ==> e.tmpfs == 1)
    && (k > 3 ==> e.copy == Complete)
    && (k > 4 ==> e.copyLabelled)
    && (k > 5 ==> inVm || e.devtmpfs >= 1)
  }

  lemma {:induction false} PerformIsSafe(e: Env, k: nat, inVm: bool, outs: Outcomes)
    requires k < |ORDER| && DoneBefore(e, k, inVm)
    ensures var (f, ok) := Perform(e, k, inVm, outs);
      && Safe(f, inVm) && (ok ==> f.bind == 1) && f.devtmpfs >= e.devtmpfs
      && (ok ==> f.devtmpfs == e.devtmpfs + if k <= 5 && !inVm then 1 else 0)
    decreases |ORDER| - k
  {
    var c := ORDER[k];
    if k + 1 < |ORDER| {
      if Skipped(e, c, inVm) {
        PerformIsSafe(e, k + 1, inVm, outs);
      } else if outs(c) == Done {
        PerformIsSafe(Effect(e, c, Done), k + 1, inVm, outs);
      }
    } else {
      assert Perform(Effect(e, c, Done), k + 1, inVm, outs) == (Effect(e, c, Done), true);
    }
  }

  lemma EnsureIsSafe(e: Env, inVm: bool, outs: Outcomes)
    requires Safe(e, inVm)
    ensures var (f, ok) := Ensure(e, inVm, outs);
      Safe(f, inVm) && (ok ==> f.bind == 1) && (ok ==> f == Prepared(f.devtmpfs))
  {
    if e.bind == 0 {
      PerformIsSafe(e, 0, inVm, outs);
    }
  }

  /** Over every history of calls the bind mount implies every earlier effect, and at most one temporary file system
      and one bind mount ever exist. */
  lemma {:induction false} CommitPointIsSafe(inVm: bool, calls: seq<Outcomes>)
    ensures Safe(AfterCalls(FRESH, inVm, calls), inVm)
    decreases |calls|
  {
    if calls == [] {
    } else {
      CommitPointIsSafe(inVm, calls[..|calls| - 1]);
      EnsureIsSafe(AfterCalls(FRESH, inVm, calls[..|calls| - 1]), inVm, calls[|calls| - 1]);
    }
  }

  /** The commands a call attempts, from the k-th on. */
  function Attempted(e: Env, k: nat, inVm: bool, outs: Outcomes): seq<Command>
    requires k <= |ORDER|
    decreases |ORDER| - k
  {
    if k == |ORDER| then []
    else
      var c := ORDER[k];
      if Skipped(e, c, inVm) then Attempted(e, k + 1, inVm, outs)
      else if outs(c) == Done then [c] + Attempted(Effect(e, c, Done), k + 1, inVm, outs)
      else [c]
  }

  /** What a call attempts when nothing fails. */
  function InFull(e: Env, inVm: bool): seq<Command> {
    [LabelStore, MakeRunDir] + (if e.tmpfs > 0 then [] else [MountTmpfs]) + [CopyOsbuild, LabelCopy]
    + (if inVm then [] else [MountDev]) + [BindOsbuild]
  }

  lemma AttemptedNext(e: Env, k: nat, inVm: bool, outs: Outcomes)
    requires k <= |ORDER|
    ensures Attempted(e, k, inVm, outs) ==
      if k == |ORDER| then []
      else if Skipped(e, ORDER[k], inVm) then Attempted(e, k + 1, inVm, outs)
      else [ORDER[k]] + if outs(ORDER[k]) == Done then Attempted(Effect(e, ORDER[k], Done), k + 1, inVm, outs) else []
  {
  }

  /** What is left to attempt from the k-th command on; the mount of the temporary file system is not looked at again. */
  function FullFrom(e: Env, k: nat, inVm: bool): seq<Command>
    requires k <= |ORDER|
    decreases |ORDER| - k
  {
    if k == |ORDER| then []
    else (if Skipped(e, ORDER[k], inVm) then [] else [ORDER[k]]) + FullFrom(e, k + 1, inVm)
  }

  lemma {:induction false} FullFromIgnoresEffect(e: Env, f: Env, k: nat, inVm: bool)
    requires k <= |ORDER| && (k <= 2 ==> e.tmpfs == f.tmpfs)
    ensures FullFrom(e, k, inVm) == FullFrom(f, k, inVm)
    decreases |ORDER| - k
  {
    if k == |ORDER| {
    } else {
      FullFromIgnoresEffect(e, f, k + 1, inVm);
    }
  }

  /** The outcomes of what was tried: all done but perhaps the last. */
  predicate StoppedAtFailure(tried: seq<Command>, ok: bool, outs: Outcomes) {
    && (forall i :: 0 <= i < |tried| && outs(tried[i]) != Done ==> i == |tried| - 1)
    && (ok <==> forall i :: 0 <= i < |tried| ==> outs(tried[i]) == Done)
  }

  lemma OneMoreTried(c: Command, rest: seq<Command>, ok: bool, outs: Outcomes)
    requires outs(c) == Done && StoppedAtFailure(rest, ok, outs)
    ensures StoppedAtFailure([c] + rest, ok, outs)
  {
    var tried := [c] + rest;
    assert forall i :: 0 <= i < |tried| ==> tried[i] == if i == 0 then c else rest[i - 1];
    assert forall i :: 0 <= i < |rest| ==> rest[i] == tried[i + 1];
  }

  lemma FullNext(e: Env, k: nat, inVm: bool)
    requires k < |ORDER|
    ensures FullFrom(e, k, inVm) == (if Skipped(e, ORDER[k], inVm) then [] else [ORDER[k]]) + FullFrom(e, k + 1, inVm)
  {
  }

  lemma {:induction false} AttemptsInOrder(e: Env, k: nat, inVm: bool, outs: Outcomes)
    requires k <= |ORDER|
    ensures Attempted(e, k, inVm, outs) <= FullFrom(e, k, inVm)
    decreases |ORDER| - k
  {
    if k == |ORDER| {
      AttemptedNext(e, k, inVm, outs);
    } else {
      var c := ORDER[k];
      var g := Effect(e, c, Done);
      if Skipped(e, c, inVm) {
        AttemptsInOrder(e, k + 1, inVm, outs);
      } else if outs(c) == Done {
        AttemptsInOrder(g, k + 1, inVm, outs);
        FullFromIgnoresEffect(e, g, k + 1, inVm);
      }
      OneInOrder(e, k, inVm, outs);
    }
  }

  lemma OneInOrder(e: Env, k: nat, inVm: bool, outs: Outcomes)
    requires k < |ORDER|
    requires Skipped(e, ORDER[k], inVm) ==> Attempted(e, k + 1, inVm, outs) <= FullFrom(e, k + 1, inVm)
    requires !Skipped(e, ORDER[k], inVm) && outs(ORDER[k]) == Done ==>
      Attempted(Effect(e, ORDER[k], Done), k + 1, inVm, outs) <= FullFrom(e, k + 1, inVm)
    ensures Attempted(e, k, inVm, outs) <= FullFrom(e, k, inVm)
  {
    AttemptedNext(e, k, inVm, outs);
    FullNext(e, k, inVm);
    var c := ORDER[k];
    if Skipped(e, c, inVm) {
      assert [] + FullFrom(e, k + 1, inVm) == FullFrom(e, k + 1, inVm);
    } else if outs(c) == Done {
      Prepended(c, Attempted(Effect(e, c, Done), k + 1, inVm, outs), FullFrom(e, k + 1, inVm));
    } else {
      Prepended(c, [], FullFrom(e, k + 1, inVm));
    }
  }

  /** A success attempts everything. */
  predicate AllAttempted(e: Env, k: nat, inVm: bool, outs: Outcomes)
    requires k <= |ORDER|
  {
    Perform(e, k, inVm, outs).1 ==> Attempted(e, k, inVm, outs) == FullFrom(e, k, inVm)
  }

  lemma OneInFull(e: Env, k: nat, inVm: bool, outs: Outcomes)
    requires k < |ORDER|
    requires Skipped(e, ORDER[k], inVm) ==> AllAttempted(e, k + 1, inVm, outs)
    requires !Skipped(e, ORDER[k], inVm) && outs(ORDER[k]) == Done ==>
      var g := Effect(e, ORDER[k], Done);
      AllAttempted(g, k + 1, inVm, outs) && FullFrom(e, k + 1, inVm) == FullFrom(g, k + 1, inVm)
    ensures AllAttempted(e, k, inVm, outs)
  {
    AttemptedNext(e, k, inVm, outs);
    PerformNext(e, k, inVm, outs);
    FullNext(e, k, inVm);
    assert [] + FullFrom(e, k + 1, inVm) == FullFrom(e, k + 1, inVm);
  }

  lemma {:induction false} SuccessAttemptsAll(e: Env, k: nat, inVm: bool, outs: Outcomes)
    requires k <= |ORDER|
    ensures AllAttempted(e, k, inVm, outs)
    decreases |ORDER| - k
  {
    if k == |ORDER| {
      AttemptedNext(e, k, inVm, outs);
    } else {
      var c := ORDER[k];
      var g := Effect(e, c, Done);
      if Skipped(e, c, inVm) {
        SuccessAttemptsAll(e, k + 1, inVm, outs);
      } else if outs(c) == Done {
        SuccessAttemptsAll(g, k + 1, inVm, outs);
        FullFromIgnoresEffect(e, g, k + 1, inVm);
      }
      OneInFull(e, k, inVm, outs);
    }
  }

  lemma Prepended(c: Command, xs: seq<Command>, ys: seq<Command>)
    requires xs <= ys
    ensures [c] + xs <= [c] + ys
  {
  }

  lemma OneFailed(c: Command, outs: Outcomes)
    requires outs(c) != Done
    ensures StoppedAtFailure([c], false, outs)
  {
    assert outs([c][0]) != Done;
  }

  lemma {:induction false} AttemptsStopAtFailure(e: Env, k: nat, inVm: bool, outs: Outcomes)
    requires k <= |ORDER|
    ensures StoppedAtFailure(Attempted(e, k, inVm, outs), Perform(e, k, inVm, outs).1, outs)
    decreases |ORDER| - k
  {
    if k == |ORDER| {
    } else {
      AttemptedNext(e, k, inVm, outs);
      PerformNext(e, k, inVm, outs);
      var c := ORDER[k];
      var g := Effect(e, c, Done);
      if Skipped(e, c, inVm) {
        AttemptsStopAtFailure(e, k + 1, inVm, outs);
      } else if outs(c) == Done {
        AttemptsStopAtFailure(g, k + 1, inVm, outs);
        OneMoreTried(c, Attempted(g, k + 1, inVm, outs), Perform(g, k + 1, inVm, outs).1, outs);
      } else {
        OneFailed(c, outs);
        assert Attempted(e, k, inVm, outs) == [c];
      }
    }
  }

  lemma FullEnd(e: Env, inVm: bool)
    ensures FullFrom(e, 5, inVm) == (if inVm then [] else [MountDev]) + [BindOsbuild]
  {
    FullNext(e, 5, inVm);
    FullNext(e, 6, inVm);
    assert FullFrom(e, 7, inVm) == [] && [BindOsbuild] + [] == [BindOsbuild];
  }

  lemma TwoFirst(a: Command, b: Command, rest: seq<Command>)
    ensures [a] + ([b] + rest) == [a, b] + rest
  {
  }

  lemma FullMiddle(e: Env, inVm: bool)
    ensures FullFrom(e, 3, inVm) == [CopyOsbuild, LabelCopy] + FullFrom(e, 5, inVm)
  {
    FullNext(e, 3, inVm);
    FullNext(e, 4, inVm);
    TwoFirst(CopyOsbuild, LabelCopy, FullFrom(e, 5, inVm));
  }

  lemma FullTmpfs(e: Env, inVm: bool)
    ensures FullFrom(e, 2, inVm) == (if e.tmpfs > 0 then [] else [MountTmpfs]) + FullFrom(e, 3, inVm)
  {
    FullNext(e, 2, inVm);
  }

  lemma FullBeginning(e: Env, inVm: bool)
    ensures FullFrom(e, 0, inVm) == [LabelStore, MakeRunDir] + FullFrom(e, 2, inVm)
  {
    FullNext(e, 0, inVm);
    FullNext(e, 1, inVm);
    TwoFirst(LabelStore, MakeRunDir, FullFrom(e, 2, inVm));
  }

  lemma Assembled(a: seq<Command>, b: seq<Command>, c: seq<Command>, d: seq<Command>, f: seq<Command>)
    ensures a + (b + (c + (d + f))) == a + b + c + d + f
  {
  }

  lemma FullFromStart(e: Env, inVm: bool)
    ensures FullFrom(e, 0, inVm) == InFull(e, inVm)
  {
    FullBeginning(e, inVm);
    FullTmpfs(e, inVm);
    FullMiddle(e, inVm);
    FullEnd(e, inVm);
    Assembled([LabelStore, MakeRunDir], if e.tmpfs > 0 then [] else [MountTmpfs], [CopyOsbuild, LabelCopy],
              if inVm then [] else [MountDev], [BindOsbuild]);
  }

  /** A call that finds no bind mount attempts the commands in their order up to the first that fails, and succeeds
      exactly when none does: no failure goes unreported. */
  lemma FailuresAreReported(e: Env, inVm: bool, outs: Outcomes)
    requires e.bind == 0
    ensures var tried := Attempted(e, 0, inVm, outs);
      && tried <= [LabelStore, MakeRunDir] + (if e.tmpfs > 0 then [] else [MountTmpfs]) + [CopyOsbuild, LabelCopy]
                  + (if inVm then [] else [MountDev]) + [BindOsbuild]
      && (forall i :: 0 <= i < |tried| && outs(tried[i]) != Done ==> i == |tried| - 1)
      && (Ensure(e, inVm, outs).1 <==> forall i :: 0 <= i < |tried| ==> outs(tried[i]) == Done)
      && (Ensure(e, inVm, outs).1 ==> tried == InFull(e, inVm))
  {
    AttemptsInOrder(e, 0, inVm, outs);
    SuccessAttemptsAll(e, 0, inVm, outs);
    AttemptsStopAtFailure(e, 0, inVm, outs);
    FullFromStart(e, inVm);
  }

  predicate DevTook(tried: seq<Command>, outs: Outcomes) {
    MountDev in tried && (outs(MountDev) == Done || outs(MountDev) == FailedAfter)
  }

  /** Whether a call attempts to mount the device file system and the mount takes effect, reported or not. */
  predicate MountsDev(e: Env, inVm: bool, outs: Outcomes) {
    e.bind == 0 && DevTook(Attempted(e, 0, inVm, outs), outs)
  }

  /** How many calls of a history did. */
  function DevMounts(inVm: bool, calls: seq<Outcomes>): nat {
    if calls == [] then 0
    else
      var before, last := calls[..|calls| - 1], calls[|calls| - 1];
      DevMounts(inVm, before) + if MountsDev(AfterCalls(FRESH, inVm, before), inVm, last) then 1 else 0
  }

  lemma OneMayMountDev(e: Env, k: nat, inVm: bool, outs: Outcomes)
    requires k < |ORDER| && !Skipped(e, ORDER[k], inVm) && outs(ORDER[k]) != Done
    ensures Perform(e, k, inVm, outs).0.devtmpfs == e.devtmpfs + if DevTook(Attempted(e, k, inVm, outs), outs) then 1 else 0
    ensures k > 5 ==> MountDev !in Attempted(e, k, inVm, outs)
  {
    AttemptedNext(e, k, inVm, outs);
    PerformNext(e, k, inVm, outs);
    assert Attempted(e, k, inVm, outs) == [ORDER[k]];
  }

  lemma {:induction false} PerformMountsDev(e: Env, k: nat, inVm: bool, outs: Outcomes)
    requires k <= |ORDER|
    ensures Perform(e, k, inVm, outs).0.devtmpfs == e.devtmpfs + if DevTook(Attempted(e, k, inVm, outs), outs) then 1 else 0
    ensures k > 5 ==> MountDev !in Attempted(e, k, inVm, outs)
    decreases |ORDER| - k
  {
    if k == |ORDER| {
      AttemptedNext(e, k, inVm, outs);
    } else if !Skipped(e, ORDER[k], inVm) && outs(ORDER[k]) != Done {
      OneMayMountDev(e, k, inVm, outs);
    } else {
      AttemptedNext(e, k, inVm, outs);
      PerformNext(e, k, inVm, outs);
      PerformMountsDev(if Skipped(e, ORDER[k], inVm) then e else Effect(e, ORDER[k], Done), k + 1, inVm, outs);
    }
  }

  /** The device file systems stacked are one for each call of the history whose mount took effect. */
  lemma {:induction false} StackedAreDevMounts(inVm: bool, calls: seq<Outcomes>)
    ensures AfterCalls(FRESH, inVm, calls).devtmpfs == DevMounts(inVm, calls)
    decreases |calls|
  {
    if calls == [] {
    } else {
      StackedAreDevMounts(inVm, calls[..|calls| - 1]);
      PerformMountsDev(AfterCalls(FRESH, inVm, calls[..|calls| - 1]), 0, inVm, calls[|calls| - 1]);
    }
  }

  /** After any failures a call that succeeds leaves the state of a clean run, up to the device file systems, of which
      there is one for each call whose mount of it took effect; and it leaves exactly that state if and only if no
      earlier call had that effect, or none is wanted. */
  lemma RetryConverges(inVm: bool, calls: seq<Outcomes>, last: Outcomes)
    requires Ensure(AfterCalls(FRESH, inVm, calls), inVm, last).1
    ensures var before := AfterCalls(FRESH, inVm, calls); var after := Ensure(before, inVm, last).0;
      && after == CleanRun(inVm).(devtmpfs := DevMounts(inVm, calls + [last]))
      && (before.bind == 0 ==> (after == CleanRun(inVm) <==> inVm || DevMounts(inVm, calls) == 0))
  {
    CommitPointIsSafe(inVm, calls);
    assert (calls + [last])[..|calls|] == calls;
    StackedAreDevMounts(inVm, calls + [last]);
    StackedAreDevMounts(inVm, calls);
    var before := AfterCalls(FRESH, inVm, calls);
    EnsureIsSafe(before, inVm, last);
    if before.bind == 0 {
      PerformIsSafe(before, 0, inVm, last);
    }
  }

  lemma {:induction false} AllDoneSucceeds(e: Env, k: nat, inVm: bool, outs: Outcomes)
    requires k <= |ORDER| && forall c :: outs(c) == Done
    ensures Perform(e, k, inVm, outs).1
    decreases |ORDER| - k
  {
    if k == |ORDER| {
    } else {
      AllDoneSucceeds(e, k + 1, inVm, outs);
      AllDoneSucceeds(Effect(e, ORDER[k], Done), k + 1, inVm, outs);
    }
  }

  /** A call without failures succeeds from any history. */
  lemma CleanCallSucceeds(inVm: bool, calls: seq<Outcomes>, outs: Outcomes)
    requires forall c :: outs(c) == Done
    ensures Ensure(AfterCalls(FRESH, inVm, calls), inVm, outs).1
    ensures calls == [] ==> Ensure(FRESH, inVm, outs) == (CleanRun(inVm), true)
  {
    var before := AfterCalls(FRESH, inVm, calls);
    AllDoneSucceeds(before, 0, inVm, outs);
    PerformIsSafe(FRESH, 0, inVm, outs);
  }

  /** Once osbuild is bind-mounted, even by a call that reported a failure, every later call succeeds and changes
      nothing. */
  lemma {:induction false} LaterCallsChangeNothing(e: Env, inVm: bool, calls: seq<Outcomes>, last: Outcomes)
    requires e.bind > 0
    ensures AfterCalls(e, inVm, calls) == e && Ensure(AfterCalls(e, inVm, calls), inVm, last) == (e, true)
    decreases |calls|
  {
    if calls == [] {
    } else {
      LaterCallsChangeNothing(e, inVm, calls[..|calls| - 1], last);
    }
  }

  function BindFails(): Outcomes {
    (c: Command) => if c == BindOsbuild then FailedBefore else Done
  }

  function AllWell(): Outcomes {
    (c: Command) => Done
  }

  /** Idempotence does not cover a failed bind mount: the retry stacks a second device file system. */
  lemma RetryStacksDevtmpfs()
    ensures AfterCalls(FRESH, false, [BindFails(), AllWell()]) == Prepared(2) != CleanRun(false)
  {
    var first := Env(true, true, 1, Complete, true, 1, 0);
    var calls := [BindFails(), AllWell()];
    assert calls[..1] == [BindFails()] && [BindFails()][..0] == [];
    assert AfterCalls(FRESH, false, []) == FRESH;
    BindFailureLeaves();
    assert AfterCalls(FRESH, false, [BindFails()]) == first;
    AllDoneSucceeds(first, 0, false, AllWell());
    PerformIsSafe(first, 0, false, AllWell());
  }

  lemma BindFailureLeaves()
    ensures Ensure(FRESH, false, BindFails()) == (Env(true, true, 1, Complete, true, 1, 0), false)
  {
    var outs := BindFails();
    var e3 := Env(true, true, 1, Absent, false, 0, 0);
    var e6 := Env(true, true, 1, Complete, true, 1, 0);
    assert Perform(e3.(copy := Complete, copyLabelled := true), 5, false, outs) == Perform(e6, 6, false, outs)
      == (e6, false);
    assert Perform(e3, 3, false, outs) == Perform(e3.(copy := Complete), 4, false, outs)
      == Perform(e3.(copy := Complete, copyLabelled := true), 5, false, outs);
    assert Perform(FRESH.(storeLabelled := true, runDir := true), 2, false, outs) == Perform(e3, 3, false, outs);
    assert Perform(FRESH, 0, false, outs) == Perform(FRESH.(storeLabelled := true), 1, false, outs)
      == Perform(FRESH.(storeLabelled := true, runDir := true), 2, false, outs);
  }
}
