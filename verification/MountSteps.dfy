/** The mount table of a node and the calls on it: publish and unpublish as sequences of steps, each of which is what
    one function of the driver asks of the mounter. Every mounter call may fail. */
module MountSteps {
  import opened GrpcErrors
  import opened Paths

  /** The sources of the mounts stacked on each path, the topmost last. */
  type Mounts = map<string, seq<string>>

  function At(m: Mounts, path: string): seq<string>
  {
    if path in m then m[path] else []
  }

  function Popped(stack: seq<string>): seq<string>
  {
    if stack == [] then [] else stack[..|stack| - 1]
  }

  ghost predicate OnlyAt(a: Mounts, b: Mounts, path: string)
  {
    forall q | q != path :: At(b, q) == At(a, q)
  }

  /** A call of the mounter or the file system, with its answer. */
  datatype Call =
    | Probed(path: string, mounted: Result<bool>)
    | DirRead(path: string, ok: bool)
    | DirMade(path: string, ok: bool)
    | Mounted(path: string, source: string, options: seq<string>, ok: bool)
    | Unmounted(path: string, ok: bool)
    | Cleaned(path: string, ok: bool)

  predicate Fine(call: Call)
  {
    match call
    case Probed(_, mounted) => mounted.Ok?
    case _ => call.ok
  }

  // ---- ensureMountPoint ----

  /** The calls ensureMountPoint makes on a path, what they do to the mounts there, and what it returns. The
      mount-point test is accurate; a mount that cannot be read is unmounted. */
  ghost predicate EnsureRun(path: string, before: seq<string>, after: seq<string>, calls: seq<Call>, r: Result<bool>)
  {
    && calls != [] && calls[0].Probed? && calls[0].path == path
    && match calls[0].mounted
       case Err(e) => |calls| == 1 && after == before && r == Err(e)
       case Ok(mounted) =>
         && mounted == (before != [])
         && |calls| >= 2 && calls[1].path == path && (if mounted then calls[1].DirRead? else calls[1].DirMade?)
         && if calls[1].ok then
              |calls| == 2 && after == before && r == Ok(mounted)
            else if mounted then
              && |calls| == 3 && calls[2].Unmounted? && calls[2].path == path && r.Err?
              && after == if calls[2].ok then Popped(before) else before
            else
              |calls| == 2 && after == before && r.Err?
  }

  /** When the function leaves the path unmounted and returns an error all the same: nothing was mounted and a call
      failed, or the one mount there could not be read and was then unmounted. */
  lemma FailsUnmountedIff(path: string, before: seq<string>, after: seq<string>, calls: seq<Call>, r: Result<bool>)
    requires EnsureRun(path, before, after, calls, r)
    ensures after == [] && r.Err? <==>
            if before == [] then exists c | c in calls :: !Fine(c)
            else |before| == 1 && calls == [Probed(path, Ok(true)), DirRead(path, false), Unmounted(path, true)]
  {
    assert before == [] && r.Err? ==> !Fine(calls[|calls| - 1]);
  }

  lemma EnsureOutcome(path: string, before: seq<string>, after: seq<string>, calls: seq<Call>, r: Result<bool>)
    requires EnsureRun(path, before, after, calls, r)
    ensures after <= before
    ensures r.Ok? ==> after == before && r.value == (before != [])
    ensures r.Err? <==> exists c | c in calls :: !Fine(c)
    ensures r == Ok(true) ==> calls[|calls| - 1].DirRead?
    ensures forall c | c in calls :: !c.Cleaned?
  {
    if r.Err? {
      var c := if |calls| == 1 then calls[0] else calls[1];
      assert c in calls && !Fine(c);
    }
  }

  // ---- One call, step by step ----

  /** The volume a target is for: its ID, the source of its filesystem, whether a sub-directory of that is asked for,
      and whether the target passes the check of its working path. */
  datatype Volume = Volume(id: string, root: string, subDir: bool, pathOk: bool)

  /** The sources a target of the volume may be mounted from: the filesystem, or strictly below it. */
  ghost predicate AllowedSource(v: Volume, source: string)
  {
    if v.subDir then
      Components(v.root) < Components(source) && ".." !in Components(source)[|Components(v.root)|..]
    else
      source == v.root
  }

  /** Where a call is. */
  datatype Pc =
    | Start
    | CheckWork | CleanWork | MountWork | MakeSubDir | UnmountWork(made: bool)
    | CheckTarget | MountTarget
    | Force | Cleanup
    | Done(ok: bool)

  /** What a call sees: its position, the mount table, the working paths whose unmount failed, and the calls made. */
  datatype View = View(pc: Pc, mounts: Mounts, dirty: set<string>, calls: seq<Call>)

  ghost predicate EnsureStep(a: View, b: View, path: string, mounted: Pc, unmounted: Pc)
  {
    && OnlyAt(a.mounts, b.mounts, path) && b.dirty == a.dirty && a.calls <= b.calls
    && exists r :: EnsureRun(path, At(a.mounts, path), At(b.mounts, path), b.calls[|a.calls|..], r)
                   && b.pc == AfterEnsure(r, mounted, unmounted)
  }

  function AfterEnsure(r: Result<bool>, mounted: Pc, unmounted: Pc): Pc
  {
    match r
    case Err(_) => Done(false)
    case Ok(m) => if m then mounted else unmounted
  }

  ghost predicate MountStep(a: View, b: View, path: string, source: string, mounted: Pc)
  {
    && OnlyAt(a.mounts, b.mounts, path) && b.dirty == a.dirty && |b.calls| == |a.calls| + 1
    && var call := b.calls[|a.calls|];
       && b.calls == a.calls + [call] && call.Mounted? && call.path == path && call.source == source
       && b.pc == (if call.ok then mounted else Done(false))
       && At(b.mounts, path) == if call.ok then At(a.mounts, path) + [source] else At(a.mounts, path)
  }

  /** The cleanup of a working path keeps account of failures. */
  ghost predicate CleanWorkStep(a: View, b: View, path: string, cleaned: Pc, failed: Pc)
  {
    && OnlyAt(a.mounts, b.mounts, path)
    && (|| (&& b.pc == cleaned && b.dirty == a.dirty - {path} && At(b.mounts, path) == []
            && b.calls == a.calls + [Cleaned(path, true)])
        || (&& b.pc == failed && b.dirty == a.dirty + {path} && At(b.mounts, path) <= At(a.mounts, path)
            && b.calls == a.calls + [Cleaned(path, false)]))
  }

  /** The sub-directory is made strictly below the working path. */
  ghost predicate MakeDirStep(a: View, b: View, work: string, made: bool)
  {
    exists dir :: Components(work) < Components(dir)
                  && b == a.(pc := UnmountWork(made), calls := a.calls + [DirMade(dir, made)])
  }

  ghost predicate MountTargetStep(a: View, b: View, target: string, v: Volume)
  {
    exists source :: AllowedSource(v, source) && MountStep(a, b, target, source, Done(true))
  }

  /** The steps of NodePublishVolume for a target and its working path. A writable volume with a sub-directory
      goes by the working path first, and fails at once if that does not pass its check. */
  ghost predicate PublishStep(a: View, b: View, target: string, work: string, v: Volume)
  {
    match a.pc
    case Start =>
      || b == a.(pc := CheckTarget)
      || (v.subDir && b == a.(pc := if v.pathOk then CheckWork else Done(false)))
    case CheckWork => EnsureStep(a, b, work, CleanWork, MountWork)
    case CleanWork => CleanWorkStep(a, b, work, MountWork, Done(false))
    case MountWork => MountStep(a, b, work, v.root, MakeSubDir)
    case MakeSubDir => MakeDirStep(a, b, work, true) || MakeDirStep(a, b, work, false)
    case UnmountWork(made) =>
      var next := if made then CheckTarget else Done(false);
      CleanWorkStep(a, b, work, next, next)
    case CheckTarget => EnsureStep(a, b, target, Done(true), MountTarget)
    case MountTarget => MountTargetStep(a, b, target, v)
    case _ => false
  }

  /** The steps of NodeUnpublishVolume: a forced unmount of a bad path whose failure is ignored, then the
      cleanup. */
  ghost predicate UnpublishStep(a: View, b: View, target: string)
  {
    match a.pc
    case Start => b == a.(pc := Force) || b == a.(pc := Cleanup)
    case Force =>
      && OnlyAt(a.mounts, b.mounts, target) && b.dirty == a.dirty && b.pc == Cleanup
      && (|| (b.calls == a.calls + [Unmounted(target, true)] && At(b.mounts, target) == Popped(At(a.mounts, target)))
          || (b.calls == a.calls + [Unmounted(target, false)] && At(b.mounts, target) == At(a.mounts, target)))
    case Cleanup =>
      && OnlyAt(a.mounts, b.mounts, target) && b.dirty == a.dirty && b.pc.Done?
      && b.calls == a.calls + [Cleaned(target, b.pc.ok)]
      && (if b.pc.ok then At(b.mounts, target) == [] else At(b.mounts, target) <= At(a.mounts, target))
    case _ => false
  }

  /** What a look at a mount point does. */
  lemma EnsureStepEffect(a: View, b: View, path: string, mounted: Pc, unmounted: Pc)
    requires EnsureStep(a, b, path, mounted, unmounted)
    ensures || (b.pc == Done(false) && At(b.mounts, path) <= At(a.mounts, path))
            || (b.pc == mounted && At(b.mounts, path) == At(a.mounts, path) != [])
            || (b.pc == unmounted && At(b.mounts, path) == At(a.mounts, path) == [])
    ensures var calls := b.calls[|a.calls|..];
            && (forall c | c in calls :: !c.Cleaned?)
            && (if exists c | c in calls :: !Fine(c) then b.pc == Done(false) else b.pc == mounted || b.pc == unmounted)
            && (At(b.mounts, path) != [] && b.pc == mounted && mounted != Done(false) ==>
                  calls != [] && calls[|calls| - 1].DirRead?)
  {
    var calls := b.calls[|a.calls|..];
    var r :| EnsureRun(path, At(a.mounts, path), At(b.mounts, path), calls, r)
             && b.pc == AfterEnsure(r, mounted, unmounted);
    EnsureOutcome(path, At(a.mounts, path), At(b.mounts, path), calls, r);
    assert calls != [];
    hide EnsureRun, Fine;
  }

  // ---- Runs of one call ----

  ghost predicate IsPath(run: seq<View>, target: string, work: string, v: Volume)
  {
    run != [] && forall i | 0 <= i < |run| - 1 :: PublishStep(run[i], run[i + 1], target, work, v)
  }

  /** The run leads from one view to another. */
  ghost predicate Leads(run: seq<View>, a: View, b: View, target: string, work: string, v: Volume)
  {
    IsPath(run, target, work, v) && run[0] == a && run[|run| - 1] == b
  }

  lemma ByCheck(a: View, b: View, target: string, work: string, v: Volume)
    requires a.pc.CheckWork? && EnsureStep(a, b, work, CleanWork, MountWork)
    ensures PublishStep(a, b, target, work, v)
  {
  }

  lemma ByCleanup(a: View, b: View, target: string, work: string, v: Volume)
    requires a.pc.CleanWork? && CleanWorkStep(a, b, work, MountWork, Done(false))
    ensures PublishStep(a, b, target, work, v)
  {
  }

  lemma ByMount(a: View, b: View, target: string, work: string, v: Volume)
    requires a.pc.MountWork? && MountStep(a, b, work, v.root, MakeSubDir)
    ensures PublishStep(a, b, target, work, v)
  {
  }

  lemma ByLook(a: View, b: View, target: string, work: string, v: Volume)
    requires a.pc.CheckTarget? && EnsureStep(a, b, target, Done(true), MountTarget)
    ensures PublishStep(a, b, target, work, v)
  {
  }

  lemma ByTargetMount(a: View, b: View, target: string, work: string, v: Volume, source: string)
    requires a.pc.MountTarget? && AllowedSource(v, source) && MountStep(a, b, target, source, Done(true))
    ensures PublishStep(a, b, target, work, v)
  {
  }

  lemma StandsStill(a: View, target: string, work: string, v: Volume)
    ensures Leads([a], a, a, target, work, v)
  {
  }

  lemma Extend(run: seq<View>, a: View, b: View, c: View, target: string, work: string, v: Volume)
    requires Leads(run, a, b, target, work, v) && PublishStep(b, c, target, work, v)
    ensures Leads(run + [c], a, c, target, work, v)
  {
    hide PublishStep;
    var longer := run + [c];
    forall i | 0 <= i < |longer| - 1 ensures PublishStep(longer[i], longer[i + 1], target, work, v) {
      if i < |run| - 1 {
        assert longer[i] == run[i] && longer[i + 1] == run[i + 1];
      }
    }
  }

  lemma Append(run: seq<View>, next: seq<View>, a: View, b: View, c: View, target: string, work: string, v: Volume)
    requires Leads(run, a, b, target, work, v) && Leads(next, b, c, target, work, v)
    ensures Leads(run + next[1..], a, c, target, work, v)
  {
    hide PublishStep;
    var all := run + next[1..];
    forall i | 0 <= i < |all| - 1 ensures PublishStep(all[i], all[i + 1], target, work, v) {
      if i < |run| - 1 {
        assert all[i] == run[i] && all[i + 1] == run[i + 1];
      } else {
        assert all[i] == next[i - |run| + 1] && all[i + 1] == next[i - |run| + 2];
      }
    }
  }

  /** The run made the sub-directory while the filesystem was mounted on the working path. */
  ghost predicate MadeSubDir(run: seq<View>)
  {
    exists v | v in run :: v.pc == UnmountWork(true)
  }

  lemma MadeInEither(run: seq<View>, next: seq<View>)
    requires next != [] && next[0].pc != UnmountWork(true)
    ensures MadeSubDir(run + next[1..]) <==> MadeSubDir(run) || MadeSubDir(next)
  {
    assert next == [next[0]] + next[1..];
  }

  /** The run ends with the target mounted from the source with the options by its last step, or met a mount there and
      left it. */
  ghost predicate Delivered(run: seq<View>, target: string, source: string, options: seq<string>)
  {
    && |run| >= 2
    && var a, b := run[|run| - 2], run[|run| - 1];
       || (&& a.pc.MountTarget? && At(a.mounts, target) == [] && At(b.mounts, target) == [source]
           && b.calls == a.calls + [Mounted(target, source, options, true)])
       || (a.pc.CheckTarget? && At(b.mounts, target) == At(a.mounts, target) != [])
  }

  lemma FoundMounted(a: View, b: View, target: string, source: string, options: seq<string>)
    requires a.pc.CheckTarget? && At(b.mounts, target) == At(a.mounts, target) != []
    ensures Delivered([a] + [b], target, source, options)
  {
  }

  lemma NowMounted(first: View, a: View, b: View, target: string, source: string, options: seq<string>)
    requires a.pc.MountTarget? && At(a.mounts, target) == [] && At(b.mounts, target) == [source]
    requires b.calls == a.calls + [Mounted(target, source, options, true)]
    ensures Delivered([first] + [a] + [b], target, source, options)
  {
  }

  /** No mount was among the calls since the first n. */
  ghost predicate MountsNothing(calls: seq<Call>, n: nat)
  {
    forall i | n <= i < |calls| :: !calls[i].Mounted?
  }

  /** Every mount since the first n calls was with the options. */
  ghost predicate MountsWith(calls: seq<Call>, n: nat, options: seq<string>)
  {
    forall i | n <= i < |calls| && calls[i].Mounted? :: calls[i].options == options
  }

  lemma MountsWithMore(calls: seq<Call>, n: nat, options: seq<string>, longer: seq<Call>)
    requires n <= |calls| && calls <= longer && MountsWith(calls, n, options)
    requires MountsNothing(longer, |calls|)
    ensures MountsWith(longer, n, options)
  {
  }

  /** One of the calls since the first n made the directory that is given by the path and the components below it. */
  ghost predicate MadeBelow(calls: seq<Call>, n: nat, path: string, below: seq<string>)
  {
    exists i | n <= i < |calls| ::
      calls[i].DirMade? && calls[i].ok && Components(calls[i].path) == Components(path) + below
  }

  lemma DeliveredLater(run: seq<View>, next: seq<View>, target: string, source: string, options: seq<string>)
    requires run != [] && Delivered(next, target, source, options) && run[|run| - 1] == next[0]
    ensures Delivered(run + next[1..], target, source, options)
  {
    var all := run + next[1..];
    assert all[|all| - 1] == next[|next| - 1];
    assert all[|all| - 2] == next[|next| - 2];
  }

  // ---- When a publish fails ----

  /** The call at i failed, and is not the deferred unmount, which follows the making of the sub-directory. */
  predicate Harms(calls: seq<Call>, n: nat, i: nat)
    requires i < |calls|
  {
    !Fine(calls[i]) && !(i > n && calls[i].Cleaned? && calls[i - 1].DirMade?)
  }

  /** One of the calls made since the first n failed, other than a deferred unmount. */
  ghost predicate Harmed(calls: seq<Call>, n: nat)
  {
    exists i | n <= i < |calls| :: Harms(calls, n, i)
  }

  lemma HarmOneMore(calls: seq<Call>, n: nat, c: Call)
    requires n <= |calls|
    ensures Harmed(calls + [c], n) <==>
            Harmed(calls, n) || (!Fine(c) && !(|calls| > n && c.Cleaned? && calls[|calls| - 1].DirMade?))
  {
    hide Fine;
    var all := calls + [c];
    assert forall i: nat | i < |calls| :: Harms(all, n, i) <==> Harms(calls, n, i);
    assert all[|calls|] == c;
    assert Harms(all, n, |calls|) <==> !Fine(c) && !(|calls| > n && c.Cleaned? && calls[|calls| - 1].DirMade?);
  }

  lemma {:induction false} HarmMore(calls: seq<Call>, n: nat, more: seq<Call>)
    requires n <= |calls| && forall c | c in more :: !c.Cleaned?
    ensures Harmed(calls + more, n) <==> Harmed(calls, n) || exists c | c in more :: !Fine(c)
    decreases |more|
  {
    if more == [] {
      assert calls + more == calls;
    } else {
      var k := |more| - 1;
      HarmMore(calls, n, more[..k]);
      HarmOneMore(calls + more[..k], n, more[k]);
      assert calls + more == calls + more[..k] + [more[k]];
      assert more == more[..k] + [more[k]];
      hide Harmed, Fine;
    }
  }

  predicate Failing(pc: Pc)
  {
    pc == Done(false) || pc == UnmountWork(false)
  }

  /** The call that led to a place. */
  predicate Placed(v: View, n: nat)
  {
    && n <= |v.calls|
    && (v.pc.CleanWork? ==> |v.calls| > n && v.calls[|v.calls| - 1].DirRead?)
    && (v.pc.UnmountWork? ==> |v.calls| > n && v.calls[|v.calls| - 1].DirMade?)
  }

  /** A call is on its way to failure exactly when one of its calls did harm. */
  ghost predicate Tracked(v: View, n: nat)
  {
    Placed(v, n) && v.pc != Start && (Failing(v.pc) <==> Harmed(v.calls, n))
  }

  lemma EnsureTracked(a: View, b: View, path: string, mounted: Pc, unmounted: Pc, n: nat)
    requires EnsureStep(a, b, path, mounted, unmounted) && Tracked(a, n) && !Failing(a.pc)
    requires mounted in {CleanWork, Done(true)} && unmounted in {MountWork, MountTarget}
    ensures Tracked(b, n)
  {
    hide Harmed, Fine;
    EnsureStepEffect(a, b, path, mounted, unmounted);
    var more := b.calls[|a.calls|..];
    HarmMore(a.calls, n, more);
    assert b.calls == a.calls + more;
    assert more != [] ==> b.calls[|b.calls| - 1] == more[|more| - 1];
    hide EnsureStep;
  }

  lemma StepTracked(a: View, b: View, target: string, work: string, v: Volume, n: nat)
    requires PublishStep(a, b, target, work, v) && Tracked(a, n)
    ensures Tracked(b, n)
    ensures b.pc == Done(true) ==> At(b.mounts, target) != []
  {
    hide AllowedSource, Components, Harmed;
    if a.pc.CheckWork? {
      EnsureTracked(a, b, work, CleanWork, MountWork, n);
    } else if a.pc.CheckTarget? {
      EnsureStepEffect(a, b, target, Done(true), MountTarget);
      EnsureTracked(a, b, target, Done(true), MountTarget, n);
    } else {
      assert b.calls == a.calls + [b.calls[|a.calls|]];
      HarmOneMore(a.calls, n, b.calls[|a.calls|]);
    }
    hide EnsureStep;
  }

  lemma StartTracked(a: View, b: View, target: string, work: string, v: Volume)
    requires PublishStep(a, b, target, work, v) && a.pc == Start
    ensures b.pc == Done(false) ==> v.subDir && !v.pathOk
    ensures b.pc != Done(false) ==> Tracked(b, |a.calls|)
    ensures b.pc != Done(true)
  {
  }

  lemma {:induction false} RunTracked(run: seq<View>, target: string, work: string, v: Volume, i: nat)
    requires IsPath(run, target, work, v) && run[0].pc == Start && 1 <= i < |run| && run[1].pc != Done(false)
    ensures Tracked(run[i], |run[0].calls|)
    ensures run[i].pc == Done(true) ==> At(run[i].mounts, target) != []
  {
    hide PublishStep, Tracked;
    assert PublishStep(run[i - 1], run[i], target, work, v);
    if i == 1 {
      StartTracked(run[0], run[1], target, work, v);
    } else {
      RunTracked(run, target, work, v, i - 1);
      StepTracked(run[i - 1], run[i], target, work, v, |run[0].calls|);
    }
  }

  /** A publish fails exactly when its working path is needed and does not pass its check, or one of its mounter calls
      fails, other than the deferred unmount. When it succeeds its target is mounted. */
  lemma FailsIff(run: seq<View>, a: View, b: View, target: string, work: string, v: Volume)
    requires Leads(run, a, b, target, work, v) && a.pc == Start && b.pc.Done?
    ensures b.pc == Done(false) <==> run[1].pc == Done(false) || Harmed(b.calls, |a.calls|)
    ensures run[1].pc == Done(false) ==> v.subDir && !v.pathOk
    ensures b.pc == Done(true) ==> At(b.mounts, target) != []
  {
    var n := |run| - 1;
    assert PublishStep(run[0], run[1], target, work, v);
    StartTracked(run[0], run[1], target, work, v);
    if run[1].pc == Done(false) {
      assert n > 1 ==> PublishStep(run[1], run[2], target, work, v);
    } else {
      RunTracked(run, target, work, v, n);
    }
  }

  /** A mount that cannot be read costs one publish. There is a run of the call that unmounts it and fails, with
      nothing left on the target; and every publish that follows from there without a harmful failure mounts the
      target again, unless it needs a working path and that does not pass its check. */
  lemma UnreadableMountFailsOnce(a: View, target: string, work: string, v: Volume) returns (run: seq<View>, b: View)
    requires a.pc == Start && |At(a.mounts, target)| == 1
    ensures Leads(run, a, b, target, work, v) && b.pc == Done(false) && At(b.mounts, target) == []
    ensures b.calls == a.calls + [Probed(target, Ok(true)), DirRead(target, false), Unmounted(target, true)]
    ensures forall next: seq<View>, c: View |
              Leads(next, b.(pc := Start), c, target, work, v) && c.pc.Done? && !Harmed(c.calls, |b.calls|) ::
              || (c.pc == Done(true) && At(c.mounts, target) != [])
              || (v.subDir && !v.pathOk && next[1].pc == Done(false))
  {
    var calls := [Probed(target, Ok(true)), DirRead(target, false), Unmounted(target, true)];
    var check := a.(pc := CheckTarget);
    b := View(Done(false), a.mounts[target := []], a.dirty, a.calls + calls);
    assert b.calls[|check.calls|..] == calls;
    assert EnsureRun(target, At(check.mounts, target), At(b.mounts, target), calls, Err(INTERNAL));
    run := [a, check, b];
    assert PublishStep(check, b, target, work, v);
    assert PublishStep(a, check, target, work, v);
    hide PublishStep;
    forall next: seq<View>, c: View |
      Leads(next, b.(pc := Start), c, target, work, v) && c.pc.Done? && !Harmed(c.calls, |b.calls|)
      ensures || (c.pc == Done(true) && At(c.mounts, target) != [])
              || (v.subDir && !v.pathOk && next[1].pc == Done(false))
    {
      FailsIff(next, b.(pc := Start), c, target, work, v);
    }
  }
}
