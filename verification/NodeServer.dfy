/** NodePublishVolume and NodeUnpublishVolume, call by call: each run of the code is a sequence of the steps the
    interleaving model is made of. */
module NodeServer {
  import opened Text
  import opened GrpcErrors
  import opened FoldMaps
  import opened Paths
  import opened VolumeIdentity
  import opened MountSteps
  import opened NodeMounts
  import L = VolumeLocks

  /** The mounter of a node; every call may fail. All calls are logged with their answers. */
  class Mounter {
    var mounts: Mounts
    /** Working paths whose last cleanup failed. */
    ghost var dirty: set<string>
    ghost var calls: seq<Call>

    /** Mounts that were there before. */
    constructor (mounts: Mounts, ghost dirty: set<string>)
      ensures this.mounts == mounts && this.dirty == dirty && calls == []
    {
      this.mounts, this.dirty, calls := mounts, dirty, [];
    }

    /** The mount-point test is accurate if it does not fail; a corrupted mount counts as mounted. */
    method Probe(path: string) returns (r: Result<bool>)
      modifies this`calls
      ensures calls == old(calls) + [Probed(path, r)]
      ensures match r case Err(e) => e == INTERNAL case Ok(mounted) => mounted == (At(mounts, path) != [])
    {
      var failed: bool := *;
      r := if failed then Err(INTERNAL) else Ok(At(mounts, path) != []);
      calls := calls + [Probed(path, r)];
    }

    method ReadDir(path: string) returns (ok: bool)
      modifies this`calls
      ensures calls == old(calls) + [DirRead(path, ok)]
    {
      ok := *;
      calls := calls + [DirRead(path, ok)];
    }

    method MakeDir(path: string) returns (ok: bool)
      modifies this`calls
      ensures calls == old(calls) + [DirMade(path, ok)]
    {
      ok := *;
      calls := calls + [DirMade(path, ok)];
    }

    method Mount(path: string, source: string, options: seq<string>) returns (ok: bool)
      modifies this`mounts, this`calls
      ensures calls == old(calls) + [Mounted(path, source, options, ok)] && OnlyAt(old(mounts), mounts, path)
      ensures At(mounts, path) == if ok then At(old(mounts), path) + [source] else At(old(mounts), path)
    {
      ok := *;
      if ok {
        mounts := mounts[path := At(mounts, path) + [source]];
      }
      calls := calls + [Mounted(path, source, options, ok)];
    }

    method Unmount(path: string) returns (ok: bool)
      modifies this`mounts, this`calls
      ensures calls == old(calls) + [Unmounted(path, ok)] && OnlyAt(old(mounts), mounts, path)
      ensures At(mounts, path) == if ok then Popped(At(old(mounts), path)) else At(old(mounts), path)
    {
      ok := *;
      if ok {
        mounts := mounts[path := Popped(At(mounts, path))];
      }
      calls := calls + [Unmounted(path, ok)];
    }

    /** Success means that nothing is mounted there any more; after a failure some of the mounts may be gone. */
    method CleanupMountWithForce(path: string) returns (ok: bool)
      modifies this`mounts, this`calls
      ensures calls == old(calls) + [Cleaned(path, ok)] && OnlyAt(old(mounts), mounts, path)
      ensures if ok then At(mounts, path) == [] else At(mounts, path) <= At(old(mounts), path)
    {
      ok := *;
      var left: int := *;
      if ok {
        mounts := mounts[path := []];
      } else if 0 <= left < |At(mounts, path)| {
        mounts := mounts[path := At(mounts, path)[..left]];
      }
      calls := calls + [Cleaned(path, ok)];
    }

    /** ensureMountPoint. A mount that cannot be read is unmounted, and the error of reading it is returned even
        then. */
    method EnsureMountPoint(path: string) returns (r: Result<bool>)
      modifies this`mounts, this`calls
      ensures OnlyAt(old(mounts), mounts, path) && old(calls) <= calls
      ensures EnsureRun(path, At(old(mounts), path), At(mounts, path), calls[|old(calls)|..], r)
      ensures MountsNothing(calls, |old(calls)|)
      ensures r.Ok? ==> At(mounts, path) == At(old(mounts), path) && r.value == (At(mounts, path) != [])
    {
      var probe := Probe(path);
      if probe.Err? {
        return probe;
      }
      if probe.value {
        var readable := ReadDir(path);
        if readable {
          return Ok(true);
        }
        var unmounted := Unmount(path);
        return Err(INTERNAL);
      }
      var made := MakeDir(path);
      r := if made then Ok(false) else Err(INTERNAL);
    }
  }

  // ---- Mount options ----

  const RO := "ro"

  function WithoutRo(flags: seq<string>): seq<string>
  {
    if flags == [] then []
    else WithoutRo(flags[..|flags| - 1]) + (if flags[|flags| - 1] == RO then [] else [flags[|flags| - 1]])
  }

  /** A read-only request puts "ro" first and drops it from the user's flags. */
  function OptionsFor(readOnlyRequest: bool, flags: seq<string>): seq<string>
  {
    if readOnlyRequest then [RO] + WithoutRo(flags) else flags
  }

  lemma OptionsOneMore(readOnlyRequest: bool, flags: seq<string>, i: nat)
    requires i < |flags|
    ensures OptionsFor(readOnlyRequest, flags[..i + 1]) ==
            OptionsFor(readOnlyRequest, flags[..i]) + (if readOnlyRequest && flags[i] == RO then [] else [flags[i]])
    ensures RO in flags[..i + 1] <==> RO in flags[..i] || flags[i] == RO
  {
    hide RO;
    assert flags[..i + 1][..i] == flags[..i];
    assert flags[..i + 1] == flags[..i] + [flags[i]];
  }

  /** What the options are: the user's flags, or for a read-only request "ro" once, at the front, and the other flags in
      their order and multiplicity. */
  lemma OptionsMeaning(flags: seq<string>)
    ensures OptionsFor(false, flags) == flags
    ensures var options := OptionsFor(true, flags);
            && |options| >= 1 && options[0] == "ro" && "ro" !in options[1..]
            && (forall x | x != "ro" :: multiset(options)[x] == multiset(flags)[x])
            && ("ro" !in flags ==> options[1..] == flags)
  {
    RoIsDropped(flags);
    assert OptionsFor(true, flags) == ["ro"] + WithoutRo(flags);
    forall x | x != "ro" ensures multiset(["ro"] + WithoutRo(flags))[x] == multiset(flags)[x] {
      OthersAreKept(flags, x);
    }
    hide WithoutRo, OptionsFor;
  }

  lemma {:induction false} RoIsDropped(flags: seq<string>)
    ensures RO !in WithoutRo(flags) && (RO !in flags ==> WithoutRo(flags) == flags)
  {
    hide RO;
    if flags != [] {
      var n := |flags| - 1;
      RoIsDropped(flags[..n]);
      assert flags == flags[..n] + [flags[n]];
    }
  }

  lemma {:induction false} OthersAreKept(flags: seq<string>, x: string)
    requires x != RO
    ensures multiset(WithoutRo(flags))[x] == multiset(flags)[x]
  {
    hide RO;
    if flags != [] {
      var n := |flags| - 1;
      OthersAreKept(flags[..n], x);
      assert flags == flags[..n] + [flags[n]];
      CountOneMore(flags[..n], flags[n], x);
      var rest := WithoutRo(flags[..n]);
      assert WithoutRo(flags) == if flags[n] == RO then rest else rest + [flags[n]];
      CountOneMore(rest, flags[n], x);
      hide WithoutRo;
    }
  }

  lemma CountOneMore<T>(s: seq<T>, last: T, x: T)
    ensures multiset(s + [last])[x] == multiset(s)[x] + if last == x then 1 else 0
  {
  }

  /** getMountOptions. */
  method GetMountOptions(readOnlyRequest: bool, flags: seq<string>) returns (options: seq<string>, readOnly: bool)
    ensures readOnly <==> readOnlyRequest || "ro" in flags
    ensures options == OptionsFor(readOnlyRequest, flags)
    ensures readOnly ==> "ro" in options
  {
    OptionsMeaning(flags);
    readOnly, options := false, [];
    if readOnlyRequest {
      readOnly, options := true, [RO];
    }
    assert options == OptionsFor(readOnlyRequest, flags[..0]) && RO == "ro";
    hide OptionsFor, RO;
    for i := 0 to |flags|
      invariant readOnly <==> readOnlyRequest || RO in flags[..i]
      invariant options == OptionsFor(readOnlyRequest, flags[..i])
    {
      OptionsOneMore(readOnlyRequest, flags, i);
      if flags[i] == RO {
        readOnly := true;
        if readOnlyRequest {
          continue;
        }
      }
      options := options + [flags[i]];
    }
    assert flags[..|flags|] == flags;
  }

  // ---- The server ----

  /** The volume getVolume finds for an ID and a context. */
  function VolumeOf(id: string, f: map<string, string>): Result<LustreVolume>
  {
    ReadVolume(id, if ParseId(id).Some? then ParseId(id).value.name else "", f)
  }

  /** A mount source for the volume: its filesystem at its address, or what the sub-directory becomes in the context f,
      below that. */
  ghost predicate IsSourceOf(v: LustreVolume, f: map<string, string>, source: string)
  {
    if v.subDir == "" then source == v.mgsIpAddress + "@tcp:/" + v.filesystem
    else exists inner :: Interpolates(f, v.subDir, inner) && IsStrictSubpath(inner) && IsBelow(v, inner, source)
  }

  /** The source is that of the directory inner of the volume's filesystem, strictly below its root. */
  ghost predicate IsBelow(v: LustreVolume, inner: string, source: string)
  {
    var root := v.mgsIpAddress + "@tcp:/" + v.filesystem;
    && source == JoinPath(root, inner) && Components(source) == Components(root) + Components(inner)
    && Components(inner) != [] && ".." !in Components(inner)
    && ('/' !in v.mgsIpAddress && v.filesystem == FILESYSTEM ==>
          Components(source) == [v.mgsIpAddress + "@tcp:", "lustrefs"] + Components(inner))
  }

  /** The sub-directory becomes something that is no strict subpath. */
  ghost predicate Escapes(v: LustreVolume, f: map<string, string>)
  {
    v.subDir != "" && exists inner :: Interpolates(f, v.subDir, inner) && !IsStrictSubpath(inner)
  }

  /** The volume of a target, as the steps see it. */
  function Purpose(v: LustreVolume, pathOk: bool): Volume
  {
    Volume(v.id, SourceString(v.mgsIpAddress, v.filesystem), v.subDir != "", pathOk)
  }

  /** The first step of a publish: by the working path if there is a sub-directory to be made. */
  function FirstStep(v: Volume, readOnly: bool): Pc
  {
    if v.subDir && !readOnly then (if v.pathOk then CheckWork else Done(false)) else CheckTarget
  }

  /** What a successful publish did: the target is mounted from the source by its last step, or was found mounted; the
      sub-directory was made if there is one and the volume is writable, and what was made below the working path is
      what the source has below the filesystem's root; the table changed nowhere else unless it was. */
  ghost predicate Published(v: LustreVolume, f: map<string, string>, target: string, work: string, readOnly: bool,
                            source: string, options: seq<string>, run: seq<View>)
  {
    && run != [] && v.filesystem == FILESYSTEM && IsSourceOf(v, f, source) && Delivered(run, target, source, options)
    && (readOnly ==> "ro" in options)
    && (MadeSubDir(run) <==> v.subDir != "" && !readOnly)
    && (v.subDir == "" || readOnly ==> OnlyAt(run[0].mounts, run[|run| - 1].mounts, target))
    && (v.subDir != "" && !readOnly ==>
          exists inner :: IsBelow(v, inner, source)
                          && MadeBelow(run[|run| - 1].calls, |run[0].calls|, work, Components(inner)))
  }

  class Server {
    const locks: L.Locks
    const mounter: Mounter
    const workingDir: string

    constructor (workingDir: string, mounts: Mounts, ghost dirty: set<string>)
      ensures fresh(locks) && fresh(mounter) && this.workingDir == workingDir
      ensures locks.locks == {} && mounter.mounts == mounts && mounter.dirty == dirty && mounter.calls == []
    {
      this.workingDir := workingDir;
      locks := new L.Locks();
      mounter := new Mounter(mounts, dirty);
    }

    ghost function Here(pc: Pc): View
      reads mounter
    {
      View(pc, mounter.mounts, mounter.dirty, mounter.calls)
    }

    /** The working path of a target, or any text if there is none. */
    ghost function WorkOf(target: string): string
    {
      var path := InternalMountPath(workingDir, target);
      if path.Ok? then path.value else ""
    }

    /** Whether a target passes the check of its working path. */
    predicate PathOk(target: string)
    {
      InternalMountPath(workingDir, target).Ok?
    }

    /** When a publish fails once it has begun: its working path is needed and does not pass its check, or a call
        since the first n fails, other than the deferred unmount. */
    ghost predicate Fails(v: LustreVolume, target: string, readOnly: bool, calls: seq<Call>, n: nat)
    {
      (v.subDir != "" && !readOnly && !PathOk(target)) || Harmed(calls, n)
    }

    method InternalUnmount(work: string) returns (ok: bool)
      modifies mounter
      ensures mounter.calls == old(mounter.calls) + [Cleaned(work, ok)]
      ensures OnlyAt(old(mounter.mounts), mounter.mounts, work)
      ensures if ok then At(mounter.mounts, work) == [] else At(mounter.mounts, work) <= At(old(mounter.mounts), work)
      ensures mounter.dirty == if ok then old(mounter.dirty) - {work} else old(mounter.dirty) + {work}
    {
      ok := mounter.CleanupMountWithForce(work);
      mounter.dirty := if ok then mounter.dirty - {work} else mounter.dirty + {work};
    }

    /** The first part of internalMount: a mount left on the working path is removed. */
    method ClearWorkingPath(work: string, ghost target: string, ghost v: Volume)
      returns (ok: bool, ghost run: seq<View>)
      modifies mounter
      ensures Leads(run, old(Here(CheckWork)), Here(if ok then MountWork else Done(false)), target, work, v)
      ensures old(mounter.calls) <= mounter.calls && MountsNothing(mounter.calls, |old(mounter.calls)|)
    {
      hide EnsureRun, Leads, PublishStep;
      ghost var first := Here(CheckWork);
      run := [first];
      StandsStill(first, target, work, v);
      var mounted := mounter.EnsureMountPoint(work);
      ghost var checked := Here(AfterEnsure(mounted, CleanWork, MountWork));
      ByCheck(first, checked, target, work, v);
      Extend(run, first, first, checked, target, work, v);
      run := run + [checked];
      ok := mounted.Ok?;
      if mounted == Ok(true) {
        ok := InternalUnmount(work);
        ghost var cleaned := Here(if ok then MountWork else Done(false));
        ByCleanup(checked, cleaned, target, work, v);
        Extend(run, first, checked, cleaned, target, work, v);
        run := run + [cleaned];
      }
    }

    method InternalMount(work: string, source: string, options: seq<string>, ghost target: string, ghost v: Volume)
      returns (ok: bool, ghost run: seq<View>)
      requires source == v.root
      modifies mounter
      ensures Leads(run, old(Here(CheckWork)), Here(if ok then MakeSubDir else Done(false)), target, work, v)
      ensures old(mounter.calls) <= mounter.calls && MountsWith(mounter.calls, |old(mounter.calls)|, options)
    {
      hide Leads, PublishStep;
      ghost var first := Here(CheckWork);
      ok, run := ClearWorkingPath(work, target, v);
      if !ok {
        return;
      }
      ghost var ready := Here(MountWork);
      ok := mounter.Mount(work, source, options);
      ghost var last := Here(if ok then MakeSubDir else Done(false));
      ByMount(ready, last, target, work, v);
      Extend(run, first, ready, last, target, work, v);
      run := run + [last];
    }

    /** createSubDir; the deferred unmount runs whether or not the directory was made. The path of the directory
        passes its check because the target and the sub-directory passed theirs. */
    method CreateSubDir(work: string, target: string, inner: string, source: string, options: seq<string>,
                        ghost v: Volume)
      returns (ok: bool, ghost run: seq<View>)
      requires InternalMountPath(workingDir, target) == Ok(work) && IsStrictSubpath(inner) && source == v.root
      modifies mounter
      ensures Leads(run, old(Here(CheckWork)), Here(if ok then CheckTarget else Done(false)), target, work, v)
      ensures ok ==> MadeSubDir(run)
      ensures old(mounter.calls) <= mounter.calls && MountsWith(mounter.calls, |old(mounter.calls)|, options)
      ensures ok ==> MadeBelow(mounter.calls, |old(mounter.calls)|, work, Components(inner))
    {
      hide InternalMountPath, InternalVolumePath, IsStrictSubpath, Components, EnsureStep, MountStep, MountTargetStep,
           Leads;
      DirectoryBelow(workingDir, target, inner);
      var dir := InternalVolumePath(workingDir, target, inner);
      ghost var first := Here(CheckWork);
      ok, run := InternalMount(work, source, options, target, v);
      if !ok {
        return;
      }
      ghost var mounted := Here(MakeSubDir);
      var made := mounter.MakeDir(dir.value);
      ghost var unmounting := Here(UnmountWork(made));
      assert MakeDirStep(mounted, unmounting, work, made);
      Extend(run, first, mounted, unmounting, target, work, v);
      run := run + [unmounting];
      var unmounted := InternalUnmount(work);
      ghost var last := Here(if made then CheckTarget else Done(false));
      assert PublishStep(unmounting, last, target, work, v);
      Extend(run, first, unmounting, last, target, work, v);
      run := run + [last];
      ok := made;
      assert unmounting in run;
      assert mounter.calls[|mounted.calls|] == DirMade(dir.value, made);
    }

    /** The last part of a publish: the mount on the target itself. */
    method MountTargetPath(target: string, source: string, options: seq<string>, ghost work: string, ghost v: Volume)
      returns (ok: bool, ghost run: seq<View>)
      requires AllowedSource(v, source)
      modifies mounter
      ensures OnlyAt(old(mounter.mounts), mounter.mounts, target)
      ensures Leads(run, old(Here(CheckTarget)), Here(Done(ok)), target, work, v) && !MadeSubDir(run)
      ensures ok ==> Delivered(run, target, source, options)
      ensures old(mounter.calls) <= mounter.calls && MountsWith(mounter.calls, |old(mounter.calls)|, options)
    {
      hide AllowedSource, EnsureRun, PublishStep, MountsNothing, Leads, Delivered;
      ghost var first := Here(CheckTarget);
      run := [first];
      StandsStill(first, target, work, v);
      var mounted := mounter.EnsureMountPoint(target);
      ghost var checked := Here(AfterEnsure(mounted, Done(true), MountTarget));
      ByLook(first, checked, target, work, v);
      Extend(run, first, first, checked, target, work, v);
      run := run + [checked];
      MountsWithMore(first.calls, |first.calls|, options, checked.calls);
      if mounted.Err? {
        return false, run;
      }
      if mounted.value {
        FoundMounted(first, checked, target, source, options);
        return true, run;
      }
      ok := mounter.Mount(target, source, options);
      ghost var last := Here(Done(ok));
      ByTargetMount(checked, last, target, work, v, source);
      Extend(run, first, checked, last, target, work, v);
      run := run + [last];
      if ok {
        NowMounted(first, checked, last, target, source, options);
      }
    }

    /** The mounts of a publish: the way by the working path if a directory is to be made, then the target. */
    method PublishMounts(target: string, root: string, inner: string, source: string, options: seq<string>,
                         readOnly: bool, ghost v: Volume)
      returns (ok: bool, ghost run: seq<View>)
      requires root == v.root && v.subDir == (inner != "") && (inner != "" ==> IsStrictSubpath(inner))
      requires v.pathOk == PathOk(target)
      requires AllowedSource(v, source)
      modifies mounter
      ensures Leads(run, old(Here(Start)), Here(Done(ok)), target, WorkOf(target), v)
      ensures |run| > 1 && run[1].pc == FirstStep(v, readOnly)
      ensures ok ==> Delivered(run, target, source, options) && (MadeSubDir(run) <==> v.subDir && !readOnly)
      ensures !v.subDir || readOnly ==> OnlyAt(old(mounter.mounts), mounter.mounts, target)
      ensures old(mounter.calls) <= mounter.calls && MountsWith(mounter.calls, |old(mounter.calls)|, options)
      ensures ok && v.subDir && !readOnly ==>
                MadeBelow(mounter.calls, |old(mounter.calls)|, WorkOf(target), Components(inner))
    {
      hide InternalMountPath, AllowedSource, IsStrictSubpath, EnsureStep, MountTargetStep, CleanWorkStep, MountStep,
           MakeDirStep;
      var path := InternalMountPath(workingDir, target);
      ghost var work := WorkOf(target);
      ghost var first := Here(Start);
      run := [first];
      ghost var part: seq<View>;
      if inner != "" && !readOnly {
        if path.Err? {
          Extend(run, first, first, Here(Done(false)), target, work, v);
          return false, run + [Here(Done(false))];
        }
        ghost var check := Here(CheckWork);
        Extend(run, first, first, check, target, work, v);
        run := run + [check];
        ok, part := CreateSubDir(path.value, target, inner, root, options, v);
        Append(run, part, first, check, Here(if ok then CheckTarget else Done(false)), target, work, v);
        MadeInEither(run, part);
        run := run + part[1..];
        if !ok {
          return;
        }
      } else {
        Extend(run, first, first, Here(CheckTarget), target, work, v);
        run := run + [Here(CheckTarget)];
      }
      hide PublishStep;
      ghost var middle := Here(CheckTarget);
      ok, part := MountTargetPath(target, source, options, work, v);
      Append(run, part, first, middle, Here(Done(ok)), target, work, v);
      MadeInEither(run, part);
      if ok {
        DeliveredLater(run, part, target, source, options);
      }
      hide Delivered;
      run := run + part[1..];
    }

    /** The source of a volume's mount and the sub-directory in the filesystem, empty when there is none. */
    method MountSource(v: LustreVolume, m: map<string, string>) returns (r: Result<(string, string)>)
      requires FoldDistinct(m)
      ensures r.Err? ==> r.error == INVALID && Escapes(v, Folded(m))
      ensures r.Ok? ==> IsSourceOf(v, Folded(m), r.value.0) && AllowedSource(Purpose(v, true), r.value.0)
      ensures r.Ok? ==> (r.value.1 != "" <==> v.subDir != "") && (r.value.1 != "" ==> IsStrictSubpath(r.value.1))
      ensures r.Ok? && v.subDir != "" ==> IsBelow(v, r.value.1, r.value.0)
    {
      hide KeyText, Lower, Folded, Components, IsStrictSubpath, Interpolates, JoinPath, FoldDistinct;
      var source := SourceString(v.mgsIpAddress, v.filesystem);
      if v.subDir == "" {
        return Ok((source, ""));
      }
      var interpolated := InterpolateSubDirVariables(m, v.subDir);
      if !IsStrictSubpath(interpolated) {
        return Err(INVALID);
      }
      SourceIsBelow(v, interpolated);
      hide IsBelow;
      return Ok((JoinPath(source, interpolated), interpolated));
    }

    /** The part of NodePublishVolume under the lock. */
    method PublishVolume(v: LustreVolume, target: string, m: map<string, string>, readOnlyRequest: bool,
                         flags: seq<string>)
      returns (r: Result<()>, source: string, options: seq<string>, ghost run: seq<View>)
      requires FoldDistinct(m) && v.id + "-" + target in locks.locks
      modifies mounter
      ensures run == [] ==> r == Err(INVALID) && Escapes(v, Folded(m))
      ensures run == [] ==> Here(Start) == old(Here(Start))
      ensures options == OptionsFor(readOnlyRequest, flags)
      ensures run != [] ==>
                Leads(run, old(Here(Start)), Here(Done(r.Ok?)), target, WorkOf(target), Purpose(v, PathOk(target)))
      ensures run != [] ==>
                r == if Fails(v, target, readOnlyRequest || "ro" in flags, mounter.calls, |old(mounter.calls)|)
                then Err(INTERNAL) else Ok(())
      ensures r.Ok? && v.filesystem == FILESYSTEM ==>
                Published(v, Folded(m), target, WorkOf(target), readOnlyRequest || "ro" in flags, source, options, run)
      ensures old(mounter.calls) <= mounter.calls && MountsWith(mounter.calls, |old(mounter.calls)|, options)
    {
      hide FoldDistinct, IsSourceOf, Escapes, Folded, InternalMountPath, PublishStep, MadeSubDir,
           Delivered, SourceString, IsStrictSubpath, Harmed, RO;
      source, run := "", [];
      var readOnly;
      options, readOnly := GetMountOptions(readOnlyRequest, flags);
      ghost var purpose := Purpose(v, PathOk(target));
      ghost var first := Here(Start);
      var from := MountSource(v, m);
      if from.Err? {
        return Err(from.error), source, options, run;
      }
      source := from.value.0;
      var root := SourceString(v.mgsIpAddress, v.filesystem);
      var ok;
      ok, run := PublishMounts(target, root, from.value.1, source, options, readOnly, purpose);
      FailsIff(run, first, Here(Done(ok)), target, WorkOf(target), purpose);
      r := if ok then Ok(()) else Err(INTERNAL);
    }

    /** NodePublishVolume. The run is empty if the request was refused before any mounter call. */
    method NodePublishVolume(capability: bool, id: string, target: string, context: Parameters?, readOnlyRequest: bool,
                             flags: seq<string>)
      returns (r: Result<()>, source: string, options: seq<string>, ghost run: seq<View>)
      requires context != null ==> FoldDistinct(context.m)
      modifies locks, mounter
      ensures locks.locks == old(locks.locks)
      ensures run == [] ==> r.Err? && Here(Start) == old(Here(Start))
      ensures run != [] ==> options == OptionsFor(readOnlyRequest, flags)
      ensures if !capability || id == "" || target == "" || context == null then
                r == Err(Status(InvalidArgument, PLAIN)) && run == []
              else
                match VolumeOf(id, Folded(context.m))
                case Err(e) => r == Err(Status(InvalidArgument, PLAIN)) && run == []
                case Ok(v) =>
                  if id + "-" + target in old(locks.locks) then
                    r == Err(Status(Aborted, PLAIN)) && run == []
                  else
                    && (run == [] ==> r == Err(Status(InvalidArgument, PLAIN)) && Escapes(v, Folded(context.m)))
                    && (run != [] ==>
                          && (r.Err? <==> Fails(v, target, readOnlyRequest || "ro" in flags, mounter.calls,
                                                |old(mounter.calls)|))
                          && (r.Err? ==> r.error == Status(Internal, PLAIN))
                          && Leads(run, old(Here(Start)), Here(Done(r.Ok?)), target, WorkOf(target),
                                   Purpose(v, PathOk(target))))
                    && (r.Ok? ==>
                          Published(v, Folded(context.m), target, WorkOf(target), readOnlyRequest || "ro" in flags,
                                    source, options, run))
      ensures old(mounter.calls) <= mounter.calls && MountsWith(mounter.calls, |old(mounter.calls)|, options)
    {
      hide KeyText, Lower, Folded, FoldDistinct, ReadVolume, ParseId, Escapes, Leads, InternalMountPath, Published,
           Purpose, Harmed, RO;
      source, options, run := "", [], [];
      if !capability || id == "" || target == "" || context == null {
        return Err(INVALID), source, options, run;
      }
      var volume, mismatch := GetVolume(id, context.m);
      ReadFilesystem(id, if ParseId(id).Some? then ParseId(id).value.name else "", Folded(context.m));
      if volume.Err? {
        return Err(volume.error), source, options, run;
      }
      var key := L.Key(L.PublishVolume(id, target));
      var acquired := locks.TryAcquire(key);
      if !acquired {
        return Err(ABORTED), source, options, run;
      }
      r, source, options, run := PublishVolume(volume.value, target, context.m, readOnlyRequest, flags);
      locks.Release(key);
    }

    /** NodeUnpublishVolume. */
    method NodeUnpublishVolume(id: string, target: string) returns (r: Result<()>, ghost run: seq<View>)
      modifies locks, mounter
      ensures locks.locks == old(locks.locks)
      ensures OnlyAt(old(mounter.mounts), mounter.mounts, target) && mounter.dirty == old(mounter.dirty)
      ensures run == [] ==>
                r == Err(if id == "" || target == "" then INVALID else ABORTED) && Here(Start) == old(Here(Start))
      ensures run == [] <==> id == "" || target == "" || id + "-" + target in old(locks.locks)
      ensures run != [] ==> run[0] == old(Here(Start)) && run[|run| - 1] == Here(Done(r.Ok?))
      ensures forall i | 0 <= i < |run| - 1 :: UnpublishStep(run[i], run[i + 1], target)
      ensures r.Ok? ==> At(mounter.mounts, target) == []
    {
      run := [];
      if id == "" || target == "" {
        return Err(INVALID), run;
      }
      var key := L.Key(L.UnpublishVolume(id, target));
      var acquired := locks.TryAcquire(key);
      if !acquired {
        return Err(ABORTED), run;
      }
      r, run := UnpublishHeld(id, target);
      locks.Release(key);
    }

    /** The part of NodeUnpublishVolume under the lock. */
    method UnpublishHeld(id: string, target: string) returns (r: Result<()>, ghost run: seq<View>)
      requires id + "-" + target in locks.locks
      modifies mounter
      ensures OnlyAt(old(mounter.mounts), mounter.mounts, target) && mounter.dirty == old(mounter.dirty)
      ensures run != [] && run[0] == old(Here(Start)) && run[|run| - 1] == Here(Done(r.Ok?))
      ensures forall i | 0 <= i < |run| - 1 :: UnpublishStep(run[i], run[i + 1], target)
      ensures r == if At(mounter.mounts, target) == [] && run[|run| - 1].pc.ok then Ok(()) else Err(INTERNAL)
    {
      ghost var first := Here(Start);
      var badPath: bool := *;
      if badPath {
        ghost var forcing := Here(Force);
        var unmounted := mounter.Unmount(target);
        run := [first, forcing, Here(Cleanup)];
      } else {
        run := [first, Here(Cleanup)];
      }
      ghost var cleaning := Here(Cleanup);
      var ok := mounter.CleanupMountWithForce(target);
      assert UnpublishStep(cleaning, Here(Done(ok)), target);
      run := run + [Here(Done(ok))];
      r := if ok then Ok(()) else Err(INTERNAL);
    }
  }

  /** The source of a directory in a volume. */
  lemma SourceIsBelow(v: LustreVolume, inner: string)
    requires IsStrictSubpath(inner) && v.subDir != ""
    ensures IsBelow(v, inner, JoinPath(SourceString(v.mgsIpAddress, v.filesystem), inner))
    ensures inner != "" && AllowedSource(Purpose(v, true), JoinPath(SourceString(v.mgsIpAddress, v.filesystem), inner))
  {
    var root := SourceString(v.mgsIpAddress, v.filesystem);
    assert root == v.mgsIpAddress + "@tcp:/" + v.filesystem;
    hide Components, IsStrictSubpath, JoinPath, SourceString;
    StrictSubpathMeaning(inner);
    assert IsLocal(inner) by { LocalSubpath(inner); }
    JoinAppends(root, inner);
    if '/' !in v.mgsIpAddress && v.filesystem == FILESYSTEM {
      assert root == v.mgsIpAddress + "@tcp:/lustrefs";
      SourceComponents(v.mgsIpAddress);
    }
    var parts := Components(JoinPath(root, inner));
    assert parts[|Components(root)|..] == Components(inner);
  }

  lemma LocalSubpath(s: string)
    requires IsStrictSubpath(s)
    ensures IsLocal(s)
  {
  }

  lemma ReadFilesystem(id: string, name: string, f: map<string, string>)
    ensures ReadVolume(id, name, f).Ok? ==>
              ReadVolume(id, name, f).value.filesystem == FILESYSTEM && ReadVolume(id, name, f).value.id == id
    ensures ReadVolume(id, name, f).Err? ==> ReadVolume(id, name, f).error == INVALID
  {
    hide KeyText;
  }

  /** The directory to make lies strictly below the working path. */
  lemma DirectoryBelow(workingDir: string, target: string, inner: string)
    requires InternalMountPath(workingDir, target).Ok? && IsStrictSubpath(inner)
    ensures var dir := InternalVolumePath(workingDir, target, inner);
            && dir.Ok?
            && Components(dir.value) ==
                 Components(InternalMountPath(workingDir, target).value) + Components(inner)
            && Components(InternalMountPath(workingDir, target).value) < Components(dir.value)
  {
    hide Components, IsStrictSubpath, JoinPath, Trim;
    VolumePathContainment(workingDir, target, inner);
  }

  lemma WorkingPath(workingDir: string, target: string)
    requires InternalMountPath(workingDir, target).Ok?
    ensures Components(InternalMountPath(workingDir, target).value) ==
              Components(workingDir) + Components(Trim(target, '/'))
  {
    hide Components, IsStrictSubpath, JoinPath, Trim;
    StrictSubpathMeaning(Trim(target, '/'));
    JoinAppends(workingDir, Trim(target, '/'));
  }

  /** The working paths of targets that pass the check, with pairwise different components and outside the working
      directory, satisfy what the interleaving model assumes of them. */
  lemma WorkingPathsAreValid(workingDir: string, volume: map<string, Volume>)
    requires forall t | t in volume :: InternalMountPath(workingDir, t).Ok?
    requires forall t, u | t in volume && u in volume && Components(Trim(t, '/')) == Components(Trim(u, '/')) :: t == u
    requires forall t | t in volume :: !(Components(workingDir) <= Components(t))
    ensures ValidConfig(Config(volume, map t | t in volume :: InternalMountPath(workingDir, t).value))
  {
    forall t | t in volume
      ensures InternalMountPath(workingDir, t).value !in volume
      ensures Components(InternalMountPath(workingDir, t).value) == Components(workingDir) + Components(Trim(t, '/'))
    {
      WorkingPath(workingDir, t);
    }
    hide InternalMountPath, Components, Trim;
    forall t, u | t in volume && u in volume
                  && InternalMountPath(workingDir, t).value == InternalMountPath(workingDir, u).value
      ensures t == u
    {
      var base, a, b := Components(workingDir), Components(Trim(t, '/')), Components(Trim(u, '/'));
      assert (base + a)[|base|..] == a && (base + b)[|base|..] == b;
    }
  }
}
