/** What any interleaving of publish and unpublish calls on a node keeps. */
module NodeMounts {
  import opened MountSteps
  import L = VolumeLocks

  // ---- Any number of concurrent calls ----

  /** Which volume each target belongs to, and the working path of each target. */
  datatype Config = Config(volume: map<string, Volume>, work: map<string, string>)

  /** One volume per target is in the type; working paths are distinct, and none is a target. */
  ghost predicate ValidConfig(c: Config)
  {
    && c.work.Keys == c.volume.Keys
    && (forall t, u | t in c.work && u in c.work && c.work[t] == c.work[u] :: t == u)
    && (forall t | t in c.work :: c.work[t] !in c.work)
  }

  predicate Admissible(c: Config, rpc: L.Rpc)
  {
    (rpc.PublishVolume? || rpc.UnpublishVolume?) && rpc.target in c.volume && rpc.id == c.volume[rpc.target].id
  }

  /** The locks and RPCs in flight, where each RPC that holds its lock is, and the table. */
  datatype State = State(core: L.State, pcs: map<nat, Pc>, mounts: Mounts, dirty: set<string>, calls: seq<Call>)

  function ViewOf(s: State, d: nat): View
    requires d in s.pcs
  {
    View(s.pcs[d], s.mounts, s.dirty, s.calls)
  }

  /** What is on a target and on its working path: at most one mount each, the first from a source the volume allows,
      the second from the root of its filesystem. */
  ghost predicate PathsOk(v: Volume, onTarget: seq<string>, onWork: seq<string>)
  {
    && |onTarget| <= 1 && (onTarget != [] ==> AllowedSource(v, onTarget[0]))
    && |onWork| <= 1 && (onWork != [] ==> onWork[0] == v.root)
  }

  ghost predicate TableOk(c: Config, m: Mounts)
  {
    forall t | t in c.work && t in c.volume :: PathsOk(c.volume[t], At(m, t), At(m, c.work[t]))
  }

  /** The plugin starts with a table that earlier calls may have left, with any mounted working path to be cleaned. */
  ghost predicate Init(c: Config, s: State)
  {
    && L.Init(s.core) && s.pcs == map[] && TableOk(c, s.mounts)
    && forall t | t in c.work && At(s.mounts, c.work[t]) != [] :: c.work[t] in s.dirty
  }

  ghost predicate CallStep(c: Config, rpc: L.Rpc, a: View, b: View)
    requires rpc.PublishVolume? || rpc.UnpublishVolume?
  {
    && rpc.target in c.work && rpc.target in c.volume
    && if rpc.PublishVolume? then PublishStep(a, b, rpc.target, c.work[rpc.target], c.volume[rpc.target])
       else UnpublishStep(a, b, rpc.target)
  }

  /** A client that holds its lock makes one step. */
  ghost predicate Work(c: Config, s: State, t: State, d: nat)
  {
    && d in s.core.holding && d in s.pcs && Admissible(c, s.core.holding[d])
    && t.core == s.core && d in t.pcs && t.pcs == s.pcs[d := t.pcs[d]]
    && CallStep(c, s.core.holding[d], ViewOf(s, d), ViewOf(t, d))
  }

  ghost predicate LockStep(c: Config, s: State, t: State, d: nat)
  {
    && t.mounts == s.mounts && t.dirty == s.dirty && t.calls == s.calls
    && (|| (exists rpc :: L.Arrive(s.core, t.core, d, rpc) && Admissible(c, rpc) && t.pcs == s.pcs)
        || (L.Acquire(s.core, t.core, d) && t.pcs == if d in t.core.holding then s.pcs[d := Start] else s.pcs)
        || (L.Return(s.core, t.core, d) && d in s.pcs && s.pcs[d].Done? && t.pcs == s.pcs - {d}))
  }

  ghost predicate StepBy(c: Config, s: State, t: State, d: nat)
  {
    LockStep(c, s, t, d) || Work(c, s, t, d)
  }

  ghost predicate Next(c: Config, s: State, t: State)
  {
    exists d: nat :: StepBy(c, s, t, d)
  }

  ghost predicate IsRun(c: Config, run: seq<State>)
  {
    run != [] && Init(c, run[0]) && forall i | 0 <= i < |run| - 1 :: Next(c, run[i], run[i + 1])
  }

  // ---- The invariant ----

  /** A call between making its working mount and unmounting it. */
  predicate HoldsWork(pc: Pc)
  {
    pc.MakeSubDir? || pc.UnmountWork?
  }

  /** What a call at a position knows about its own two paths. */
  predicate Knows(rpc: L.Rpc, pc: Pc, onTarget: nat, onWork: nat)
  {
    && (rpc.PublishVolume? ==> !pc.Force? && !pc.Cleanup?)
    && (rpc.UnpublishVolume? ==> pc.Start? || pc.Force? || pc.Cleanup? || pc.Done?)
    && (pc.MountWork? ==> onWork == 0)
    && (HoldsWork(pc) ==> onWork == 1)
    && (pc.MountTarget? ==> onTarget == 0)
    && (pc == Done(true) ==> onTarget == if rpc.PublishVolume? then 1 else 0)
  }

  ghost predicate CallsWellPlaced(c: Config, s: State)
  {
    && L.Inv(s.core) && L.Disjoint(s.core)
    && s.pcs.Keys == s.core.holding.Keys
    && (forall d | d in s.core.holding :: Admissible(c, s.core.holding[d]))
    && (forall d | d in s.core.waiting :: Admissible(c, s.core.waiting[d]))
  }

  ghost predicate CallKnows(c: Config, s: State, d: nat)
  {
    && d in s.pcs && d in s.core.holding && Admissible(c, s.core.holding[d])
    && var t := s.core.holding[d].target;
       t in c.work && Knows(s.core.holding[d], s.pcs[d], |At(s.mounts, t)|, |At(s.mounts, c.work[t])|)
  }

  ghost predicate CallsKnow(c: Config, s: State)
  {
    forall d | d in s.pcs :: CallKnows(c, s, d)
  }

  /** The client d is at work on the working path of the target. */
  ghost predicate WorksOn(s: State, d: nat, target: string)
  {
    && d in s.pcs && d in s.core.holding && s.core.holding[d].PublishVolume?
    && s.core.holding[d].target == target && HoldsWork(s.pcs[d])
  }

  ghost predicate Accounted(c: Config, s: State, target: string)
    requires target in c.work
  {
    At(s.mounts, c.work[target]) != [] ==> c.work[target] in s.dirty || exists d :: WorksOn(s, d, target)
  }

  ghost predicate AllAccounted(c: Config, s: State)
  {
    forall t | t in c.work :: Accounted(c, s, t)
  }

  ghost predicate Inv(c: Config, s: State)
  {
    CallsWellPlaced(c, s) && TableOk(c, s.mounts) && CallsKnow(c, s) && AllAccounted(c, s)
  }

  /** The locks keep calls on one target apart. */
  lemma OneCallPerTarget(c: Config, s: State, d: nat, e: nat)
    requires CallsWellPlaced(c, s) && d in s.pcs && e in s.pcs && d != e
    ensures s.core.holding[d].target != s.core.holding[e].target
  {
    assert Admissible(c, s.core.holding[d]) && Admissible(c, s.core.holding[e]);
    assert L.Key(s.core.holding[d]) != L.Key(s.core.holding[e]);
  }

  /** A lock step leaves the table and the other calls where they are; it may start a call, or end one that is
      done. */
  ghost predicate SameCalls(s: State, t: State)
  {
    && t.mounts == s.mounts && t.dirty == s.dirty
    && (forall e | e in t.pcs && e !in s.pcs :: t.pcs[e] == Start)
    && (forall e | e in s.pcs && e !in t.pcs :: s.pcs[e].Done?)
    && (forall e | e in s.pcs && e in t.pcs ::
          t.pcs[e] == s.pcs[e] && e in s.core.holding && e in t.core.holding && t.core.holding[e] == s.core.holding[e])
  }

  lemma GrantedShape(c: Config, s: State, t: State, d: nat, rpc: L.Rpc)
    requires CallsWellPlaced(c, s) && L.Inv(t.core) && t.mounts == s.mounts && t.dirty == s.dirty
    requires d in s.core.waiting && rpc == s.core.waiting[d]
    requires t.core.holding == s.core.holding[d := rpc] && t.core.waiting == s.core.waiting - {d}
             && t.pcs == s.pcs[d := Start]
    ensures CallsWellPlaced(c, t) && SameCalls(s, t)
  {
    hide L.Inv, Admissible;
    assert d !in s.core.holding && d !in s.pcs;
    StartedCall(s, t, d, rpc);
    hide SameCalls;
    assert t.pcs.Keys == t.core.holding.Keys;
  }

  lemma StartedCall(s: State, t: State, d: nat, rpc: L.Rpc)
    requires t.mounts == s.mounts && t.dirty == s.dirty && s.pcs.Keys == s.core.holding.Keys && d !in s.pcs
    requires t.core.holding == s.core.holding[d := rpc] && t.pcs == s.pcs[d := Start]
    ensures SameCalls(s, t)
  {
  }

  lemma RefusedShape(c: Config, s: State, t: State, d: nat)
    requires CallsWellPlaced(c, s) && L.Inv(t.core) && t.mounts == s.mounts && t.dirty == s.dirty
    requires t.core.holding == s.core.holding && t.core.waiting == s.core.waiting - {d} && t.pcs == s.pcs
    ensures CallsWellPlaced(c, t) && SameCalls(s, t)
  {
    hide L.Inv, Admissible;
  }

  lemma AcquireShape(c: Config, s: State, t: State, d: nat)
    requires CallsWellPlaced(c, s) && t.mounts == s.mounts && t.dirty == s.dirty
    requires L.Acquire(s.core, t.core, d) && t.pcs == if d in t.core.holding then s.pcs[d := Start] else s.pcs
    ensures CallsWellPlaced(c, t) && SameCalls(s, t)
  {
    assert d !in s.core.holding;
    L.AcquireKeepsInv(s.core, t.core, d);
    if d in t.core.holding {
      GrantedShape(c, s, t, d, s.core.waiting[d]);
    } else {
      RefusedShape(c, s, t, d);
    }
    hide L.Inv, L.Key, CallsWellPlaced, SameCalls;
  }

  lemma ReturnShape(c: Config, s: State, t: State, d: nat)
    requires CallsWellPlaced(c, s) && t.mounts == s.mounts && t.dirty == s.dirty
    requires L.Return(s.core, t.core, d) && d in s.pcs && s.pcs[d].Done? && t.pcs == s.pcs - {d}
    ensures CallsWellPlaced(c, t) && SameCalls(s, t)
  {
    L.ReturnKeepsInv(s.core, t.core, d);
    hide L.Inv;
  }

  lemma ArriveShape(c: Config, s: State, t: State, d: nat, rpc: L.Rpc)
    requires CallsWellPlaced(c, s) && t.mounts == s.mounts && t.dirty == s.dirty
    requires L.Arrive(s.core, t.core, d, rpc) && Admissible(c, rpc) && t.pcs == s.pcs
    ensures CallsWellPlaced(c, t) && SameCalls(s, t)
  {
    assert L.Inv(t.core);
    hide L.Inv;
  }

  lemma LockStepShape(c: Config, s: State, t: State, d: nat)
    requires CallsWellPlaced(c, s) && LockStep(c, s, t, d)
    ensures CallsWellPlaced(c, t) && SameCalls(s, t)
  {
    hide L.Inv, L.Arrive, L.Acquire, L.Return, CallsWellPlaced, SameCalls, Admissible;
    if rpc :| L.Arrive(s.core, t.core, d, rpc) && Admissible(c, rpc) && t.pcs == s.pcs {
      ArriveShape(c, s, t, d, rpc);
    } else if L.Acquire(s.core, t.core, d) && t.pcs == if d in t.core.holding then s.pcs[d := Start] else s.pcs {
      AcquireShape(c, s, t, d);
    } else {
      ReturnShape(c, s, t, d);
    }
  }

  lemma SameCallsKnow(c: Config, s: State, t: State)
    requires ValidConfig(c) && CallsWellPlaced(c, t) && SameCalls(s, t) && CallsKnow(c, s)
    ensures CallsKnow(c, t)
  {
    hide L.Inv, L.Disjoint;
    forall e | e in t.pcs ensures CallKnows(c, t, e) {
      assert Admissible(c, t.core.holding[e]);
      assert e in s.pcs ==> CallKnows(c, s, e);
    }
  }

  lemma SameCallsAccount(c: Config, s: State, t: State)
    requires SameCalls(s, t) && AllAccounted(c, s)
    ensures AllAccounted(c, t)
  {
    forall u | u in c.work ensures Accounted(c, t, u) {
      assert Accounted(c, s, u);
      if e :| WorksOn(s, e, u) {
        assert WorksOn(t, e, u);
      }
    }
  }

  lemma LockStepKeepsInv(c: Config, s: State, t: State, d: nat)
    requires ValidConfig(c) && Inv(c, s) && LockStep(c, s, t, d)
    ensures Inv(c, t)
  {
    LockStepShape(c, s, t, d);
    SameCallsKnow(c, s, t);
    SameCallsAccount(c, s, t);
    assert t.mounts == s.mounts;
    hide LockStep, CallsWellPlaced, SameCalls, CallsKnow, AllAccounted;
  }

  /** What the step of a call for a target does to its two paths, and what the call then knows about them. */
  ghost predicate PathEffect(rpc: L.Rpc, v: Volume, work: string, a: View, b: View)
    requires rpc.PublishVolume? || rpc.UnpublishVolume?
  {
    var t := rpc.target;
    && Knows(rpc, b.pc, |At(b.mounts, t)|, |At(b.mounts, work)|)
    && PathsOk(v, At(b.mounts, t), At(b.mounts, work))
    && (forall q | q != t && q != work :: At(b.mounts, q) == At(a.mounts, q))
    && (forall w | w != work :: w in b.dirty <==> w in a.dirty)
    && (At(b.mounts, work) != [] && work !in b.dirty && !HoldsWork(b.pc) ==>
          At(a.mounts, work) != [] && work !in a.dirty && !HoldsWork(a.pc))
  }

  lemma PublishKeepsKnowledge(rpc: L.Rpc, v: Volume, work: string, a: View, b: View)
    requires rpc.PublishVolume? && rpc.target != work && PublishStep(a, b, rpc.target, work, v)
    requires Knows(rpc, a.pc, |At(a.mounts, rpc.target)|, |At(a.mounts, work)|)
    requires PathsOk(v, At(a.mounts, rpc.target), At(a.mounts, work))
    ensures PathEffect(rpc, v, work, a, b)
  {
    hide AllowedSource, EnsureStep, MountTargetStep, MountStep, PathEffect;
    if a.pc.CheckWork? {
      LookEffect(rpc, v, work, a, b, work, CleanWork, MountWork);
    } else if a.pc.CheckTarget? {
      LookEffect(rpc, v, work, a, b, rpc.target, Done(true), MountTarget);
    } else if a.pc.MountTarget? {
      MountedTargetEffect(rpc, v, work, a, b);
    } else if a.pc.MountWork? {
      MountedWorkEffect(rpc, v, work, a, b);
    } else {
      OtherEffect(rpc, v, work, a, b);
    }
  }

  lemma LookEffect(rpc: L.Rpc, v: Volume, work: string, a: View, b: View, path: string, mounted: Pc, unmounted: Pc)
    requires rpc.PublishVolume? && rpc.target != work && EnsureStep(a, b, path, mounted, unmounted)
    requires || (a.pc.CheckWork? && path == work && mounted == CleanWork && unmounted == MountWork)
             || (a.pc.CheckTarget? && path == rpc.target && mounted == Done(true) && unmounted == MountTarget)
    requires Knows(rpc, a.pc, |At(a.mounts, rpc.target)|, |At(a.mounts, work)|)
    requires PathsOk(v, At(a.mounts, rpc.target), At(a.mounts, work))
    ensures PathEffect(rpc, v, work, a, b)
  {
    hide AllowedSource, EnsureRun, Fine;
    EnsureStepEffect(a, b, path, mounted, unmounted);
  }

  lemma OtherEffect(rpc: L.Rpc, v: Volume, work: string, a: View, b: View)
    requires rpc.PublishVolume? && rpc.target != work && PublishStep(a, b, rpc.target, work, v)
    requires !a.pc.CheckWork? && !a.pc.CheckTarget? && !a.pc.MountTarget? && !a.pc.MountWork?
    requires Knows(rpc, a.pc, |At(a.mounts, rpc.target)|, |At(a.mounts, work)|)
    requires PathsOk(v, At(a.mounts, rpc.target), At(a.mounts, work))
    ensures PathEffect(rpc, v, work, a, b)
  {
    hide AllowedSource, EnsureStep, MountTargetStep, MountStep;
  }

  lemma MountedTargetEffect(rpc: L.Rpc, v: Volume, work: string, a: View, b: View)
    requires rpc.PublishVolume? && rpc.target != work && a.pc.MountTarget? && MountTargetStep(a, b, rpc.target, v)
    requires Knows(rpc, a.pc, |At(a.mounts, rpc.target)|, |At(a.mounts, work)|)
    requires PathsOk(v, At(a.mounts, rpc.target), At(a.mounts, work))
    ensures PathEffect(rpc, v, work, a, b)
  {
    hide AllowedSource;
    var source :| AllowedSource(v, source) && MountStep(a, b, rpc.target, source, Done(true));
    assert [] + [source] == [source];
  }

  lemma MountedWorkEffect(rpc: L.Rpc, v: Volume, work: string, a: View, b: View)
    requires rpc.PublishVolume? && rpc.target != work && a.pc.MountWork? && MountStep(a, b, work, v.root, MakeSubDir)
    requires Knows(rpc, a.pc, |At(a.mounts, rpc.target)|, |At(a.mounts, work)|)
    requires PathsOk(v, At(a.mounts, rpc.target), At(a.mounts, work))
    ensures PathEffect(rpc, v, work, a, b)
  {
    hide AllowedSource;
    assert [] + [v.root] == [v.root];
  }

  lemma UnpublishKeepsKnowledge(rpc: L.Rpc, v: Volume, work: string, a: View, b: View)
    requires rpc.UnpublishVolume? && rpc.target != work && UnpublishStep(a, b, rpc.target)
    requires Knows(rpc, a.pc, |At(a.mounts, rpc.target)|, |At(a.mounts, work)|)
    requires PathsOk(v, At(a.mounts, rpc.target), At(a.mounts, work))
    ensures PathEffect(rpc, v, work, a, b)
  {
    hide AllowedSource;
  }

  /** What a step of the client d does to the whole state. */
  ghost predicate Effect(c: Config, s: State, t: State, d: nat)
  {
    && t.core == s.core && d in s.pcs && d in t.pcs && t.pcs == s.pcs[d := t.pcs[d]]
    && CallKnows(c, s, d) && CallKnows(c, t, d)
    && var u := s.core.holding[d].target;
       PathEffect(s.core.holding[d], c.volume[u], c.work[u], ViewOf(s, d), ViewOf(t, d))
  }

  lemma WorkEffect(c: Config, s: State, t: State, d: nat)
    requires ValidConfig(c) && Inv(c, s) && Work(c, s, t, d)
    ensures Effect(c, s, t, d)
  {
    hide L.Inv, L.Disjoint, PublishStep, UnpublishStep, PathsOk;
    assert CallKnows(c, s, d);
    var rpc := s.core.holding[d];
    var u := rpc.target;
    assert PathsOk(c.volume[u], At(s.mounts, u), At(s.mounts, c.work[u]));
    hide Knows;
    if rpc.PublishVolume? {
      PublishKeepsKnowledge(rpc, c.volume[u], c.work[u], ViewOf(s, d), ViewOf(t, d));
    } else {
      UnpublishKeepsKnowledge(rpc, c.volume[u], c.work[u], ViewOf(s, d), ViewOf(t, d));
    }
  }

  lemma EffectKeepsPlaces(c: Config, s: State, t: State, d: nat)
    requires CallsWellPlaced(c, s) && t.core == s.core && d in s.pcs && d in t.pcs && t.pcs == s.pcs[d := t.pcs[d]]
    ensures CallsWellPlaced(c, t)
  {
    hide L.Inv, L.Disjoint, Admissible;
  }

  lemma EffectKeepsTable(c: Config, s: State, t: State, d: nat)
    requires ValidConfig(c) && TableOk(c, s.mounts) && Effect(c, s, t, d)
    ensures TableOk(c, t.mounts)
  {
    hide PathsOk, Knows;
    var u := s.core.holding[d].target;
    forall w | w in c.work && w in c.volume ensures PathsOk(c.volume[w], At(t.mounts, w), At(t.mounts, c.work[w])) {
      if w != u {
        assert c.work[w] != c.work[u] && w != c.work[u] && c.work[w] != u;
        assert PathsOk(c.volume[w], At(s.mounts, w), At(s.mounts, c.work[w]));
      }
    }
  }

  lemma EffectKeepsKnowledge(c: Config, s: State, t: State, d: nat)
    requires ValidConfig(c) && CallsWellPlaced(c, s) && CallsKnow(c, s) && Effect(c, s, t, d)
    ensures CallsKnow(c, t)
  {
    hide CallsWellPlaced, CallKnows, Effect;
    forall e | e in t.pcs ensures CallKnows(c, t, e) {
      EffectKeepsOne(c, s, t, d, e);
    }
  }

  lemma EffectKeepsOne(c: Config, s: State, t: State, d: nat, e: nat)
    requires ValidConfig(c) && CallsWellPlaced(c, s) && CallsKnow(c, s) && Effect(c, s, t, d) && e in t.pcs
    ensures CallKnows(c, t, e)
  {
    hide L.Inv, L.Disjoint, Knows, PathsOk;
    if e != d {
      assert CallKnows(c, s, e);
      OneCallPerTarget(c, s, d, e);
      var u, w := s.core.holding[d].target, s.core.holding[e].target;
      assert w != u && w != c.work[u] && c.work[w] != u && c.work[w] != c.work[u];
    }
  }

  /** The working path of another target. */
  lemma OtherAccount(c: Config, s: State, t: State, d: nat, v: string)
    requires ValidConfig(c) && Effect(c, s, t, d) && v in c.work && v != s.core.holding[d].target && Accounted(c, s, v)
    ensures Accounted(c, t, v)
  {
    hide Knows, PathsOk;
    var u := s.core.holding[d].target;
    assert c.work[v] != c.work[u] && c.work[v] != u;
    if e :| WorksOn(s, e, v) {
      assert WorksOn(t, e, v);
    }
  }

  /** The working path of the target the call is for. */
  lemma OwnAccount(c: Config, s: State, t: State, d: nat)
    requires ValidConfig(c) && CallsWellPlaced(c, s) && Effect(c, s, t, d) && Accounted(c, s, s.core.holding[d].target)
    ensures Accounted(c, t, s.core.holding[d].target)
  {
    var u := s.core.holding[d].target;
    if HoldsWork(t.pcs[d]) {
      assert WorksOn(t, d, u);
    } else if At(t.mounts, c.work[u]) != [] && c.work[u] !in t.dirty {
      var e :| WorksOn(s, e, u);
      OneCallPerTarget(c, s, d, e);
    }
  }

  lemma WorkKeepsInv(c: Config, s: State, t: State, d: nat)
    requires ValidConfig(c) && Inv(c, s) && Work(c, s, t, d)
    ensures Inv(c, t)
  {
    WorkEffect(c, s, t, d);
    EffectKeepsPlaces(c, s, t, d);
    EffectKeepsTable(c, s, t, d);
    EffectKeepsKnowledge(c, s, t, d);
    var u := s.core.holding[d].target;
    hide Work, CallsWellPlaced, TableOk, CallsKnow, Effect, Accounted;
    forall v | v in c.work ensures Accounted(c, t, v) {
      assert Accounted(c, s, v);
      if v == u {
        OwnAccount(c, s, t, d);
      } else {
        OtherAccount(c, s, t, d, v);
      }
    }
  }

  lemma InitHoldsInv(c: Config, s: State)
    requires Init(c, s)
    ensures Inv(c, s)
  {
  }

  lemma {:induction false} RunKeepsInv(c: Config, run: seq<State>, i: nat)
    requires ValidConfig(c) && IsRun(c, run) && i < |run|
    ensures Inv(c, run[i])
  {
    if i == 0 {
      InitHoldsInv(c, run[0]);
    } else {
      RunKeepsInv(c, run, i - 1);
      assert Next(c, run[i - 1], run[i]);
      var d: nat :| StepBy(c, run[i - 1], run[i], d);
      hide Inv, Work, LockStep;
      if Work(c, run[i - 1], run[i], d) {
        WorkKeepsInv(c, run[i - 1], run[i], d);
      } else {
        LockStepKeepsInv(c, run[i - 1], run[i], d);
      }
    }
  }

  /** The mount table over every interleaving of publish and unpublish calls with failures at any mounter call,
      whatever an earlier run of the plugin left: a target has at most one mount, and its source is one the volume
      allows: its filesystem, or strictly below it if a sub-directory is asked for; a working path has at most one
      mount, of the filesystem itself, and only while the call that made it is between its mount and its unmount, or
      after an unmount of it failed; a publish that reported success has left its target mounted, and an unpublish
      that did has left it unmounted. */
  lemma MountTableInvariant(c: Config, run: seq<State>, i: nat)
    requires ValidConfig(c) && IsRun(c, run) && i < |run|
    ensures forall t | t in c.work ::
              && |At(run[i].mounts, t)| <= 1 && |At(run[i].mounts, c.work[t])| <= 1
              && (forall x | x in At(run[i].mounts, t) :: AllowedSource(c.volume[t], x))
              && (forall x | x in At(run[i].mounts, c.work[t]) :: x == c.volume[t].root)
    ensures forall t | t in c.work && At(run[i].mounts, c.work[t]) != [] ::
              || c.work[t] in run[i].dirty
              || exists d :: d in run[i].pcs && d in run[i].core.holding
                             && run[i].core.holding[d] == L.PublishVolume(c.volume[t].id, t) && HoldsWork(run[i].pcs[d])
    ensures forall d | d in run[i].pcs && run[i].pcs[d] == Done(true) ::
              && d in run[i].core.holding && Admissible(c, run[i].core.holding[d])
              && |At(run[i].mounts, run[i].core.holding[d].target)| ==
                 if run[i].core.holding[d].PublishVolume? then 1 else 0
  {
    hide AllowedSource, IsRun, L.Inv, L.Disjoint;
    RunKeepsInv(c, run, i);
    var s := run[i];
    forall t | t in c.work ensures PathsOk(c.volume[t], At(s.mounts, t), At(s.mounts, c.work[t])) {
    }
    forall t | t in c.work && At(s.mounts, c.work[t]) != [] && c.work[t] !in s.dirty
      ensures exists d :: d in s.pcs && d in s.core.holding
                          && s.core.holding[d] == L.PublishVolume(c.volume[t].id, t) && HoldsWork(s.pcs[d])
    {
      assert Accounted(c, s, t);
      var d :| WorksOn(s, d, t);
      assert CallKnows(c, s, d);
    }
    forall d | d in s.pcs && s.pcs[d] == Done(true)
      ensures && d in s.core.holding && Admissible(c, s.core.holding[d])
              && |At(s.mounts, s.core.holding[d].target)| == if s.core.holding[d].PublishVolume? then 1 else 0
    {
      assert CallKnows(c, s, d);
    }
  }

  /** No call ever mounts on a working path or a target where something is mounted: a working mount left behind
      is unmounted first. */
  lemma MountsOnlyOnFreePaths(c: Config, run: seq<State>, i: nat, d: nat)
    requires ValidConfig(c) && IsRun(c, run) && i + 1 < |run| && Work(c, run[i], run[i + 1], d)
    ensures var t := run[i].core.holding[d].target;
            && (|At(run[i + 1].mounts, t)| > |At(run[i].mounts, t)| ==> At(run[i].mounts, t) == [])
            && (|At(run[i + 1].mounts, c.work[t])| > |At(run[i].mounts, c.work[t])| ==>
                 At(run[i].mounts, c.work[t]) == [])
  {
    MountTableInvariant(c, run, i);
    MountTableInvariant(c, run, i + 1);
    hide CallStep, IsRun;
  }
}
