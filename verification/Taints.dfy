/** Removing the driver's start-up taint from the node by an optimistic test-and-replace patch. */
module Taints {
  import opened GrpcErrors

  datatype Taint = Taint(key: string, value: string, effect: string)

  /** The taints that stay: those of other keys, in order. */
  function Keep(taints: seq<Taint>, key: string): seq<Taint>
  {
    if taints == [] then []
    else Keep(taints[..|taints| - 1], key) + (if taints[|taints| - 1].key != key then [taints[|taints| - 1]] else [])
  }

  method TaintsToKeep(taints: seq<Taint>, key: string) returns (keep: seq<Taint>)
    ensures keep == Keep(taints, key)
  {
    keep := [];
    for i := 0 to |taints|
      invariant keep == Keep(taints[..i], key)
    {
      assert taints[..i + 1][..i] == taints[..i];
      if taints[i].key != key {
        keep := keep + [taints[i]];
      }
    }
    assert taints[..|taints|] == taints;
  }

  /** No taint of the key remains, every other one keeps its multiplicity, and keeping again changes nothing. */
  lemma {:induction false} KeepMeaning(taints: seq<Taint>, key: string)
    ensures forall t | t in Keep(taints, key) :: t.key != key
    ensures forall t: Taint :: multiset(Keep(taints, key))[t] == if t.key != key then multiset(taints)[t] else 0
    ensures |Keep(taints, key)| == |taints| <==> Keep(taints, key) == taints
    ensures |Keep(taints, key)| <= |taints|
  {
    if taints != [] {
      var n := |taints| - 1;
      KeepMeaning(taints[..n], key);
      assert taints == taints[..n] + [taints[n]];
      if taints[n].key == key {
        assert Keep(taints, key) == Keep(taints[..n], key);
      }
    }
  }

  lemma {:induction false} KeepAppend(a: seq<Taint>, b: seq<Taint>, key: string)
    ensures Keep(a + b, key) == Keep(a, key) + Keep(b, key)
  {
    if b == [] {
      assert a + b == a;
    } else {
      assert (a + b)[..|a + b| - 1] == a + b[..|b| - 1];
      KeepAppend(a, b[..|b| - 1], key);
    }
  }

  lemma {:induction false} KeepTwice(taints: seq<Taint>, key: string)
    ensures Keep(Keep(taints, key), key) == Keep(taints, key)
  {
    if taints != [] {
      var n := |taints| - 1;
      KeepTwice(taints[..n], key);
      KeepAppend(Keep(taints[..n], key), Keep(taints, key)[|Keep(taints[..n], key)|..], key);
      assert Keep([taints[n]], key) == if taints[n].key != key then [taints[n]] else [] by {
        assert [taints[n]][..0] == [];
      }
      assert Keep(taints, key) == Keep(taints[..n], key) + (if taints[n].key != key then [taints[n]] else []);
    }
  }

  // ---- The API server ----

  /** A JSON patch of "test" then "replace" on the taint list (sections 4.6 and 4.3 of RFC 6902): if the test
      fails nothing is applied (section 5). */
  function Patch(current: seq<Taint>, expected: seq<Taint>, replacement: seq<Taint>): seq<Taint>
  {
    if current == expected then replacement else current
  }

  // ---- Any number of removers among any number of other writers ----

  /** The list, the snapshot of every remover that has read and not yet patched, the last list written by someone
      else, and the number of requests the removers have made. */
  datatype State = State(taints: seq<Taint>, snapshots: map<nat, seq<Taint>>, written: seq<Taint>, requests: nat)

  ghost predicate Init(s: State)
  {
    s.snapshots == map[] && s.written == s.taints
  }

  ghost predicate Read(s: State, t: State, c: nat)
  {
    t == s.(snapshots := s.snapshots[c := s.taints], requests := s.requests + 1)
  }

  /** A read that fails. */
  ghost predicate Miss(s: State, t: State)
  {
    t == s.(requests := s.requests + 1)
  }

  /** The patch of a remover that found something to remove; it may also fail before it is applied. */
  ghost predicate SendPatch(s: State, t: State, c: nat, key: string)
  {
    && c in s.snapshots && |Keep(s.snapshots[c], key)| != |s.snapshots[c]|
    && t.snapshots == s.snapshots - {c} && t.written == s.written && t.requests == s.requests + 1
    && (t.taints == s.taints || t.taints == Patch(s.taints, s.snapshots[c], Keep(s.snapshots[c], key)))
  }

  /** A remover gives up: nothing to remove, or an error. */
  ghost predicate Quit(s: State, t: State, c: nat)
  {
    t == s.(snapshots := s.snapshots - {c})
  }

  ghost predicate Write(s: State, t: State, taints: seq<Taint>)
  {
    t == s.(taints := taints, written := taints)
  }

  ghost predicate StepBy(s: State, t: State, c: nat, key: string)
  {
    Read(s, t, c) || Miss(s, t) || SendPatch(s, t, c, key) || Quit(s, t, c)
  }

  ghost predicate Foreign(s: State, t: State)
  {
    exists taints :: Write(s, t, taints)
  }

  ghost predicate Next(s: State, t: State, key: string)
  {
    (exists c: nat :: StepBy(s, t, c, key)) || Foreign(s, t)
  }

  ghost predicate IsRun(run: seq<State>, key: string)
  {
    run != [] && Init(run[0]) && forall i | 0 <= i < |run| - 1 :: Next(run[i], run[i + 1], key)
  }

  // ---- One attempt ----

  /** The answer to a patch: success only if it was applied. An error may hide that it was. */
  ghost predicate Answered(s: State, t: State, c: nat, key: string, ok: bool)
  {
    SendPatch(s, t, c, key) && (ok ==> s.taints == s.snapshots[c] && t.taints == Keep(s.taints, key))
  }

  /** The states one attempt of the remover c goes through: a read that fails; or it reads, others write, and then it
      stops if there was nothing to remove, and otherwise sends its patch, whose answer is its result. */
  ghost predicate IsAttempt(states: seq<State>, c: nat, key: string, ok: bool)
  {
    if |states| == 2 then !ok && Miss(states[0], states[1])
    else
      && |states| >= 3 && Read(states[0], states[1], c)
      && (forall i | 1 <= i < |states| - 2 :: Foreign(states[i], states[i + 1]))
      && var s, t := states[|states| - 2], states[|states| - 1];
         if Keep(states[0].taints, key) == states[0].taints then ok && Quit(s, t, c)
         else Answered(s, t, c, key, ok) && c in s.snapshots && s.snapshots[c] == states[0].taints
  }

  /** Every step of an attempt is one of the interleaving model. */
  lemma AttemptSteps(states: seq<State>, c: nat, key: string, ok: bool)
    requires IsAttempt(states, c, key, ok)
    ensures forall i | 0 <= i < |states| - 1 :: Next(states[i], states[i + 1], key)
  {
    forall i | 0 <= i < |states| - 1 ensures Next(states[i], states[i + 1], key) {
      if i == 0 || i == |states| - 2 {
        assert StepBy(states[i], states[i + 1], c, key);
      }
    }
  }

  /** Every attempt makes a request. */
  lemma AttemptAsks(states: seq<State>, c: nat, key: string, ok: bool)
    requires states != [] && IsAttempt(states, c, key, ok)
    ensures |states| >= 2 && states[|states| - 1].requests > states[0].requests
  {
    var n := |states| - 2;
    if n > 0 {
      ForeignKeepsRequests(states[1..n + 1]);
      assert states[1..n + 1][0] == states[1] && states[1..n + 1][n - 1] == states[n];
    }
  }

  lemma {:induction false} ForeignKeepsRequests(states: seq<State>)
    requires states != [] && forall i | 0 <= i < |states| - 1 :: Foreign(states[i], states[i + 1])
    ensures states[|states| - 1].requests == states[0].requests
  {
    if |states| > 1 {
      ForeignKeepsRequests(states[..|states| - 1]);
      assert Foreign(states[|states| - 2], states[|states| - 1]);
    }
  }

  /** Success means that at some moment of the attempt the node had no taint of the key. */
  lemma SuccessMeansClean(states: seq<State>, c: nat, key: string)
    requires IsAttempt(states, c, key, true)
    ensures exists i | 0 <= i < |states| :: Keep(states[i].taints, key) == states[i].taints
  {
    var last := |states| - 1;
    if Keep(states[0].taints, key) != states[0].taints {
      KeepTwice(states[last - 1].taints, key);
      assert Keep(states[last].taints, key) == states[last].taints;
    }
  }

  /** The node object of the API server, with every state of its taint list so far; the last one is the present. */
  class Node {
    var taints: seq<Taint>
    ghost var history: seq<State>

    ghost predicate Valid()
      reads this
    {
      history != [] && Present().taints == taints
    }

    ghost function Present(): State
      requires history != []
      reads this
    {
      history[|history| - 1]
    }

    constructor (taints: seq<Taint>)
      ensures Valid() && history == [State(taints, map[], taints, 0)]
    {
      this.taints := taints;
      history := [State(taints, map[], taints, 0)];
    }

    method Get(ghost c: nat) returns (r: Option<seq<Taint>>)
      requires Valid()
      modifies this
      ensures Valid()
      ensures history == old(history) + [Present()]
      ensures r.None? ==> Miss(old(Present()), Present())
      ensures r.Some? ==> r.value == old(taints) && Read(old(Present()), Present(), c)
    {
      var reachable: bool := *;
      ghost var requests := Present().requests + 1;
      if !reachable {
        history := history + [Present().(requests := requests)];
        return None;
      }
      history := history + [Present().(snapshots := Present().snapshots[c := taints], requests := requests)];
      return Some(taints);
    }

    /** Other writers change the list between two requests, any number of times. */
    method Interfere()
      requires Valid()
      modifies this
      ensures Valid() && old(history) <= history && Present().snapshots == old(Present().snapshots)
      ensures Present().requests == old(Present().requests)
      ensures forall i | |old(history)| - 1 <= i < |history| - 1 :: Foreign(history[i], history[i + 1])
    {
      var writes: seq<seq<Taint>> := *;
      for k := 0 to |writes|
        invariant Valid() && old(history) <= history && Present().snapshots == old(Present().snapshots)
        invariant Present().requests == old(Present().requests)
        invariant forall i | |old(history)| - 1 <= i < |history| - 1 :: Foreign(history[i], history[i + 1])
      {
        taints := writes[k];
        ghost var next := Present().(taints := taints, written := taints);
        assert Write(Present(), next, taints);
        history := history + [next];
      }
    }

    /** The patch is applied if its test passes and nothing goes wrong before; the answer can still be lost. */
    method ApplyPatch(ghost c: nat, expected: seq<Taint>, replacement: seq<Taint>, ghost key: string) returns (ok: bool)
      requires Valid() && c in Present().snapshots && Present().snapshots[c] == expected
      requires replacement == Keep(expected, key) && |replacement| != |expected|
      modifies this
      ensures Valid() && history == old(history) + [Present()]
      ensures Answered(old(Present()), Present(), c, key, ok)
    {
      var arrives: bool, answered: bool := *, *;
      var applied := arrives && taints == expected;
      if applied {
        taints := replacement;
      }
      ghost var now := Present();
      history := history + [State(taints, now.snapshots - {c}, now.written, now.requests + 1)];
      ok := applied && answered;
    }

    ghost method GiveUp(c: nat)
      requires Valid()
      modifies this
      ensures Valid() && history == old(history) + [Present()] && Quit(old(Present()), Present(), c)
    {
      history := history + [Present().(snapshots := Present().snapshots - {c})];
    }
  }

  /** removeNotReadyTaint: read, filter, and patch if anything was filtered out; others may write in between. The
      states the list went through are those of an attempt, from the one before the call to the present one. */
  method RemoveNotReadyTaint(node: Node, driverName: string, ghost c: nat) returns (ok: bool)
    requires node.Valid()
    modifies node
    ensures node.Valid() && old(node.history) <= node.history
    ensures IsAttempt(node.history[|old(node.history)| - 1..], c, driverName + "/agent-not-ready", ok)
  {
    var key := driverName + "/agent-not-ready";
    hide Keep, Answered, Quit;
    ghost var before := node.history;
    var read := node.Get(c);
    if read.None? {
      return false;
    }
    var keep := TaintsToKeep(read.value, key);
    KeepMeaning(read.value, key);
    node.Interfere();
    ghost var met := node.history;
    if |keep| == |read.value| {
      node.GiveUp(c);
      ok := true;
    } else {
      ok := node.ApplyPatch(c, read.value, keep, key);
    }
    AttemptOf(before, met, node.history, c, key, ok);
  }

  lemma AttemptOf(before: seq<State>, met: seq<State>, after: seq<State>, c: nat, key: string, ok: bool)
    requires before != [] && |before| < |met| && |after| == |met| + 1 && before <= met <= after
    requires Read(met[|before| - 1], met[|before|], c)
    requires forall i | |before| <= i < |met| - 1 :: Foreign(met[i], met[i + 1])
    requires var s, t, read := met[|met| - 1], after[|met|], met[|before| - 1].taints;
             if Keep(read, key) == read then ok && Quit(s, t, c)
             else Answered(s, t, c, key, ok) && c in s.snapshots && s.snapshots[c] == read
    ensures IsAttempt(after[|before| - 1..], c, key, ok)
  {
    hide Keep, Answered, Quit, Foreign;
    var k := |before| - 1;
    var states := after[k..];
    forall i | 1 <= i < |states| - 2 ensures Foreign(states[i], states[i + 1]) {
      assert states[i] == met[i + k] && states[i + 1] == met[i + 1 + k];
    }
    assert states[|states| - 2] == met[|met| - 1];
  }

  /** removeTaintInBackground: attempts until one succeeds or the retries are used up. Whatever others write, the
      history goes on as a run of the interleaving model, and success means that at some moment during the call
      the node had no taint of the key. Failure means that all retries were made. */
  method RemoveTaintInBackground(node: Node, driverName: string, retries: nat, ghost c: nat) returns (ok: bool)
    requires node.Valid()
    modifies node
    ensures node.Valid() && old(node.history) <= node.history
    ensures var key := driverName + "/agent-not-ready";
            && (IsRun(old(node.history), key) ==> IsRun(node.history, key))
            && (ok ==> exists i | |old(node.history)| - 1 <= i < |node.history| ::
                         Keep(node.history[i].taints, key) == node.history[i].taints)
    ensures !ok ==> node.Present().requests >= old(node.Present().requests) + retries
  {
    hide IsRun, Keep;
    ghost var key := driverName + "/agent-not-ready";
    ok := false;
    ghost var before := node.history;
    for k := 0 to retries
      invariant node.Valid() && before <= node.history && !ok
      invariant IsRun(before, key) ==> IsRun(node.history, key)
      invariant node.Present().requests >= old(node.Present().requests) + k
    {
      ghost var soFar := node.history;
      ok := TryOnce(node, driverName, c);
      if ok {
        ghost var i :| |soFar| - 1 <= i < |node.history| && Keep(node.history[i].taints, key) == node.history[i].taints;
        return;
      }
    }
  }

  /** One attempt and the writes of others until the next. */
  method TryOnce(node: Node, driverName: string, ghost c: nat) returns (ok: bool)
    requires node.Valid()
    modifies node
    ensures node.Valid() && old(node.history) <= node.history
    ensures var key := driverName + "/agent-not-ready";
            && (IsRun(old(node.history), key) ==> IsRun(node.history, key))
            && (ok ==> exists i | |old(node.history)| - 1 <= i < |node.history| ::
                         Keep(node.history[i].taints, key) == node.history[i].taints)
    ensures node.Present().requests > old(node.Present().requests)
  {
    hide IsAttempt, Keep, IsRun, Foreign;
    ghost var key := driverName + "/agent-not-ready";
    ghost var before := node.history;
    ok := RemoveNotReadyTaint(node, driverName, c);
    ghost var middle := node.history;
    ghost var states := middle[|before| - 1..];
    AttemptContinues(before, middle, c, key, ok);
    AttemptAsks(states, c, key, ok);
    assert states[|states| - 1] == middle[|middle| - 1];
    node.Interfere();
    ForeignContinues(middle, node.history, key);
    if ok {
      SuccessMeansClean(states, c, key);
      ghost var i :| 0 <= i < |states| && Keep(states[i].taints, key) == states[i].taints;
      assert node.history[|before| - 1 + i] == states[i];
    }
  }

  lemma ForeignContinues(run: seq<State>, longer: seq<State>, key: string)
    requires run != [] && run <= longer && forall i | |run| - 1 <= i < |longer| - 1 :: Foreign(longer[i], longer[i + 1])
    ensures IsRun(run, key) ==> IsRun(longer, key)
  {
    hide Foreign;
    if IsRun(run, key) {
      forall i | 0 <= i < |longer| - 1 ensures Next(longer[i], longer[i + 1], key) {
        if i < |run| - 1 {
          assert longer[i] == run[i] && longer[i + 1] == run[i + 1];
        }
      }
    }
  }

  lemma AttemptContinues(run: seq<State>, longer: seq<State>, c: nat, key: string, ok: bool)
    requires run != [] && run <= longer && IsAttempt(longer[|run| - 1..], c, key, ok)
    ensures IsRun(run, key) ==> IsRun(longer, key)
  {
    var states := longer[|run| - 1..];
    AttemptSteps(states, c, key, ok);
    if IsRun(run, key) {
      forall i | 0 <= i < |longer| - 1 ensures Next(longer[i], longer[i + 1], key) {
        if i < |run| - 1 {
          assert longer[i] == run[i] && longer[i + 1] == run[i + 1];
        } else {
          assert longer[i] == states[i - |run| + 1] && longer[i + 1] == states[i - |run| + 2];
        }
      }
    }
  }

  // ---- What every run keeps ----

  /** A patch takes effect only on the list its remover read, and its sole effect is to drop the taints of the
      key. */
  lemma PatchEffect(s: State, t: State, c: nat, key: string)
    requires SendPatch(s, t, c, key) && t.taints != s.taints
    ensures s.taints == s.snapshots[c] && t.taints == Keep(s.taints, key)
    ensures forall x: Taint :: multiset(t.taints)[x] == if x.key != key then multiset(s.taints)[x] else 0
  {
    KeepMeaning(s.taints, key);
  }

  ghost predicate OthersKept(s: State, key: string)
  {
    Keep(s.taints, key) == Keep(s.written, key) && (s.taints == s.written || s.taints == Keep(s.written, key))
  }

  lemma NextKeepsOthers(s: State, t: State, key: string)
    requires OthersKept(s, key) && Next(s, t, key)
    ensures OthersKept(t, key)
  {
    if c: nat :| StepBy(s, t, c, key) {
      KeepTwice(s.taints, key);
      assert t.written == s.written;
      assert t.taints == s.taints || t.taints == Keep(s.taints, key);
    }
  }

  /** Over every run of any number of removers and retries, the taints of other keys are exactly those of the
      last list another writer wrote, in order and multiplicity: none is lost, none comes back. And the list
      is that list itself or that list without the driver's taints. */
  lemma NoTaintIsLostOrRevived(run: seq<State>, key: string, i: nat)
    requires IsRun(run, key) && i < |run|
    ensures Keep(run[i].taints, key) == Keep(run[i].written, key)
    ensures run[i].taints == run[i].written || run[i].taints == Keep(run[i].written, key)
  {
    RunKeepsOthers(run, key, i);
  }

  lemma {:induction false} RunKeepsOthers(run: seq<State>, key: string, i: nat)
    requires IsRun(run, key) && i < |run|
    ensures OthersKept(run[i], key)
  {
    if i > 0 {
      RunKeepsOthers(run, key, i - 1);
      NextKeepsOthers(run[i - 1], run[i], key);
    }
  }

  /** As long as no one else writes, an effective patch is final: later steps change nothing. */
  lemma RemovalIsFinal(s: State, t: State, c: nat, key: string)
    requires Keep(s.taints, key) == s.taints && StepBy(s, t, c, key)
    ensures t.taints == s.taints
  {
  }
}
