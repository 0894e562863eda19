/** The set of volumes with an operation in flight, and what it guarantees for any number of concurrent RPCs. */
module VolumeLocks {

  // ---- The object ----

  class Locks {
    var locks: set<string>

    constructor ()
      ensures locks == {}
    {
      locks := {};
    }

    method TryAcquire(key: string) returns (acquired: bool)
      modifies this
      ensures acquired == (key !in old(locks))
      ensures locks == old(locks) + {key}
    {
      if key in locks {
        return false;
      }
      locks := locks + {key};
      return true;
    }

    method Release(key: string)
      modifies this
      ensures locks == old(locks) - {key}
    {
      locks := locks - {key};
    }
  }

  // ---- Concurrent RPCs ----

  datatype Rpc =
    | CreateVolume(name: string)
    | DeleteVolume(id: string)
    | PublishVolume(id: string, target: string)
    | UnpublishVolume(id: string, target: string)

  /** The key an RPC locks. */
  function Key(rpc: Rpc): string
  {
    match rpc
    case CreateVolume(name) => name
    case DeleteVolume(id) => id
    case PublishVolume(id, target) => id + "-" + target
    case UnpublishVolume(id, target) => id + "-" + target
  }

  /** The lock set, and every client's RPC by where it is: before its TryAcquire, or between it and the
      deferred Release. */
  datatype State = State(locks: set<string>, waiting: map<nat, Rpc>, holding: map<nat, Rpc>)

  ghost predicate Init(s: State)
  {
    s == State({}, map[], map[])
  }

  /** A client calls an RPC. */
  ghost predicate Arrive(s: State, t: State, c: nat, rpc: Rpc)
  {
    c !in s.waiting && c !in s.holding && t == s.(waiting := s.waiting[c := rpc])
  }

  /** TryAcquire, atomic under the mutex: the RPC goes on holding its key, or returns Aborted. */
  ghost predicate Acquire(s: State, t: State, c: nat)
  {
    && c in s.waiting
    && var rpc := s.waiting[c];
       if Key(rpc) in s.locks then
         t == s.(waiting := s.waiting - {c})
       else
         t == State(s.locks + {Key(rpc)}, s.waiting - {c}, s.holding[c := rpc])
  }

  /** Any return of the body runs the deferred Release. */
  ghost predicate Return(s: State, t: State, c: nat)
  {
    c in s.holding && t == State(s.locks - {Key(s.holding[c])}, s.waiting, s.holding - {c})
  }

  ghost predicate StepBy(s: State, t: State, c: nat)
  {
    (exists rpc :: Arrive(s, t, c, rpc)) || Acquire(s, t, c) || Return(s, t, c)
  }

  ghost predicate Next(s: State, t: State)
  {
    exists c: nat :: StepBy(s, t, c)
  }

  ghost predicate IsRun(run: seq<State>)
  {
    run != [] && Init(run[0]) && forall i | 0 <= i < |run| - 1 :: Next(run[i], run[i + 1])
  }

  /** The locks are the keys of the RPCs in flight, and each key has one owner. */
  ghost predicate Inv(s: State)
  {
    && (forall k :: k in s.locks <==> exists c :: c in s.holding && Key(s.holding[c]) == k)
    && (forall c, d | c in s.holding && d in s.holding && Key(s.holding[c]) == Key(s.holding[d]) :: c == d)
  }

  lemma AcquireKeepsInv(s: State, t: State, c: nat)
    requires Inv(s) && Acquire(s, t, c) && c !in s.holding
    ensures Inv(t)
  {
    var k := Key(s.waiting[c]);
    if k !in s.locks {
      assert forall d | d in s.holding :: Key(s.holding[d]) in s.locks;
      forall x ensures x in t.locks <==> exists d :: d in t.holding && Key(t.holding[d]) == x {
        if x == k {
          assert c in t.holding && Key(t.holding[c]) == x;
        } else if x in s.locks {
          var d :| d in s.holding && Key(s.holding[d]) == x;
          assert d in t.holding && t.holding[d] == s.holding[d];
        }
      }
    }
  }

  lemma ReturnKeepsInv(s: State, t: State, c: nat)
    requires Inv(s) && Return(s, t, c)
    ensures Inv(t)
  {
    var k := Key(s.holding[c]);
    forall x ensures x in t.locks <==> exists d :: d in t.holding && Key(t.holding[d]) == x {
      if x in t.locks {
        var d :| d in s.holding && Key(s.holding[d]) == x;
        assert d in t.holding && t.holding[d] == s.holding[d];
      }
      if d :| d in t.holding && Key(t.holding[d]) == x {
        assert d in s.holding && d != c && Key(s.holding[d]) == x;
      }
    }
  }

  ghost predicate Disjoint(s: State)
  {
    forall c | c in s.waiting :: c !in s.holding
  }

  lemma NextKeepsInv(s: State, t: State)
    requires Inv(s) && Disjoint(s) && Next(s, t)
    ensures Inv(t) && Disjoint(t)
  {
    var c: nat :| StepBy(s, t, c);
    if Acquire(s, t, c) {
      AcquireKeepsInv(s, t, c);
    } else if Return(s, t, c) {
      ReturnKeepsInv(s, t, c);
    }
  }

  lemma {:induction false} RunKeepsInv(run: seq<State>, i: nat)
    requires IsRun(run) && i < |run|
    ensures Inv(run[i]) && Disjoint(run[i])
  {
    if i > 0 {
      RunKeepsInv(run, i - 1);
      NextKeepsInv(run[i - 1], run[i]);
    }
  }

  /** Mutual exclusion over every interleaving of any number of RPCs: no two creates of one volume name, no
      two deletes of one volume ID and no two publish or unpublish calls for one volume and target are in
      flight together; and when nothing is in flight no key is left locked. */
  lemma MutualExclusion(run: seq<State>, i: nat)
    requires IsRun(run) && i < |run|
    ensures forall c, d | c in run[i].holding && d in run[i].holding && c != d ::
              Key(run[i].holding[c]) != Key(run[i].holding[d])
    ensures forall c, d | c in run[i].holding && d in run[i].holding && c != d ::
              match (run[i].holding[c], run[i].holding[d])
              case (CreateVolume(a), CreateVolume(b)) => a != b
              case (DeleteVolume(a), DeleteVolume(b)) => a != b
              case (PublishVolume(a, t), PublishVolume(b, u)) => a != b || t != u
              case (PublishVolume(a, t), UnpublishVolume(b, u)) => a != b || t != u
              case (UnpublishVolume(a, t), UnpublishVolume(b, u)) => a != b || t != u
              case _ => true
    ensures run[i].holding == map[] ==> run[i].locks == {}
  {
    RunKeepsInv(run, i);
  }

  /** An RPC is refused exactly when another one with its key is in flight. */
  lemma RefusedIffBusy(run: seq<State>, i: nat, c: nat)
    requires IsRun(run) && i + 1 < |run| && Acquire(run[i], run[i + 1], c)
    ensures c !in run[i + 1].holding <==>
            exists d :: d in run[i].holding && d != c && Key(run[i].holding[d]) == Key(run[i].waiting[c])
  {
    RunKeepsInv(run, i);
    var s := run[i];
    if Key(s.waiting[c]) in s.locks {
      var d :| d in s.holding && Key(s.holding[d]) == Key(s.waiting[c]);
      assert d != c;
    }
  }

  // ---- When two calls share a key ----

  /** A node call for an absolute target and a volume ID without "-/". */
  predicate Plain(rpc: Rpc)
  {
    && (rpc.PublishVolume? || rpc.UnpublishVolume?) && rpc.target != "" && rpc.target[0] == '/'
    && forall i | 0 <= i < |rpc.id| - 1 :: !(rpc.id[i] == '-' && rpc.id[i + 1] == '/')
  }

  /** Such calls share a key exactly when they are for the same volume and target. */
  lemma PlainKeysAreFaithful(a: Rpc, b: Rpc)
    requires Plain(a) && Plain(b)
    ensures Key(a) == Key(b) <==> a.id == b.id && a.target == b.target
  {
    if Key(a) == Key(b) {
      if |a.id| < |b.id| { LongerHoldsSeparator(a.id, a.target, b.id, b.target); }
      if |b.id| < |a.id| { LongerHoldsSeparator(b.id, b.target, a.id, a.target); }
      assert Key(a)[..|a.id|] == a.id && Key(b)[..|b.id|] == b.id;
      assert Key(a)[|a.id| + 1..] == a.target && Key(b)[|b.id| + 1..] == b.target;
    }
  }

  lemma LongerHoldsSeparator(a: string, t: string, b: string, u: string)
    requires t != "" && t[0] == '/' && |a| < |b| && a + "-" + t == b + "-" + u
    ensures exists i | 0 <= i < |b| - 1 :: b[i] == '-' && b[i + 1] == '/'
  {
    var n, k := |a|, b + "-" + u;
    assert (a + "-" + t)[n] == '-' && (a + "-" + t)[n + 1] == '/';
    assert k[n] == b[n] && k[|b|] == '-';
    assert k[n + 1] == b[n + 1];
  }

  /** Others can share one: the key does not tell where the ID ends. */
  lemma KeysCanCollide(a: string, b: string, c: string)
    ensures Key(PublishVolume(a, b + "-" + c)) == Key(PublishVolume(a + "-" + b, c))
  {
    assert a + "-" + (b + "-" + c) == a + "-" + b + "-" + c;
  }

  /** Among such calls, one is refused exactly when another for its volume and target is in flight. */
  lemma PlainRefusedIffSame(run: seq<State>, i: nat, c: nat)
    requires IsRun(run) && i + 1 < |run| && Acquire(run[i], run[i + 1], c) && Plain(run[i].waiting[c])
    requires forall d | d in run[i].holding :: Plain(run[i].holding[d])
    ensures c !in run[i + 1].holding <==>
            exists d :: && d in run[i].holding && d != c && Plain(run[i].holding[d])
                        && run[i].holding[d].id == run[i].waiting[c].id
                        && run[i].holding[d].target == run[i].waiting[c].target
  {
    RefusedIffBusy(run, i, c);
    forall d | d in run[i].holding
      ensures Key(run[i].holding[d]) == Key(run[i].waiting[c]) <==>
              run[i].holding[d].id == run[i].waiting[c].id && run[i].holding[d].target == run[i].waiting[c].target
    {
      PlainKeysAreFaithful(run[i].holding[d], run[i].waiting[c]);
    }
    hide Key, Plain, IsRun, Acquire;
  }

  /** A return gives up its own key and no other. */
  lemma ReturnReleasesOwnKey(run: seq<State>, i: nat, c: nat)
    requires IsRun(run) && i + 1 < |run| && Return(run[i], run[i + 1], c)
    ensures run[i + 1].locks == run[i].locks - {Key(run[i].holding[c])}
    ensures forall d | d in run[i].holding && d != c ::
              d in run[i + 1].holding && Key(run[i].holding[d]) in run[i + 1].locks
  {
    RunKeepsInv(run, i);
    forall d | d in run[i].holding && d != c ensures Key(run[i].holding[d]) in run[i + 1].locks {
      assert Key(run[i].holding[d]) in run[i].locks;
    }
  }
}
