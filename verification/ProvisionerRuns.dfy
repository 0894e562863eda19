/** What every create call keeps, whatever Azure answers, and what sequences of retries achieve. */
module ProvisionerRuns {
  import opened GrpcErrors
  import opened Paging
  import opened Provisioner

  /** The error of a failed create or poll. */
  function FailureOf(event: Event): Option<Error>
  {
    match event
    case CreateSent(_, _, _, refused) => refused
    case CreatePolled(PollFailed(e)) => Some(e)
    case _ => None
  }

  /** The failure at j is one after which the cluster is deleted: a timeout, or another marked failure
      followed by a fresh Get that shows the cluster Failed. */
  predicate Justifies(p: Properties, events: seq<Event>, j: int)
  {
    && 0 <= j < |events| && FailureOf(events[j]).Some?
    && var e := FailureOf(events[j]).value;
       || TimedOut(e)
       || (Suspect(e) && j + 1 < |events| && IsGet(p, events[j + 1]) && StateOf(events[j + 1].get) == Ok(Failed))
  }

  ghost predicate Deletes(events: seq<Event>)
  {
    exists i | 0 <= i < |events| :: events[i].DeleteSent?
  }

  ghost predicate HasJustification(p: Properties, events: seq<Event>)
  {
    exists j | 0 <= j < |events| :: Justifies(p, events, j)
  }

  /** The part of a call after a failure with error e: at most a Get, then at most one deletion. */
  lemma FailureTail(p: Properties, e: Error, events: seq<Event>, r: Result<string>)
    requires FailureRun(p, e, events, r)
    ensures r.Err?
    ensures forall i | 0 <= i < |events| :: events[i].Got? || events[i].DeleteSent? || events[i].DeletePolled?
    ensures forall i | 0 <= i < |events| && events[i].DeleteSent? ::
              && i == (if TimedOut(e) then 0 else 1)
              && events[i].resourceGroup == p.resourceGroup && events[i].name == p.name
    ensures Deletes(events) <==>
            TimedOut(e) || (Suspect(e) && |events| > 0 && IsGet(p, events[0]) && StateOf(events[0].get) == Ok(Failed))
  {
    if TimedOut(e) {
      assert events[0].DeleteSent?;
    } else if Suspect(e) && StateOf(events[0].get) == Ok(Failed) {
      assert events[1..][0] == events[1];
      assert events[1].DeleteSent?;
      assert |events| == 3 ==> events[2] == events[1..][1];
    }
  }

  /** The part of a call from the create request on: it ends in an address, or the event at f failed
      and what follows is the handling of that failure. */
  lemma SendShape(p: Properties, events: seq<Event>, r: Result<string>) returns (f: nat)
    requires SendRun(p, events, r)
    ensures f < 2 && f < |events| && events[0].CreateSent?
    ensures f == 1 ==> events[0].refused.None? && events[1].CreatePolled?
    ensures match FailureOf(events[f])
            case Some(e) => FailureRun(p, e, events[f + 1..], r)
            case None => f == 1 && |events| == 2 && r.Ok? && events[1] == CreatePolled(Created(r.value))
  {
    f := if events[0].refused.Some? then 0 else 1;
    assert f == 1 ==> |events[1..]| >= 1 && events[1..][0] == events[1] && events[1..][1..] == events[2..];
  }

  /** Positions of the requests of a call from the create request on. */
  lemma SendPositions(p: Properties, events: seq<Event>, r: Result<string>, f: nat)
    requires f < 2 && f < |events| && events[0].CreateSent? && (f == 1 ==> events[1].CreatePolled?)
    requires FailureOf(events[f]).Some? && FailureRun(p, FailureOf(events[f]).value, events[f + 1..], r)
    ensures forall i | f < i < |events| :: events[i].Got? || events[i].DeleteSent? || events[i].DeletePolled?
    ensures forall i | 0 <= i < |events| && events[i].DeleteSent? ::
              && i == f + (if TimedOut(FailureOf(events[f]).value) then 1 else 2)
              && events[i].resourceGroup == p.resourceGroup && events[i].name == p.name
    ensures Deletes(events) <==> Justifies(p, events, f)
    ensures r.Err?
  {
    var e := FailureOf(events[f]).value;
    var tail := events[f + 1..];
    FailureTail(p, e, tail, r);
    assert forall i | f < i < |events| :: events[i] == tail[i - f - 1];
    assert |tail| > 0 ==> tail[0] == events[f + 1];
    if Deletes(tail) {
      var i :| 0 <= i < |tail| && tail[i].DeleteSent?;
      assert events[i + f + 1].DeleteSent?;
    }
    if Deletes(events) {
      var i :| 0 <= i < |events| && events[i].DeleteSent?;
      assert tail[i - f - 1].DeleteSent?;
    }
  }

  /** The facts about one call that the theorems below spell out. */
  ghost predicate DeletesAreGated(p: Properties, events: seq<Event>, r: Result<string>)
  {
    && (forall i | 0 <= i < |events| && events[i].DeleteSent? ::
          && events[i].resourceGroup == p.resourceGroup && events[i].name == p.name
          && exists j | 0 <= j < i :: Justifies(p, events, j))
    && (HasJustification(p, events) ==> Deletes(events))
    && (Deletes(events) ==> r.Err?)
  }

  lemma SendGatesDeletes(p: Properties, events: seq<Event>, r: Result<string>)
    requires SendRun(p, events, r)
    ensures DeletesAreGated(p, events, r)
  {
    var f := SendShape(p, events, r);
    if FailureOf(events[f]).Some? {
      SendPositions(p, events, r, f);
      assert forall j | 0 <= j < |events| && Justifies(p, events, j) :: j == f;
      forall i | 0 <= i < |events| && events[i].DeleteSent?
        ensures exists j | 0 <= j < i :: Justifies(p, events, j)
      {
        assert Justifies(p, events, f);
      }
    }
  }

  /** Events put in front that are no create, poll or delete change nothing about gating. */
  lemma GatingShifts(p: Properties, events: seq<Event>, k: nat, r: Result<string>)
    requires k <= |events|
    requires forall i | 0 <= i < k :: events[i].Got? || events[i].Sized? || events[i].Listed?
    requires DeletesAreGated(p, events[k..], r)
    ensures DeletesAreGated(p, events, r)
  {
    var tail := events[k..];
    assert forall i | k <= i < |events| :: events[i] == tail[i - k];
    assert forall j | 0 <= j < |tail| :: Justifies(p, tail, j) <==> Justifies(p, events, j + k);
    forall i | 0 <= i < |events| && events[i].DeleteSent?
      ensures events[i].resourceGroup == p.resourceGroup && events[i].name == p.name
      ensures exists j | 0 <= j < i :: Justifies(p, events, j)
    {
      assert tail[i - k].DeleteSent?;
      var j :| 0 <= j < i - k && Justifies(p, tail, j);
      assert Justifies(p, events, j + k);
    }
    if HasJustification(p, events) {
      var j :| 0 <= j < |events| && Justifies(p, events, j);
      assert j >= k;
      assert Justifies(p, tail, j - k);
      var i :| 0 <= i < |tail| && tail[i].DeleteSent?;
      assert events[i + k].DeleteSent?;
    }
    if Deletes(events) {
      var i :| 0 <= i < |events| && events[i].DeleteSent?;
      assert tail[i - k].DeleteSent?;
    }
  }

  /** What the answers so far must be for a create request to be sent. */
  predicate GateOpen(p: Properties, events: seq<Event>)
  {
    && |events| >= 1 && IsGet(p, events[0])
    && match StateOf(events[0].get)
       case Ok(Exists) => true
       case Ok(Failed) => true
       case Ok(Absent) =>
         && |events| >= 3 && events[1].Sized? && events[1].size.Size? && events[2].Listed?
         && FreeAddresses(events[2].pages, p.subnet.id).Ok?
         && events[1].size.ips <= FreeAddresses(events[2].pages, p.subnet.id).value
       case _ => false
  }

  /** A call either sends nothing that changes anything and fails, or reaches the create at k. */
  lemma CreateShape(client: bool, p: Properties, events: seq<Event>, r: Result<string>) returns (sent: bool, k: nat)
    requires CreateRun(client, p, events, r)
    ensures k <= |events|
    ensures forall i | 0 <= i < k :: events[i].Got? || events[i].Sized? || events[i].Listed?
    ensures sent ==> k > 0 && GateOpen(p, events) && SendRun(p, events[k..], r)
    ensures !sent ==> k == |events| && !GateOpen(p, events) && r.Err?
  {
    hide SendRun;
    sent, k := false, |events|;
    if events != [] && StateOf(events[0].get).Ok? {
      var rest := events[1..];
      assert forall i | 0 < i < |events| :: events[i] == rest[i - 1];
      match StateOf(events[0].get).value
      case Deleting =>
      case Absent =>
        if |rest| >= 2 && CapacityRun(p, rest[..2], Ok(true)) && SendRun(p, rest[2..], r) {
          assert rest[2..] == events[3..];
          sent, k := true, 3;
        } else {
          assert |rest| == 2 ==> rest[..2] == rest;
        }
      case _ =>
        sent, k := true, 1;
    }
  }

  /** Delete gating. In every run of a create call: a delete goes only to the cluster being created, and
      only after this call's own create or poll failed with DeadlineExceeded and a Timeout marker, or
      with an Error or Fail marker and a fresh Get showing Failed; such a failure is always followed by a
      delete; once a delete is sent the call ends in an error. */
  lemma DeleteGating(client: bool, p: Properties, events: seq<Event>, r: Result<string>)
    requires CreateRun(client, p, events, r)
    ensures forall i | 0 <= i < |events| && events[i].DeleteSent? ::
              && events[i].resourceGroup == p.resourceGroup && events[i].name == p.name
              && exists j | 0 <= j < i :: Justifies(p, events, j)
    ensures Deletes(events) <==> HasJustification(p, events)
    ensures Deletes(events) ==> r.Err?
  {
    var sent, k := CreateShape(client, p, events, r);
    if sent {
      SendGatesDeletes(p, events[k..], r);
      GatingShifts(p, events, k, r);
    }
  }

  lemma SendAddress(p: Properties, events: seq<Event>, r: Result<string>, address: string)
    requires SendRun(p, events, r)
    ensures r == Ok(address) <==> CreatePolled(Created(address)) in events
  {
    var f := SendShape(p, events, r);
    hide SendRun;
    if FailureOf(events[f]).Some? {
      SendPositions(p, events, r, f);
      hide FailureRun, Justifies;
      assert forall i | 0 <= i < |events| :: events[i] != CreatePolled(Created(address));
    } else {
      assert events[1] in events;
    }
  }

  /** An address is returned exactly when the poll of this call's create delivered it, and then no delete
      was sent. */
  lemma AddressMeansCreated(client: bool, p: Properties, events: seq<Event>, r: Result<string>, address: string)
    requires CreateRun(client, p, events, r)
    ensures r == Ok(address) <==> CreatePolled(Created(address)) in events
    ensures r == Ok(address) ==> !Deletes(events)
  {
    hide CreateRun, SendRun, GateOpen, HasJustification, Justifies;
    DeleteGating(client, p, events, r);
    var sent, k := CreateShape(client, p, events, r);
    if sent {
      SendAddress(p, events[k..], r, address);
    }
    assert CreatePolled(Created(address)) !in events[..k];
    assert events == events[..k] + events[k..];
  }

  ghost predicate CreateAt(p: Properties, events: seq<Event>, k: int)
  {
    && 0 <= k < |events|
    && events[k].CreateSent? && events[k] == CreateSent(p.resourceGroup, p.name, RequestFor(p), events[k].refused)
    && (forall i | 0 <= i < |events| && i != k :: !events[i].CreateSent?)
    && (forall i | 0 <= i < |events| && events[i].DeleteSent? :: k < i)
    && (forall i, j | 0 <= i < j < |events| :: !(events[i].DeleteSent? && events[j].DeleteSent?))
  }

  lemma SendOrder(p: Properties, events: seq<Event>, r: Result<string>)
    requires SendRun(p, events, r)
    ensures CreateAt(p, events, 0)
  {
    var f := SendShape(p, events, r);
    if FailureOf(events[f]).Some? {
      SendPositions(p, events, r, f);
    }
  }

  lemma OrderShifts(p: Properties, events: seq<Event>, k: nat)
    requires k <= |events| && CreateAt(p, events[k..], 0)
    requires forall i | 0 <= i < k :: events[i].Got? || events[i].Sized? || events[i].Listed?
    ensures CreateAt(p, events, k)
  {
    var tail := events[k..];
    assert forall i | k <= i < |events| :: events[i] == tail[i - k];
  }

  /** Create gating. A create request goes out exactly when the first Get showed a cluster that exists or
      failed, or none and the required addresses are within what the first matching usage entry leaves
      free; in particular never after Deleting. It carries the request built from the properties. One
      call sends at most one create and at most one delete, in that order. */
  lemma CreateGating(client: bool, p: Properties, events: seq<Event>, r: Result<string>)
    requires CreateRun(client, p, events, r)
    ensures GateOpen(p, events) ==> exists k :: CreateAt(p, events, k)
    ensures !GateOpen(p, events) ==> forall i | 0 <= i < |events| :: !events[i].CreateSent? && !events[i].DeleteSent?
  {
    var sent, k := CreateShape(client, p, events, r);
    if sent {
      SendOrder(p, events[k..], r);
      OrderShifts(p, events, k);
    }
  }

  // ---- The same by the answers themselves ----

  /** What the first answer of Azure leads to. Without a subnet nothing is asked. A cluster that is being deleted ends
      the call with Aborted and nothing else; one in any other state, or in none that is reported, is created or
      updated next; for one that is not found the required size is asked for next; any other error ends the call. */
  lemma FirstAnswerDecides(p: Properties, events: seq<Event>, r: Result<string>)
    requires CreateRun(true, p, events, r)
    ensures p.subnet.id == "" || p.subnet.name == "" || p.subnet.vnetName == "" || p.subnet.vnetResourceGroup == "" ==>
              events == [] && r == Err(Status(InvalidArgument, PLAIN))
    ensures p.subnet.id != "" && p.subnet.name != "" && p.subnet.vnetName != "" && p.subnet.vnetResourceGroup != "" ==>
              && |events| > 0 && events[0].Got?
              && events[0].resourceGroup == p.resourceGroup && events[0].name == p.name
              && match events[0].get
                 case Found(BeingDeleted) => |events| == 1 && r == Err(Status(Aborted, PLAIN))
                 case Found(FailedState) => |events| > 1 && events[1].CreateSent?
                 case Found(Unreported) => |events| > 1 && events[1].CreateSent?
                 case Found(AnyOther) => |events| > 1 && events[1].CreateSent?
                 case GetFailed(e) =>
                   if e.text.missing then |events| > 1 && events[1].Sized?
                   else |events| == 1 && r == Err(Converted(e))
  {
    hide FailureRun, PollRun;
    if events != [] {
      var rest := events[1..];
      assert |rest| > 0 ==> rest[0] == events[1];
      assert |rest| > 1 ==> rest[..2][0] == rest[0];
    }
  }

  /** Without a client nothing is asked. */
  lemma NoClientNoCall(p: Properties, events: seq<Event>, r: Result<string>)
    requires CreateRun(false, p, events, r)
    ensures events == [] && r == Err(Status(Internal, PLAIN))
  {
  }

  /** Every create of a call carries the request of its properties, to their cluster; every query for usage is for
      their network. */
  lemma RunIsFor(client: bool, p: Properties, events: seq<Event>, r: Result<string>, i: nat)
    requires CreateRun(client, p, events, r) && i < |events|
    ensures events[i].CreateSent? ==>
              && events[i].resourceGroup == p.resourceGroup && events[i].name == p.name
              && events[i].request == RequestFor(p)
    ensures events[i].Listed? ==>
              events[i].vnetResourceGroup == p.subnet.vnetResourceGroup && events[i].vnetName == p.subnet.vnetName
  {
    if events[i].CreateSent? {
      CreateGating(client, p, events, r);
      hide CreateRun, GateOpen, RequestFor;
      var k :| CreateAt(p, events, k);
    } else if events[i].Listed? {
      ListedIsThird(client, p, events, r, i);
      CapacityDecides(p, events, r);
    }
  }

  lemma ListedIsThird(client: bool, p: Properties, events: seq<Event>, r: Result<string>, i: nat)
    requires CreateRun(client, p, events, r) && i < |events| && events[i].Listed?
    ensures client && i == 2 && events[1].Sized?
  {
    hide FreeAddresses, FailureRun, PollRun;
    if StateOf(events[0].get) == Ok(Absent) {
      AbsentShape(client, p, events, r);
    }
    var sent, k := CreateShape(client, p, events, r);
    if sent && i >= k {
      var tail := events[k..];
      assert tail[i - k] == events[i];
      NoListAfterCreate(p, tail, r, i - k);
    }
  }

  lemma AbsentShape(client: bool, p: Properties, events: seq<Event>, r: Result<string>)
    requires CreateRun(client, p, events, r) && events != [] && StateOf(events[0].get) == Ok(Absent)
    ensures |events| > 1 && events[1].Sized? && (|events| > 3 ==> events[3].CreateSent?)
  {
    hide FreeAddresses, FailureRun, PollRun;
    var rest := events[1..];
    assert forall i | 0 < i < |events| :: events[i] == rest[i - 1];
    assert |rest| > 1 ==> rest[..2][0] == rest[0];
    assert |rest| > 2 ==> rest[2..][0] == rest[2];
  }

  lemma NoListAfterCreate(p: Properties, events: seq<Event>, r: Result<string>, i: nat)
    requires SendRun(p, events, r) && i < |events|
    ensures !events[i].Listed?
  {
    hide SendRun, FailureRun, Justifies, Deletes;
    var f := SendShape(p, events, r);
    if FailureOf(events[f]).Some? {
      SendPositions(p, events, r, f);
    }
  }

  /** After a capacity check the create goes out exactly when the addresses suffice. */
  lemma CapacityDecides(p: Properties, events: seq<Event>, r: Result<string>)
    requires CreateRun(true, p, events, r) && |events| > 1 && events[1].Sized?
    ensures events[1].sku == p.sku && events[1].capacityTiB == p.capacityTiB
    ensures match events[1].size
            case SizeFailed(e) => |events| == 2 && r == Err(Converted(e))
            case NoSize => |events| == 2 && r == Err(Status(Internal, PLAIN))
            case Size(needed) =>
              && |events| > 2 && events[2].Listed?
              && events[2].vnetResourceGroup == p.subnet.vnetResourceGroup && events[2].vnetName == p.subnet.vnetName
              && match FreeAddresses(events[2].pages, p.subnet.id)
                 case Err(e) => |events| == 3 && r == Err(e)
                 case Ok(free) =>
                   if needed <= free then |events| > 3 && events[3].CreateSent?
                   else |events| == 3 && r == Err(Status(ResourceExhausted, PLAIN))
  {
    hide FailureRun, PollRun, FreeAddresses;
    var rest := events[1..];
    assert forall i | 0 < i < |events| :: events[i] == rest[i - 1];
    assert |rest| > 1 ==> rest[..2][0] == rest[0] && rest[..2][1] == rest[1];
    assert |rest| > 2 ==> rest[2..][0] == rest[2];
  }

  /** What a failed create or poll leads to, by its error as converted: a delete at once for DeadlineExceeded with a
      Timeout marker; for DeadlineExceeded with an Error or Fail marker a Get, and a delete exactly if that answers
      Failed; otherwise the end of the call with that error. */
  lemma FailureDecides(client: bool, p: Properties, events: seq<Event>, r: Result<string>, j: nat, e: Error)
    requires CreateRun(client, p, events, r) && j < |events|
    requires (events[j].CreateSent? && events[j].refused == Some(e)) || events[j] == CreatePolled(PollFailed(e))
    ensures var c := Converted(e);
            if c.code == DeadlineExceeded && c.text.timeout then
              |events| > j + 1 && events[j + 1].DeleteSent?
            else if c.code == DeadlineExceeded && (c.text.error || c.text.fail) then
              && |events| > j + 1 && events[j + 1].Got?
              && events[j + 1].resourceGroup == p.resourceGroup && events[j + 1].name == p.name
              && (events[j + 1].get == Found(FailedState) <==> |events| > j + 2 && events[j + 2].DeleteSent?)
              && (events[j + 1].get != Found(FailedState) ==> |events| == j + 2)
            else
              |events| == j + 1 && r == Err(c)
  {
    hide CreateRun;
    FailureIsHandled(client, p, events, r, j);
    var tail := events[j + 1..];
    assert forall i | j < i < |events| :: events[i] == tail[i - j - 1];
    assert |tail| > 1 ==> tail[1..][0] == tail[1];
  }

  /** The Timeout branch does not look at the cluster again: a cluster that was there and healthy when the
      call began is deleted when the update request times out. */
  lemma TimeoutDeletesHealthyCluster(p: Properties)
    requires SubnetGiven(p)
    ensures var gone := Http(504, PLAIN, PLAIN.(timeout := true));
            var events := [Got(p.resourceGroup, p.name, Found(AnyOther)),
                           CreateSent(p.resourceGroup, p.name, RequestFor(p), None),
                           CreatePolled(PollFailed(gone)),
                           DeleteSent(p.resourceGroup, p.name, None),
                           DeletePolled(None)];
            CreateRun(true, p, events, Err(ABORTED))
  {
    var gone := Http(504, PLAIN, PLAIN.(timeout := true));
    var deletion := [DeleteSent(p.resourceGroup, p.name, None), DeletePolled(None)];
    var poll := [CreatePolled(PollFailed(gone))] + deletion;
    var send := [CreateSent(p.resourceGroup, p.name, RequestFor(p), None)] + poll;
    var events := [Got(p.resourceGroup, p.name, Found(AnyOther))] + send;
    TimeoutIsHandled(p, gone, deletion);
    hide FailureRun, DeleteRun, RequestFor;
    assert poll[1..] == deletion && send[1..] == poll;
    assert SendRun(p, send, Err(ABORTED));
    hide SendRun;
    assert events[1..] == send;
    assert events == [Got(p.resourceGroup, p.name, Found(AnyOther)),
                      CreateSent(p.resourceGroup, p.name, RequestFor(p), None),
                      CreatePolled(PollFailed(gone)),
                      DeleteSent(p.resourceGroup, p.name, None),
                      DeletePolled(None)];
  }

  lemma TimeoutIsHandled(p: Properties, e: Error, deletion: seq<Event>)
    requires TimedOut(e) && deletion == [DeleteSent(p.resourceGroup, p.name, None), DeletePolled(None)]
    ensures FailureRun(p, e, deletion, Err(ABORTED))
  {
    assert DeleteRun(p.resourceGroup, p.name, deletion, None);
  }

  // ---- Where errors come from ----

  /** The errors Azure answered in an exchange. */
  function ErrorsOf(event: Event): set<Error>
  {
    match event
    case Got(_, _, GetFailed(e)) => {e}
    case Sized(_, _, SizeFailed(e)) => {e}
    case Listed(_, _, pages) => set g | g in pages && g.PageFailed? :: g.error
    case CreateSent(_, _, _, Some(e)) => {e}
    case CreatePolled(PollFailed(e)) => {e}
    case DeleteSent(_, _, Some(e)) => {e}
    case DeletePolled(Some(e)) => {e}
    case _ => {}
  }

  /** The error is one the driver makes itself, or the conversion of one that Azure answered. */
  ghost predicate Explained(events: seq<Event>, e: Error)
  {
    || e in {INTERNAL, INVALID, ABORTED, EXHAUSTED, NO_SUBNET}
    || exists i, a :: 0 <= i < |events| && a in ErrorsOf(events[i]) && e == Converted(a)
  }

  lemma ExplainedBy(events: seq<Event>, i: nat, a: Error)
    requires i < |events| && a in ErrorsOf(events[i])
    ensures Explained(events, Converted(a))
  {
  }

  lemma ExplainedLater(events: seq<Event>, k: nat, e: Error)
    requires k <= |events| && Explained(events[k..], e)
    ensures Explained(events, e)
  {
    if e !in {INTERNAL, INVALID, ABORTED, EXHAUSTED, NO_SUBNET} {
      var i, a :| 0 <= i < |events[k..]| && a in ErrorsOf(events[k..][i]) && e == Converted(a);
      assert events[k + i] == events[k..][i];
    }
  }

  lemma {:induction false} PagesExplain(pages: seq<PageReply<Usage>>, id: string)
    ensures match FreeAddresses(pages, id)
            case Ok(_) => true
            case Err(e) => e == NO_SUBNET || exists g :: g in pages && g.PageFailed? && e == Converted(g.error)
  {
    if pages != [] && pages[0].Page? {
      PagesExplain(pages[1..], id);
    } else if pages != [] {
      assert pages[0] in pages;
    }
  }

  lemma DeletionExplains(p: Properties, events: seq<Event>, r: Result<string>)
    requires DeleteBeforeRetryRun(p, events, r)
    ensures Explained(events, r.error)
  {
    if DeleteRun(p.resourceGroup, p.name, events, Some(r.error)) {
      if events[0].refused.Some? {
        ExplainedBy(events, 0, events[0].refused.value);
      } else {
        ExplainedBy(events, 1, events[1].failure.value);
      }
    }
  }

  /** After a failure e, the error reported is e converted, or explained by what followed. */
  lemma FailureExplains(p: Properties, e: Error, events: seq<Event>, r: Result<string>)
    requires FailureRun(p, e, events, r)
    ensures r.Err? && (r.error == Converted(e) || Explained(events, r.error))
  {
    if TimedOut(e) {
      DeletionExplains(p, events, r);
    } else if Suspect(e) {
      match StateOf(events[0].get)
      case Err(g) => ExplainedBy(events, 0, events[0].get.error);
      case Ok(state) =>
        if state == Failed {
          DeletionExplains(p, events[1..], r);
          ExplainedLater(events, 1, r.error);
        }
    }
  }

  lemma SendExplains(p: Properties, events: seq<Event>, r: Result<string>)
    requires SendRun(p, events, r) && r.Err?
    ensures Explained(events, r.error)
  {
    var f := SendShape(p, events, r);
    hide SendRun;
    var e := FailureOf(events[f]).value;
    assert e in ErrorsOf(events[f]);
    ExplainedBy(events, f, e);
    FailureExplains(p, e, events[f + 1..], r);
    hide FailureRun, Explained;
    if r.error != Converted(e) {
      ExplainedLater(events, f + 1, r.error);
    }
  }

  lemma CapacityExplains(p: Properties, events: seq<Event>, e: Error)
    requires CapacityRun(p, events, Err(e))
    ensures Explained(events, e)
  {
    match events[0].size
    case SizeFailed(a) => ExplainedBy(events, 0, a);
    case NoSize =>
    case Size(_) =>
      PagesExplain(events[1].pages, p.subnet.id);
      if e != NO_SUBNET {
        var g :| g in events[1].pages && g.PageFailed? && e == Converted(g.error);
        assert g.error in ErrorsOf(events[1]);
        ExplainedBy(events, 1, g.error);
      }
  }

  lemma GatedExplains(p: Properties, state: ClusterState, events: seq<Event>, r: Result<string>)
    requires GatedRun(p, state, events, r) && r.Err?
    ensures Explained(events, r.error)
  {
    hide CapacityRun, SendRun;
    if state == Absent {
      if CapacityRun(p, events, Err(r.error)) {
        CapacityExplains(p, events, r.error);
      } else if |events| >= 2 && SendRun(p, events[2..], r) {
        SendExplains(p, events[2..], r);
        ExplainedLater(events, 2, r.error);
      }
    } else if state != Deleting {
      SendExplains(p, events, r);
    }
  }

  /** Error provenance: an error reported by a create call is one of the driver's own verdicts, or the converted
      form of an error Azure answered in this very call; its code is never OK. */
  lemma ErrorProvenance(client: bool, p: Properties, events: seq<Event>, r: Result<string>)
    requires CreateRun(client, p, events, r) && r.Err?
    ensures Explained(events, r.error) && r.error.Status? && r.error.code != OK
  {
    if events != [] {
      match StateOf(events[0].get)
      case Err(e) => ExplainedBy(events, 0, events[0].get.error);
      case Ok(state) =>
        hide GatedRun;
        GatedExplains(p, state, events[1..], r);
        ExplainedLater(events, 1, r.error);
    }
  }

  /** A failed create or poll is followed by its handling and nothing else. */
  lemma FailureIsHandled(client: bool, p: Properties, events: seq<Event>, r: Result<string>, j: nat)
    requires CreateRun(client, p, events, r) && j < |events| && FailureOf(events[j]).Some?
    ensures FailureRun(p, FailureOf(events[j]).value, events[j + 1..], r)
    ensures forall i | 0 <= i <= j :: !events[i].DeleteSent? && !events[i].DeletePolled?
  {
    hide CreateRun, GateOpen, SendRun, FailureRun;
    var sent, k := CreateShape(client, p, events, r);
    if sent {
      var tail := events[k..];
      assert tail[j - k] == events[j];
      SentFailureIsHandled(p, tail, r, j - k);
      assert forall i | k <= i <= j :: events[i] == tail[i - k];
      assert tail[j - k + 1..] == events[j + 1..];
    }
  }

  lemma SentFailureIsHandled(p: Properties, events: seq<Event>, r: Result<string>, j: nat)
    requires SendRun(p, events, r) && j < |events| && FailureOf(events[j]).Some?
    ensures FailureRun(p, FailureOf(events[j]).value, events[j + 1..], r)
    ensures forall i | 0 <= i <= j :: !events[i].DeleteSent? && !events[i].DeletePolled?
  {
    hide SendRun, FailureRun, Justifies, Deletes;
    var f := SendShape(p, events, r);
    if FailureOf(events[f]).Some? {
      SendPositions(p, events, r, f);
    }
    assert j == f;
  }

  /** The deletion Azure refused or failed with this error. */
  predicate DeletionFailedWith(event: Event, a: Error)
  {
    event == DeletePolled(Some(a)) || (event.DeleteSent? && event.refused == Some(a))
  }

  /** The code of a failed create reaches the caller. After a failed create or poll the call reports that error,
      converted, unless the Get that looks at the cluster fails in turn; if a delete was sent it reports Aborted
      when the deletion completed and the deletion's own error, converted, when not. */
  lemma FailureOutcome(client: bool, p: Properties, events: seq<Event>, r: Result<string>, j: nat)
    requires CreateRun(client, p, events, r) && j < |events| && FailureOf(events[j]).Some?
    ensures !Deletes(events) ==>
              || r == Err(Converted(FailureOf(events[j]).value))
              || (j + 1 < |events| && IsGet(p, events[j + 1]) && StateOf(events[j + 1].get).Err?
                  && r == Err(StateOf(events[j + 1].get).error))
    ensures Deletes(events) ==> ReportsDeletion(events, r)
  {
    hide CreateRun, FailureRun, StateOf, ReportsDeletion;
    FailureIsHandled(client, p, events, r, j);
    var tail := events[j + 1..];
    HandlingOutcome(p, FailureOf(events[j]).value, tail, r);
    assert forall i | j < i < |events| :: events[i] == tail[i - j - 1];
    if Deletes(tail) {
      LaterOutcome(events, j + 1, r);
    }
  }

  lemma HandlingOutcome(p: Properties, e: Error, events: seq<Event>, r: Result<string>)
    requires FailureRun(p, e, events, r)
    ensures !Deletes(events) ==>
              || r == Err(Converted(e))
              || (events != [] && IsGet(p, events[0]) && StateOf(events[0].get).Err?
                 && r == Err(StateOf(events[0].get).error))
    ensures Deletes(events) ==> ReportsDeletion(events, r)
  {
    FailureTail(p, e, events, r);
    if Deletes(events) {
      var k := if TimedOut(e) then 0 else 1;
      DeletionOutcome(p, events[k..], r);
      assert k == 1 ==> events[0].Got?;
      hide FailureRun, Converted, StateOf, DeletionFailedWith, Deletes, IsGet;
      LaterOutcome(events, k, r);
    }
  }

  /** How a deletion that was sent ended, as the call reports it. */
  ghost predicate ReportsDeletion(events: seq<Event>, r: Result<string>)
  {
    if DeletePolled(None) in events then r == Err(ABORTED)
    else exists i, a :: 0 <= i < |events| && DeletionFailedWith(events[i], a) && r == Err(Converted(a))
  }

  lemma LaterOutcome(events: seq<Event>, k: nat, r: Result<string>)
    requires k <= |events| && ReportsDeletion(events[k..], r)
    requires forall i | 0 <= i < k :: !events[i].DeletePolled?
    ensures ReportsDeletion(events, r)
  {
    hide Converted, DeletionFailedWith;
    var tail := events[k..];
    assert forall i | k <= i < |events| :: events[i] == tail[i - k];
    assert DeletePolled(None) in events <==> DeletePolled(None) in tail;
    if DeletePolled(None) !in tail {
      var i, a :| 0 <= i < |tail| && DeletionFailedWith(tail[i], a) && r == Err(Converted(a));
      assert DeletionFailedWith(events[i + k], a);
    }
  }

  lemma DeletionOutcome(p: Properties, events: seq<Event>, r: Result<string>)
    requires DeleteBeforeRetryRun(p, events, r)
    ensures ReportsDeletion(events, r)
  {
    if events[0].refused.Some? {
      assert DeletionFailedWith(events[0], events[0].refused.value);
    } else if events[1].failure.Some? {
      assert DeletionFailedWith(events[1], events[1].failure.value);
      assert r == Err(Converted(events[1].failure.value));
    } else {
      assert events[1] == DeletePolled(None) && events[1] in events;
    }
  }

  // ---- Retries ----

  /** One create call of a sequence of retries. */
  datatype Attempt = Attempt(events: seq<Event>, result: Result<string>)

  /** Azure causes no other trouble in this call: every answer to a Get is a state, the subnet has room,
      deletions complete, and a create fails only in a way that leads to delete and retry. */
  ghost predicate Benign(p: Properties, events: seq<Event>)
  {
    && (forall i | 0 <= i < |events| && events[i].Got? :: StateOf(events[i].get).Ok?)
    && (forall i | 0 <= i < |events| && events[i].Sized? :: events[i].size.Size?)
    && (forall i | 0 < i < |events| && events[i].Listed? && events[i - 1].Sized? && events[i - 1].size.Size? ::
          && FreeAddresses(events[i].pages, p.subnet.id).Ok?
          && events[i - 1].size.ips <= FreeAddresses(events[i].pages, p.subnet.id).value)
    && (forall i | 0 <= i < |events| && events[i].DeleteSent? :: events[i].refused.None?)
    && (forall i | 0 <= i < |events| && events[i].DeletePolled? :: events[i].failure.None?)
    && (forall i | 0 <= i < |events| && FailureOf(events[i]).Some? :: Justifies(p, events, i))
  }

  /** Such calls: one in which an existing cluster is deleted after a timeout, and one in which it is delivered. */
  lemma BenignCalls(p: Properties, address: string)
    requires SubnetGiven(p)
    ensures var got, sent := Got(p.resourceGroup, p.name, Found(AnyOther)),
                             CreateSent(p.resourceGroup, p.name, RequestFor(p), None);
            var gone := Http(504, PLAIN, PLAIN.(timeout := true));
            && Benign(p, [got, sent, CreatePolled(PollFailed(gone)), DeleteSent(p.resourceGroup, p.name, None),
                          DeletePolled(None)])
            && Benign(p, [got, sent, CreatePolled(Created(address))])
  {
    hide RequestFor, FreeAddresses;
  }

  function CountFailures(events: seq<Event>): nat
  {
    if events == [] then 0 else (if FailureOf(events[0]).Some? then 1 else 0) + CountFailures(events[1..])
  }

  function CountDeleting(events: seq<Event>): nat
  {
    if events == [] then 0
    else (if events[0].Got? && StateOf(events[0].get) == Ok(Deleting) then 1 else 0) + CountDeleting(events[1..])
  }

  function Failures(attempts: seq<Attempt>): nat
  {
    if attempts == [] then 0 else CountFailures(attempts[0].events) + Failures(attempts[1..])
  }

  function DeletingAnswers(attempts: seq<Attempt>): nat
  {
    if attempts == [] then 0 else CountDeleting(attempts[0].events) + DeletingAnswers(attempts[1..])
  }

  lemma {:induction false} FailureIsCounted(events: seq<Event>, i: nat)
    requires i < |events| && FailureOf(events[i]).Some?
    ensures CountFailures(events) >= 1
  {
    if i > 0 {
      FailureIsCounted(events[1..], i - 1);
    }
  }

  /** A call without address used up a retryable failure or a Deleting answer, and reported Aborted. */
  lemma FailedAttemptCosts(p: Properties, a: Attempt)
    requires SubnetGiven(p) && CreateRun(true, p, a.events, a.result) && Benign(p, a.events)
    ensures a.result.Ok? || CountFailures(a.events) + CountDeleting(a.events) >= 1
    ensures a.result.Err? ==> a.result.error == ABORTED
  {
    var events, r := a.events, a.result;
    var sent, k := CreateShape(true, p, events, r);
    hide CreateRun, GateOpen;
    if sent {
      SentAttemptCosts(p, events, k, r);
    } else {
      BenignGate(p, events, r);
    }
  }

  lemma SentAttemptCosts(p: Properties, events: seq<Event>, k: nat, r: Result<string>)
    requires Benign(p, events) && k <= |events| && SendRun(p, events[k..], r)
    ensures r.Ok? || (CountFailures(events) >= 1 && r.error == ABORTED)
  {
    hide SendRun, FailureRun, Benign, CountFailures;
    var tail := events[k..];
    var f := SendShape(p, tail, r);
    if FailureOf(tail[f]).Some? {
      assert events[k + f] == tail[f];
      FailureIsCounted(events, k + f);
      assert tail[f + 1..] == events[k + f + 1..];
      BenignFailureEndsAborted(p, events, k + f, r, tail[f + 1..]);
    }
  }

  lemma BenignFailureEndsAborted(p: Properties, events: seq<Event>, j: nat, r: Result<string>, tail: seq<Event>)
    requires Benign(p, events) && j < |events| && FailureOf(events[j]).Some? && tail == events[j + 1..]
    requires FailureRun(p, FailureOf(events[j]).value, tail, r)
    ensures r == Err(ABORTED)
  {
    assert Justifies(p, events, j);
    assert forall i | j < i < |events| :: events[i] == tail[i - j - 1];
    var deletion := if TimedOut(FailureOf(events[j]).value) then tail else tail[1..];
    assert forall i | 0 <= i < |deletion| :: deletion[i] in events;
    assert DeleteBeforeRetryRun(p, deletion, r);
    assert deletion[0].DeleteSent? && deletion[0].refused.None?;
    assert deletion[1].DeletePolled? && deletion[1].failure.None?;
  }

  lemma BenignGate(p: Properties, events: seq<Event>, r: Result<string>)
    requires SubnetGiven(p) && CreateRun(true, p, events, r) && Benign(p, events)
    ensures GateOpen(p, events) || (r == Err(ABORTED) && CountDeleting(events) >= 1)
  {
    if StateOf(events[0].get) == Ok(Absent) {
      var rest := events[1..];
      assert events[1] == rest[0] && events[2] == rest[1];
    }
  }

  lemma {:induction false} FailedAttemptsCost(p: Properties, attempts: seq<Attempt>)
    requires SubnetGiven(p)
    requires forall a | a in attempts :: CreateRun(true, p, a.events, a.result) && Benign(p, a.events)
    requires forall a | a in attempts :: a.result.Err?
    ensures Failures(attempts) + DeletingAnswers(attempts) >= |attempts|
  {
    if attempts != [] {
      FailedAttemptCosts(p, attempts[0]);
      FailedAttemptsCost(p, attempts[1..]);
    }
  }

  lemma {:induction false} CountsGrow(attempts: seq<Attempt>, k: nat)
    requires k <= |attempts|
    ensures Failures(attempts[..k]) <= Failures(attempts)
    ensures DeletingAnswers(attempts[..k]) <= DeletingAnswers(attempts)
  {
    if k > 0 {
      CountsGrow(attempts[1..], k - 1);
      assert attempts[..k][1..] == attempts[1..][..k - 1];
    }
  }

  /** Retry progress: if over a sequence of calls Azure fails at most n creates, always in a retryable way,
      and answers Deleting at most m times, one of the first n + m + 1 calls returns an address. */
  lemma RetryProgress(p: Properties, attempts: seq<Attempt>, n: nat, m: nat)
    requires SubnetGiven(p)
    requires forall a | a in attempts :: CreateRun(true, p, a.events, a.result) && Benign(p, a.events)
    requires Failures(attempts) <= n && DeletingAnswers(attempts) <= m
    requires |attempts| > n + m
    ensures exists i | 0 <= i <= n + m :: attempts[i].result.Ok?
  {
    hide CreateRun, Benign, SubnetGiven, Failures, DeletingAnswers;
    var first := attempts[..n + m + 1];
    CountsGrow(attempts, n + m + 1);
    if forall i | 0 <= i <= n + m :: attempts[i].result.Err? {
      assert forall a | a in first :: a in attempts && a.result.Err?;
      FailedAttemptsCost(p, first);
    }
  }
}
