/** The dynamic provisioner as a protocol with Azure: which requests one create call sends, in which
    order, after which answers, and what it reports. Every answer of Azure is arbitrary. */
module Provisioner {
  import opened GrpcErrors
  import opened Paging
  import Skus

  datatype Subnet = Subnet(id: string, vnetName: string, vnetResourceGroup: string, name: string)

  datatype Properties = Properties(
    resourceGroup: string,
    name: string,
    location: string,
    tags: map<string, string>,
    identities: Option<seq<string>>,
    subnet: Subnet,
    maintenanceDay: string,
    timeOfDay: string,
    capacityTiB: real,
    sku: string,
    zone: string)

  /** The body of a create-or-update request. */
  datatype Request = Request(
    location: string,
    tags: map<string, string>,
    subnetId: string,
    maintenanceDay: string,
    timeOfDay: string,
    capacityTiB: real,
    sku: string,
    zones: seq<string>,
    identities: Option<set<string>>)

  function RequestFor(p: Properties): Request
  {
    Request(p.location, p.tags, p.subnet.id, p.maintenanceDay, p.timeOfDay, p.capacityTiB, p.sku,
            if p.zone != "" then [p.zone] else [],
            match p.identities case None => None case Some(ids) => Some(set i | i in ids))
  }

  datatype ClusterState = Exists | Absent | Deleting | Failed

  /** What a Get answers: the provisioning state of the cluster, when the response has one. */
  datatype ProvisioningState = Unreported | BeingDeleted | FailedState | AnyOther

  datatype GetReply = Found(state: ProvisioningState) | GetFailed(error: Error)
  datatype SizeReply = Size(ips: int) | NoSize | SizeFailed(error: Error)
  datatype Usage = Usage(id: string, used: real, limit: real)
  datatype PollReply = Created(address: string) | PollFailed(error: Error)

  /** One exchange with Azure: the request and its answer. */
  datatype Event =
    | Got(resourceGroup: string, name: string, get: GetReply)
    | Sized(sku: string, capacityTiB: real, size: SizeReply)
    | Listed(vnetResourceGroup: string, vnetName: string, pages: seq<PageReply<Usage>>)
    | CreateSent(resourceGroup: string, name: string, request: Request, refused: Option<Error>)
    | CreatePolled(poll: PollReply)
    | DeleteSent(resourceGroup: string, name: string, refused: Option<Error>)
    | DeletePolled(failure: Option<Error>)
    | SkusListed(skuPages: seq<PageReply<Skus.Sku>>)

  /** currentClusterState, as a reading of the answer. */
  function StateOf(reply: GetReply): Result<ClusterState>
  {
    match reply
    case GetFailed(e) => if e.text.missing then Ok(Absent) else Err(Converted(e))
    case Found(BeingDeleted) => Ok(Deleting)
    case Found(FailedState) => Ok(Failed)
    case Found(_) => Ok(Exists)
  }

  // ---- Subnet capacity ----

  /** Go's conversion of a float64 to an int: towards zero. */
  function GoInt(x: real): int
  {
    if x >= 0.0 then x.Floor else -((-x).Floor)
  }

  function Free(u: Usage): int
  {
    GoInt(u.limit) - GoInt(u.used)
  }

  function FirstUsage(usages: seq<Usage>, id: string): Option<Usage>
  {
    if usages == [] then None
    else if usages[0].id == id then Some(usages[0])
    else FirstUsage(usages[1..], id)
  }

  /** The free addresses the pages report for a subnet; pages after the first match or the first
      failure are not looked at. */
  function FreeAddresses(pages: seq<PageReply<Usage>>, id: string): (r: Result<int>)
    ensures r.Err? ==> r.error.Status?
  {
    if pages == [] then Err(NO_SUBNET)
    else match pages[0]
      case PageFailed(e) => Err(Converted(e))
      case Page(usages) =>
        match FirstUsage(usages, id)
        case Some(u) => Ok(Free(u))
        case None => FreeAddresses(pages[1..], id)
  }

  lemma {:induction false} FirstUsageAppend(a: seq<Usage>, b: seq<Usage>, id: string)
    ensures FirstUsage(a + b, id) == if FirstUsage(a, id).Some? then FirstUsage(a, id) else FirstUsage(b, id)
  {
    if a == [] {
      assert a + b == b;
    } else {
      assert (a + b)[1..] == a[1..] + b;
      FirstUsageAppend(a[1..], b, id);
    }
  }

  lemma {:induction false} FirstUsageMeaning(usages: seq<Usage>, id: string)
    ensures match FirstUsage(usages, id)
            case None => forall j | 0 <= j < |usages| :: usages[j].id != id
            case Some(u) => exists k ::
              0 <= k < |usages| && usages[k] == u && u.id == id && forall j | 0 <= j < k :: usages[j].id != id
  {
    if usages != [] && usages[0].id != id {
      FirstUsageMeaning(usages[1..], id);
      match FirstUsage(usages[1..], id)
      case None =>
        forall j | 0 <= j < |usages| ensures usages[j].id != id {
          assert j > 0 ==> usages[j] == usages[1..][j - 1];
        }
      case Some(u) =>
        var k :| 0 <= k < |usages[1..]| && usages[1..][k] == u && u.id == id
                 && forall j | 0 <= j < k :: usages[1..][j].id != id;
        assert forall j | 0 < j < k + 1 :: usages[j] == usages[1..][j - 1];
        assert usages[k + 1] == u;
    }
  }

  /** Paging does not matter: the answer is that of the concatenated entries, hence the free
      addresses of the first entry with the subnet's ID. */
  lemma {:induction false} PagingIsIrrelevant(pages: seq<PageReply<Usage>>, id: string)
    requires forall g | g in pages :: g.Page?
    ensures FreeAddresses(pages, id) ==
            match FirstUsage(Concat(pages), id) case Some(u) => Ok(Free(u)) case None => Err(NO_SUBNET)
  {
    if pages != [] {
      PagingIsIrrelevant(pages[1..], id);
      FirstUsageAppend(pages[0].items, Concat(pages[1..]), id);
    }
  }

  /** Go's conversion cuts off the fraction. */
  lemma GoIntTruncates(x: real)
    ensures x >= 0.0 ==> GoInt(x) as real <= x < GoInt(x) as real + 1.0
    ensures x < 0.0 ==> GoInt(x) as real - 1.0 < x <= GoInt(x) as real
    ensures x == x.Floor as real ==> GoInt(x) as real == x
  {
    if x < 0.0 {
      FloorBounds(-x);
      var n := (-x).Floor;
      assert (-n) as real == -(n as real);
      if x == x.Floor as real {
        Whole(x.Floor);
      }
    } else {
      FloorBounds(x);
    }
  }

  lemma FloorBounds(x: real)
    ensures x.Floor as real <= x < x.Floor as real + 1.0
  {
  }

  lemma Whole(n: int)
    ensures (-(n as real)).Floor == -n
  {
    assert (-n) as real == -(n as real);
  }

  /** The addresses are enough exactly when, together with those in use, they are within the limit of the first entry
      with the subnet's ID, whatever the paging. */
  lemma EnoughIff(pages: seq<PageReply<Usage>>, id: string, k: nat, needed: int)
    requires forall g | g in pages :: g.Page?
    requires k < |Concat(pages)| && Concat(pages)[k].id == id && forall j | 0 <= j < k :: Concat(pages)[j].id != id
    ensures FreeAddresses(pages, id).Ok?
    ensures var u := Concat(pages)[k];
            var enough := needed <= FreeAddresses(pages, id).value;
            && (enough <==> needed + GoInt(u.used) <= GoInt(u.limit))
            && (u.used == u.used.Floor as real && u.limit == u.limit.Floor as real ==>
                  (enough <==> needed as real + u.used <= u.limit))
  {
    var usages := Concat(pages);
    PagingIsIrrelevant(pages, id);
    FirstUsageMeaning(usages, id);
    hide FirstUsage, Concat, FreeAddresses, GoInt;
    GoIntTruncates(usages[k].used);
    GoIntTruncates(usages[k].limit);
  }

  /** checkSubnetAddresses: the loops over pages and entries. */
  method CheckSubnetAddresses(pages: seq<PageReply<Usage>>, id: string) returns (r: Result<int>)
    ensures r == FreeAddresses(pages, id)
  {
    for k := 0 to |pages|
      invariant FreeAddresses(pages, id) == FreeAddresses(pages[k..], id)
    {
      if pages[k].PageFailed? {
        return Err(Converted(pages[k].error));
      }
      var usages := pages[k].items;
      for i := 0 to |usages|
        invariant FirstUsage(usages, id) == FirstUsage(usages[i..], id)
      {
        if usages[i].id == id {
          return Ok(Free(usages[i]));
        }
      }
    }
    return Err(NO_SUBNET);
  }

  // ---- The protocol as a relation between the events of a call and its outcome ----

  /** The events of a deletion and its outcome. */
  ghost predicate DeleteRun(resourceGroup: string, name: string, events: seq<Event>, failure: Option<Error>)
  {
    && |events| >= 1
    && events[0].DeleteSent? && events[0].resourceGroup == resourceGroup && events[0].name == name
    && match events[0].refused
       case Some(e) => |events| == 1 && failure == Some(Converted(e))
       case None => |events| == 2 && events[1].DeletePolled? && failure == Convert(events[1].failure)
  }

  /** The deletion that precedes a retry always ends in an error. */
  ghost predicate DeleteBeforeRetryRun(p: Properties, events: seq<Event>, r: Result<string>)
  {
    && r.Err?
    && (|| (DeleteRun(p.resourceGroup, p.name, events, None) && r.error == ABORTED)
        || DeleteRun(p.resourceGroup, p.name, events, Some(r.error)))
  }

  predicate TimedOut(e: Error)
  {
    Converted(e).code == DeadlineExceeded && Converted(e).text.timeout
  }

  predicate Suspect(e: Error)
  {
    Converted(e).code == DeadlineExceeded && !Converted(e).text.timeout
    && (Converted(e).text.error || Converted(e).text.fail)
  }

  predicate IsGet(p: Properties, event: Event)
  {
    event.Got? && event.resourceGroup == p.resourceGroup && event.name == p.name
  }

  /** What follows a failed create or poll. */
  ghost predicate FailureRun(p: Properties, e: Error, events: seq<Event>, r: Result<string>)
  {
    if TimedOut(e) then
      DeleteBeforeRetryRun(p, events, r)
    else if Suspect(e) then
      && |events| >= 1 && IsGet(p, events[0])
      && match StateOf(events[0].get)
         case Err(g) => |events| == 1 && r == Err(g)
         case Ok(state) =>
           if state == Failed then DeleteBeforeRetryRun(p, events[1..], r)
           else |events| == 1 && r == Err(Converted(e))
    else
      events == [] && r == Err(Converted(e))
  }

  ghost predicate PollRun(p: Properties, events: seq<Event>, r: Result<string>)
  {
    && |events| >= 1 && events[0].CreatePolled?
    && match events[0].poll
       case Created(address) => |events| == 1 && r == Ok(address)
       case PollFailed(e) => FailureRun(p, e, events[1..], r)
  }

  ghost predicate SendRun(p: Properties, events: seq<Event>, r: Result<string>)
  {
    && |events| >= 1
    && events[0].CreateSent? && events[0].resourceGroup == p.resourceGroup && events[0].name == p.name
    && events[0].request == RequestFor(p)
    && match events[0].refused
       case Some(e) => FailureRun(p, e, events[1..], r)
       case None => PollRun(p, events[1..], r)
  }

  /** The events of the capacity check and its outcome. */
  ghost predicate CapacityRun(p: Properties, events: seq<Event>, r: Result<bool>)
  {
    && |events| >= 1 && events[0].Sized? && events[0].sku == p.sku && events[0].capacityTiB == p.capacityTiB
    && match events[0].size
       case SizeFailed(e) => |events| == 1 && r == Err(Converted(e))
       case NoSize => |events| == 1 && r == Err(INTERNAL)
       case Size(needed) =>
         && |events| == 2 && events[1].Listed?
         && events[1].vnetResourceGroup == p.subnet.vnetResourceGroup && events[1].vnetName == p.subnet.vnetName
         && match FreeAddresses(events[1].pages, p.subnet.id)
            case Err(e) => r == Err(e)
            case Ok(free) => r == Ok(needed <= free)
  }

  predicate SubnetGiven(p: Properties)
  {
    p.subnet.id != "" && p.subnet.name != "" && p.subnet.vnetName != "" && p.subnet.vnetResourceGroup != ""
  }

  /** What follows the first Get, by the state it showed. */
  ghost predicate GatedRun(p: Properties, state: ClusterState, events: seq<Event>, r: Result<string>)
  {
    match state
    case Deleting => events == [] && r == Err(ABORTED)
    case Absent =>
      || (r.Err? && CapacityRun(p, events, Err(r.error)))
      || (r == Err(EXHAUSTED) && CapacityRun(p, events, Ok(false)))
      || (|events| >= 2 && CapacityRun(p, events[..2], Ok(true)) && SendRun(p, events[2..], r))
    case _ => SendRun(p, events, r)
  }

  /** All that one create call exchanges with Azure, and what it returns. */
  ghost predicate CreateRun(client: bool, p: Properties, events: seq<Event>, r: Result<string>)
  {
    if !client then events == [] && r == Err(INTERNAL)
    else if !SubnetGiven(p) then events == [] && r == Err(INVALID)
    else
      && |events| >= 1 && IsGet(p, events[0])
      && match StateOf(events[0].get)
         case Err(e) => |events| == 1 && r == Err(e)
         case Ok(state) => GatedRun(p, state, events[1..], r)
  }

  // ---- The code ----

  /** Azure, answering as it likes; the log is what has been exchanged with it. */
  class Azure {
    ghost var log: seq<Event>

    constructor ()
      ensures log == []
    {
      log := [];
    }

    method Get(resourceGroup: string, name: string) returns (reply: GetReply)
      modifies this
      ensures log == old(log) + [Got(resourceGroup, name, reply)]
    {
      reply := *;
      log := log + [Got(resourceGroup, name, reply)];
    }

    method RequiredSubnetSize(sku: string, capacityTiB: real) returns (reply: SizeReply)
      modifies this
      ensures log == old(log) + [Sized(sku, capacityTiB, reply)]
    {
      reply := *;
      log := log + [Sized(sku, capacityTiB, reply)];
    }

    method ListUsage(vnetResourceGroup: string, vnetName: string) returns (pages: seq<PageReply<Usage>>)
      modifies this
      ensures log == old(log) + [Listed(vnetResourceGroup, vnetName, pages)]
    {
      pages := *;
      log := log + [Listed(vnetResourceGroup, vnetName, pages)];
    }

    method BeginCreateOrUpdate(resourceGroup: string, name: string, request: Request) returns (refused: Option<Error>)
      modifies this
      ensures log == old(log) + [CreateSent(resourceGroup, name, request, refused)]
    {
      refused := *;
      log := log + [CreateSent(resourceGroup, name, request, refused)];
    }

    method PollCreate() returns (reply: PollReply)
      modifies this
      ensures log == old(log) + [CreatePolled(reply)]
    {
      reply := *;
      log := log + [CreatePolled(reply)];
    }

    method BeginDelete(resourceGroup: string, name: string) returns (refused: Option<Error>)
      modifies this
      ensures log == old(log) + [DeleteSent(resourceGroup, name, refused)]
    {
      refused := *;
      log := log + [DeleteSent(resourceGroup, name, refused)];
    }

    method PollDelete() returns (failure: Option<Error>)
      modifies this
      ensures log == old(log) + [DeletePolled(failure)]
    {
      failure := *;
      log := log + [DeletePolled(failure)];
    }

    method ListSkus() returns (pages: seq<PageReply<Skus.Sku>>)
      modifies this
      ensures log == old(log) + [SkusListed(pages)]
    {
      pages := *;
      log := log + [SkusListed(pages)];
    }
  }

  class DynamicProvisioner {
    const azure: Azure
    /** Whether the AML filesystems client and the SKUs client are there (not nil). */
    const client: bool
    const skuClient: bool

    constructor (azure: Azure, client: bool, skuClient: bool)
      ensures this.azure == azure && this.client == client && this.skuClient == skuClient
    {
      this.azure, this.client, this.skuClient := azure, client, skuClient;
    }

    method GetSkuValuesForLocation(location: string)
      returns (r: Result<map<string, Skus.SkuValue>>, ghost events: seq<Event>)
      modifies azure
      ensures azure.log == old(azure.log) + events
      ensures !skuClient ==> events == [] && r == Err(INTERNAL)
      ensures skuClient ==> |events| == 1 && events[0].SkusListed? && Skus.IsAnswer(events[0].skuPages, location, r)
    {
      if !skuClient {
        return Err(INTERNAL), [];
      }
      var pages := azure.ListSkus();
      events := [SkusListed(pages)];
      r := Skus.GetSkuValuesForLocation(pages, location);
    }

    method CurrentClusterState(p: Properties) returns (r: Result<ClusterState>, ghost events: seq<Event>)
      requires client
      modifies azure
      ensures azure.log == old(azure.log) + events
      ensures |events| == 1 && IsGet(p, events[0]) && r == StateOf(events[0].get)
    {
      var reply := azure.Get(p.resourceGroup, p.name);
      events := [Got(p.resourceGroup, p.name, reply)];
      match reply {
        case GetFailed(e) =>
          if e.text.missing {
            r := Ok(Absent);
          } else {
            r := Err(Converted(e));
          }
        case Found(state) =>
          match state {
            case BeingDeleted => r := Ok(Deleting);
            case FailedState => r := Ok(Failed);
            case _ => r := Ok(Exists);
          }
      }
    }

    method DeleteAmlFilesystem(resourceGroup: string, name: string)
      returns (failure: Option<Error>, ghost events: seq<Event>)
      modifies azure
      ensures azure.log == old(azure.log) + events
      ensures client ==> DeleteRun(resourceGroup, name, events, failure)
      ensures !client ==> events == [] && failure == Some(INTERNAL)
    {
      events := [];
      if !client {
        return Some(INTERNAL), [];
      }
      var refused := azure.BeginDelete(resourceGroup, name);
      events := [DeleteSent(resourceGroup, name, refused)];
      if refused.Some? {
        return Convert(refused), events;
      }
      var polled := azure.PollDelete();
      events := events + [DeletePolled(polled)];
      failure := Convert(polled);
    }

    method TryDeleteBeforeRetry(p: Properties) returns (r: Result<string>, ghost events: seq<Event>)
      requires client
      modifies azure
      ensures azure.log == old(azure.log) + events
      ensures DeleteBeforeRetryRun(p, events, r)
    {
      var failure: Option<Error>;
      failure, events := DeleteAmlFilesystem(p.resourceGroup, p.name);
      match failure {
        case Some(e) => r := Err(Converted(e));
        case None => r := Err(ABORTED);
      }
    }

    /** Whether a failed create is to be deleted and retried. */
    method CheckErrorForRetry(p: Properties, err: Error) returns (r: Result<bool>, ghost events: seq<Event>)
      requires client
      modifies azure
      ensures azure.log == old(azure.log) + events
      ensures !Suspect(err) ==> events == [] && r == Ok(TimedOut(err))
      ensures Suspect(err) ==>
                && |events| == 1 && IsGet(p, events[0])
                && r == match StateOf(events[0].get) case Err(g) => Err(g) case Ok(s) => Ok(s == Failed)
    {
      events := [];
      var e := Converted(err);
      if e.code == DeadlineExceeded && e.text.timeout {
        return Ok(true), [];
      }
      if e.code == DeadlineExceeded && (e.text.error || e.text.fail) {
        var state: Result<ClusterState>;
        state, events := CurrentClusterState(p);
        if state.Err? {
          return Err(state.error), events;
        }
        if state.value == Failed {
          return Ok(true), events;
        }
      }
      r := Ok(false);
    }

    /** The common tail of both failure branches of CreateAmlFilesystem. */
    method HandleFailure(p: Properties, err: Error) returns (r: Result<string>, ghost events: seq<Event>)
      requires client
      modifies azure
      ensures azure.log == old(azure.log) + events
      ensures FailureRun(p, err, events, r)
    {
      hide DeleteBeforeRetryRun;
      var retry: Result<bool>;
      retry, events := CheckErrorForRetry(p, err);
      if retry.Err? {
        return Err(Converted(retry.error)), events;
      }
      if retry.value {
        ghost var deletion;
        ghost var checked := events;
        r, deletion := TryDeleteBeforeRetry(p);
        events := checked + deletion;
        assert events[|checked|..] == deletion;
        return r, events;
      }
      r := Err(Converted(err));
    }

    method CheckSubnetCapacity(p: Properties) returns (r: Result<bool>, ghost events: seq<Event>)
      modifies azure
      ensures azure.log == old(azure.log) + events
      ensures CapacityRun(p, events, r)
    {
      var size := azure.RequiredSubnetSize(p.sku, p.capacityTiB);
      events := [Sized(p.sku, p.capacityTiB, size)];
      match size {
        case SizeFailed(e) => return Err(Converted(e)), events;
        case NoSize => return Err(INTERNAL), events;
        case Size(needed) =>
          var pages := azure.ListUsage(p.subnet.vnetResourceGroup, p.subnet.vnetName);
          events := events + [Listed(p.subnet.vnetResourceGroup, p.subnet.vnetName, pages)];
          var free := CheckSubnetAddresses(pages, p.subnet.id);
          match free {
            case Err(e) => return Err(Converted(e)), events;
            case Ok(n) => return Ok(!(needed > n)), events;
          }
      }
    }

    method Send(p: Properties) returns (r: Result<string>, ghost events: seq<Event>)
      requires client
      modifies azure
      ensures azure.log == old(azure.log) + events
      ensures SendRun(p, events, r)
    {
      hide FailureRun, RequestFor;
      var refused := azure.BeginCreateOrUpdate(p.resourceGroup, p.name, RequestFor(p));
      ghost var sent := CreateSent(p.resourceGroup, p.name, RequestFor(p), refused);
      ghost var rest: seq<Event>;
      if refused.Some? {
        r, rest := HandleFailure(p, refused.value);
        events := [sent] + rest;
        return;
      }
      var reply := azure.PollCreate();
      match reply {
        case PollFailed(e) =>
          r, rest := HandleFailure(p, e);
          ghost var handling := rest;
          rest := [CreatePolled(reply)] + rest;
          assert rest[1..] == handling;
        case Created(address) =>
          r, rest := Ok(address), [CreatePolled(reply)];
      }
      events := [sent] + rest;
      assert events[1..] == rest;
    }

    /** The switch on the current state of the cluster and the create that may follow. */
    method SendIfAllowed(p: Properties, state: ClusterState) returns (r: Result<string>, ghost events: seq<Event>)
      requires client
      modifies azure
      ensures azure.log == old(azure.log) + events
      ensures GatedRun(p, state, events, r)
    {
      hide SendRun;
      events := [];
      match state {
        case Absent =>
          var enough: Result<bool>;
          enough, events := CheckSubnetCapacity(p);
          if enough.Err? {
            return Err(Converted(enough.error)), events;
          }
          if !enough.value {
            return Err(EXHAUSTED), events;
          }
        case Deleting =>
          return Err(ABORTED), [];
        case Failed =>
        case Exists =>
      }
      ghost var checked := events;
      ghost var sent;
      r, sent := Send(p);
      events := checked + sent;
      assert events[..|checked|] == checked && events[|checked|..] == sent;
      assert checked == [] ==> events == sent;
    }

    method CreateAmlFilesystem(p: Properties) returns (r: Result<string>, ghost events: seq<Event>)
      modifies azure
      ensures azure.log == old(azure.log) + events
      ensures CreateRun(client, p, events, r)
    {
      if !client {
        return Err(INTERNAL), [];
      }
      if p.subnet.id == "" || p.subnet.name == "" || p.subnet.vnetName == "" || p.subnet.vnetResourceGroup == "" {
        return Err(INVALID), [];
      }
      var state: Result<ClusterState>;
      state, events := CurrentClusterState(p);
      if state.Err? {
        return Err(Converted(state.error)), events;
      }
      ghost var got := events;
      ghost var rest;
      r, rest := SendIfAllowed(p, state.value);
      events := got + rest;
      assert events[1..] == rest;
    }
  }
}
