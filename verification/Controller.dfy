/** CreateVolume and DeleteVolume, and what a created volume is to the calls that follow. */
module Controller {
  import opened Text
  import opened GrpcErrors
  import opened Paging
  import opened FoldMaps
  import opened Capacity
  import opened Provisioner
  import opened StorageParameters
  import opened ProvisionerRuns
  import opened VolumeIdentity
  import opened MapIteration
  import Skus
  import L = VolumeLocks

  // ---- Capacity ----

  /** The block of a static volume. */
  const DEFAULT_BLOCK: int64 := (DEFAULT_BLOCK_TIB * TIB) as int64

  /** The capacity granted for a request: rounded up to the block, within the maximum of the SKU and the limit of
      the request, where zero is no limit. */
  predicate Granted(required: int64, limit: int64, block: int64, maximum: int64, bytes: int64)
  {
    && RoundToBlock(if required == 0 then DEFAULT_SIZE as int64 else required, block, maximum) == Rounded(bytes)
    && (limit == 0 || bytes <= limit)
  }

  ghost predicate CanGrant(required: int64, limit: int64, block: int64, maximum: int64)
  {
    exists bytes :: Granted(required, limit, block, maximum, bytes)
  }

  method GrantCapacity(required: int64, limit: int64, block: int64, maximum: int64) returns (r: Result<int64>)
    ensures r.Ok? <==> CanGrant(required, limit, block, maximum)
    ensures r.Ok? ==> Granted(required, limit, block, maximum, r.value)
    ensures r.Err? ==> r.error == INVALID
  {
    hide RoundToBlock;
    var capacity := if required == 0 then DEFAULT_SIZE as int64 else required;
    var rounding := RoundToBlock(capacity, block, maximum);
    if !rounding.Rounded? {
      return Err(INVALID);
    }
    if limit != 0 && rounding.bytes > limit {
      return Err(INVALID);
    }
    assert Granted(required, limit, block, maximum, rounding.bytes);
    return Ok(rounding.bytes);
  }

  /** The capacity contract: for a request that is positive or left to the default, a positive increment and a
      maximum that is positive, or zero for none, both below 2^23 TiB, a granted capacity covers the request, respects
      limit and maximum, is a whole number of blocks, the least one that covers the request, and the float32 amount
      of TiB is exact. */
  lemma CapacityContract(required: int64, limit: int64, increment: int64, maximum: int64, bytes: int64)
    requires required >= 0 && 0 < increment as int < 0x80_0000 && 0 <= maximum as int < 0x80_0000
    requires Granted(required, limit, TibToBytes(increment), TibToBytes(maximum), bytes)
    ensures required <= bytes && (limit != 0 ==> bytes <= limit)
            && (maximum > 0 ==> bytes as int <= maximum as int * TIB)
    ensures bytes as int ==
              CeilMultiple(if required == 0 then DEFAULT_SIZE else required as int, increment as int * TIB)
    ensures CapacityTib(bytes) == (bytes as int / TIB) as real
  {
    TibToBytesExact(increment);
    if maximum > 0 { TibToBytesExact(maximum); }
    var capacity := if required == 0 then DEFAULT_SIZE as int64 else required;
    var block := TibToBytes(increment);
    RoundingIsSound(capacity, block, TibToBytes(maximum));
    hide RoundToBlock, CeilMultiple;
    MultipleOfMultiple(bytes as int, block as int, TIB) by {
      MulMod(increment as int, TIB);
    }
    TibValueIsExact(bytes);
  }

  // ---- Names ----

  predicate Alphanumeric(c: char)
  {
    'a' <= c <= 'z' || 'A' <= c <= 'Z' || '0' <= c <= '9'
  }

  /** The regular expression ^[a-zA-Z0-9][a-zA-Z0-9_-]{0,78}[a-zA-Z0-9]$ . */
  predicate IsValidVolumeName(name: string)
  {
    && 2 <= |name| <= 80
    && Alphanumeric(name[0]) && Alphanumeric(name[|name| - 1])
    && forall i | 0 <= i < |name| :: Alphanumeric(name[i]) || name[i] == '_' || name[i] == '-'
  }

  // ---- The cluster to create ----

  datatype Cloud = Cloud(
    location: string,
    resourceGroup: string,
    subscription: string,
    networkSubscription: string,
    vnetResourceGroup: string,
    vnetName: string,
    subnetName: string)

  function Or(a: string, b: string): string
  {
    if a != "" then a else b
  }

  function Slash(s: string, segment: string): string
  {
    s + ['/'] + segment
  }

  /** The ID of a subnet. */
  function SubnetId(subscription: string, group: string, vnet: string, subnet: string): string
  {
    var subscribed := Slash(Slash("", "subscriptions"), subscription);
    var grouped := Slash(Slash(subscribed, "resourceGroups"), group);
    var provided := Slash(Slash(Slash(grouped, "providers"), "Microsoft.Network"), "virtualNetworks");
    Slash(Slash(Slash(provided, vnet), "subnets"), subnet)
  }

  /** populateSubnetPropertiesFromCloudConfig. */
  function PopulateSubnet(c: Cloud, s: Subnet): Subnet
  {
    var group := Or(s.vnetResourceGroup, Or(c.vnetResourceGroup, c.resourceGroup));
    var vnet := Or(s.vnetName, c.vnetName);
    var name := Or(s.name, c.subnetName);
    Subnet(SubnetId(Or(c.networkSubscription, c.subscription), group, vnet, name), vnet, group, name)
  }

  /** The properties CreateVolume hands to the provisioner. */
  function ClusterFor(c: Cloud, p: Properties, name: string, bytes: int64): Properties
  {
    p.(location := Or(p.location, c.location), resourceGroup := Or(p.resourceGroup, c.resourceGroup),
       subnet := PopulateSubnet(c, p.subnet), capacityTiB := CapacityTib(bytes), name := name)
  }

  /** A zone is given exactly when the SKU has zones, and is one of them. */
  predicate ZoneFits(zones: seq<string>, zone: string)
  {
    if zones != [] then zone in zones && zone != "" else zone == ""
  }

  /** What a request asks for. */
  datatype VolumeRequest = VolumeRequest(name: string, required: int64, limit: int64)

  /** What the driver was set up with: the cloud configuration, and which Azure clients are there. */
  datatype Setup = Setup(cloud: Cloud, client: bool, skuClient: bool)

  /** What the checks before a dynamic create establish. */
  ghost predicate Planned(c: Cloud, parsed: Properties, q: VolumeRequest, sku: Skus.SkuValue, bytes: int64,
                          p: Properties)
  {
    && p == ClusterFor(c, parsed, q.name, bytes)
    && Granted(q.required, q.limit, TibToBytes(sku.incrementInTib), TibToBytes(sku.maximumInTib), bytes)
    && ZoneFits(sku.zones, p.zone) && IsValidVolumeName(q.name)
  }

  /** A new cluster can be planned with the SKU: the capacity can be granted, the zone fits, the name is valid. */
  ghost predicate Plannable(parsed: Properties, q: VolumeRequest, sku: Skus.SkuValue)
  {
    && CanGrant(q.required, q.limit, TibToBytes(sku.incrementInTib), TibToBytes(sku.maximumInTib))
    && ZoneFits(sku.zones, parsed.zone) && IsValidVolumeName(q.name)
  }

  /** The outcome of the checks, by the value of the SKU: its error, a plan, or an invalid argument. */
  ghost predicate PlanOutcome(c: Cloud, parsed: Properties, q: VolumeRequest, value: Result<Skus.SkuValue>,
                              r: Result<(Properties, int64)>)
  {
    match value
    case Err(e) => r == Err(e)
    case Ok(sku) =>
      if Plannable(parsed, q, sku) then r.Ok? && Planned(c, parsed, q, sku, r.value.1, r.value.0)
      else r == Err(INVALID)
  }

  datatype CreatedVolume = CreatedVolume(id: string, capacity: int64, context: map<string, string>)

  /** The folded parameters after a create. */
  function ContextAfter(f: map<string, string>, dynamic: bool, resourceGroup: string,
                        address: string): map<string, string>
  {
    if dynamic then
      f[KeyText(ResourceGroupName) := resourceGroup][KeyText(MgsIpAddress) := address]
       [KeyText(FsName) := FILESYSTEM][KeyText(DynamicallyCreated) := "t"]
    else
      f[KeyText(DynamicallyCreated) := "f"]
  }

  /** The ID printed from folded parameters. */
  function IdFrom(name: string, g: map<string, string>): string
  {
    PrintId(name, ValueOf(g, MgsIpAddress), Trim(ValueOf(g, SubDir), '/'), ValueOf(g, DynamicallyCreated),
            ValueOf(g, ResourceGroupName))
  }

  /** A successful create: of the folded parameters f it made the volume v, after exchanging the events with
      Azure for the cluster p if the volume is dynamic. */
  ghost predicate IsCreated(client: bool, name: string, f: map<string, string>, events: seq<Event>, p: Properties,
                            v: CreatedVolume)
  {
    && name != "" && FoldDistinct(v.context)
    && var dynamic := ValueOf(f, MgsIpAddress) == "";
       && Folded(v.context) == ContextAfter(f, dynamic, p.resourceGroup, ValueOf(Folded(v.context), MgsIpAddress))
       && v.id == IdFrom(name, Folded(v.context)) && !SubDirGivenEmpty(Folded(v.context))
       && (dynamic ==> && p.name == name && IsValidVolumeName(name)
                       && CreateRun(client, p, events, Ok(ValueOf(Folded(v.context), MgsIpAddress))))
       && (!dynamic ==> events == [])
  }

  /** The volume made of folded parameters: its context, its ID and its capacity. */
  ghost predicate IsVolume(name: string, f: map<string, string>, dynamic: bool, resourceGroup: string, address: string,
                           bytes: int64, v: CreatedVolume)
  {
    && FoldDistinct(v.context) && Folded(v.context) == ContextAfter(f, dynamic, resourceGroup, address)
    && v.id == IdFrom(name, Folded(v.context)) && v.capacity == bytes
  }

  /** When a static volume is created: the capacity can be granted in default blocks, and the sub-directory is not
      given empty. */
  ghost predicate StaticOutcome(q: VolumeRequest, f: map<string, string>, r: Result<CreatedVolume>)
  {
    if CanGrant(q.required, q.limit, DEFAULT_BLOCK, 0) && !SubDirGivenEmpty(f) then
      && r.Ok? && Granted(q.required, q.limit, DEFAULT_BLOCK, 0, r.value.capacity)
      && IsVolume(q.name, f, false, "", "", r.value.capacity, r.value)
    else
      r == Err(INVALID)
  }

  /** The create call of a planned cluster and what follows it: a failure is reported with its code, and an empty
      sub-directory is noticed only after the cluster has been created. */
  ghost predicate ClusterOutcome(client: bool, name: string, f: map<string, string>, p: Properties, bytes: int64,
                                 events: seq<Event>, r: Result<CreatedVolume>)
  {
    exists delivered :: CreateRun(client, p, events, delivered) && Reported(name, f, p, bytes, delivered, r)
  }

  ghost predicate Reported(name: string, f: map<string, string>, p: Properties, bytes: int64,
                           delivered: Result<string>, r: Result<CreatedVolume>)
  {
    match delivered
    case Err(e) => r == Err(Rewrap(e).value)
    case Ok(address) =>
      if SubDirGivenEmpty(f) then r == Err(INVALID)
      else r.Ok? && IsVolume(name, f, true, p.resourceGroup, address, bytes, r.value)
  }

  /** A dynamic create, from the query for SKUs on: its events and its result determine each other's shape. */
  ghost predicate DynamicOutcome(d: Setup, q: VolumeRequest, f: map<string, string>, parsed: Properties,
                                 events: seq<Event>, r: Result<CreatedVolume>)
  {
    if !d.skuClient then events == [] && r == Err(INTERNAL)
    else
      && events != [] && events[0].SkusListed?
      && exists plan :: PlanOutcome(d.cloud, parsed, q, SkuOf(d, parsed, events[0]), plan)
                        && PlanFollowed(d, q, f, plan, events[1..], r)
  }

  ghost function SkuOf(d: Setup, parsed: Properties, event: Event): Result<Skus.SkuValue>
    requires event.SkusListed?
  {
    Skus.ValueIn(event.skuPages, Or(parsed.location, d.cloud.location), parsed.sku)
  }

  ghost predicate PlanFollowed(d: Setup, q: VolumeRequest, f: map<string, string>, plan: Result<(Properties, int64)>,
                               events: seq<Event>, r: Result<CreatedVolume>)
  {
    match plan
    case Err(e) => events == [] && r == Err(e)
    case Ok((p, bytes)) => ClusterOutcome(d.client, q.name, f, p, bytes, events, r)
  }

  /** The outcome of CreateVolume for parameters m, once the request has its lock. */
  ghost predicate VolumeOutcome(d: Setup, q: VolumeRequest, m: map<string, string>, events: seq<Event>,
                                r: Result<CreatedVolume>)
    requires FoldDistinct(m)
  {
    if !Acceptable(m) || !Complete(Folded(m)) then events == [] && r == Err(INVALID)
    else if ValueOf(Folded(m), MgsIpAddress) != "" then events == [] && StaticOutcome(q, Folded(m), r)
    else exists parsed :: CanParse(m, Ok(parsed)) && DynamicOutcome(d, q, Folded(m), parsed, events, r)
  }

  // ---- The code ----

  class Driver {
    const locks: L.Locks
    const provisioner: DynamicProvisioner
    const cloud: Cloud

    constructor (cloud: Cloud, provisioner: DynamicProvisioner)
      ensures fresh(locks) && locks.locks == {} && this.cloud == cloud && this.provisioner == provisioner
    {
      this.cloud, this.provisioner := cloud, provisioner;
      locks := new L.Locks();
    }

    function SetUp(): Setup
    {
      Setup(cloud, provisioner.client, provisioner.skuClient)
    }

    /** getSkuValuesForLocation: the value the pages Azure answers give the name, or the error. */
    method SkuFor(sku: string, location: string) returns (r: Result<Skus.SkuValue>, ghost events: seq<Event>)
      modifies provisioner.azure
      ensures provisioner.azure.log == old(provisioner.azure.log) + events
      ensures !provisioner.skuClient ==> events == [] && r == Err(INTERNAL)
      ensures provisioner.skuClient ==>
                |events| == 1 && events[0].SkusListed? && r == Skus.ValueIn(events[0].skuPages, location, sku)
    {
      hide Skus.ValueIn, Skus.IsAnswer;
      var table;
      table, events := provisioner.GetSkuValuesForLocation(location);
      if provisioner.skuClient {
        Skus.LookedUp(events[0].skuPages, location, table, sku);
      }
      if table.Err? {
        return Err(INTERNAL), events;
      }
      if sku !in table.value {
        return Err(INVALID), events;
      }
      r := Ok(table.value[sku]);
    }

    /** The part of CreateVolume between parsing and the create call, for a dynamic volume. */
    method PlanCluster(parsed: Properties, q: VolumeRequest)
      returns (r: Result<(Properties, int64)>, ghost events: seq<Event>)
      modifies provisioner.azure
      ensures provisioner.azure.log == old(provisioner.azure.log) + events
      ensures !provisioner.skuClient ==> events == [] && r == Err(INTERNAL)
      ensures provisioner.skuClient ==>
                |events| == 1 && events[0].SkusListed?
                && PlanOutcome(cloud, parsed, q, SkuOf(SetUp(), parsed, events[0]), r)
    {
      hide Granted, CanGrant, PopulateSubnet, CapacityTib, Skus.ValueIn;
      var value: Result<Skus.SkuValue>;
      value, events := SkuFor(parsed.sku, Or(parsed.location, cloud.location));
      if value.Err? {
        return Err(value.error), events;
      }
      var sku := value.value;
      var bytes := GrantCapacity(q.required, q.limit, TibToBytes(sku.incrementInTib), TibToBytes(sku.maximumInTib));
      if bytes.Err? {
        return Err(bytes.error), events;
      }
      if |sku.zones| > 0 {
        if parsed.zone == "" || parsed.zone !in sku.zones {
          return Err(INVALID), events;
        }
      } else if parsed.zone != "" {
        return Err(INVALID), events;
      }
      if !IsValidVolumeName(q.name) {
        return Err(INVALID), events;
      }
      return Ok((ClusterFor(cloud, parsed, q.name, bytes.value), bytes.value)), events;
    }

    /** The writes into the parameter map after the cluster exists, or for a static volume, and the ID. */
    method Finish(name: string, params: Parameters, dynamic: bool, resourceGroup: string, address: string)
      returns (r: Result<string>)
      requires FoldDistinct(params.m)
      modifies params
      ensures FoldDistinct(params.m)
      ensures Folded(params.m) == ContextAfter(old(Folded(params.m)), dynamic, resourceGroup, address)
      ensures r.Ok? <==> !SubDirGivenEmpty(Folded(params.m))
      ensures r.Ok? ==> r.value == IdFrom(name, Folded(params.m))
      ensures r.Err? ==> r.error == INVALID
    {
      KeysAreLower(MgsIpAddress);
      KeysAreLower(FsName);
      KeysAreLower(ResourceGroupName);
      KeysAreLower(DynamicallyCreated);
      hide KeyText, Lower, Folded, FoldDistinct, EqualFold, ValueOf, Lookup, Trim, PrintId;
      if dynamic {
        SetKeyValueInMap(params, KeyText(ResourceGroupName), resourceGroup);
        SetKeyValueInMap(params, KeyText(MgsIpAddress), address);
        SetKeyValueInMap(params, KeyText(FsName), FILESYSTEM);
      }
      SetKeyValueInMap(params, KeyText(DynamicallyCreated), if dynamic then "t" else "f");
      r := CreateVolumeIdFromParams(name, params.m);
    }

    /** The create call and what follows it. */
    method CreateCluster(name: string, params: Parameters, p: Properties, bytes: int64)
      returns (r: Result<CreatedVolume>, ghost events: seq<Event>)
      requires FoldDistinct(params.m)
      modifies params, provisioner.azure
      ensures provisioner.azure.log == old(provisioner.azure.log) + events
      ensures r.Ok? ==> r.value.context == params.m
      ensures ClusterOutcome(provisioner.client, name, old(Folded(params.m)), p, bytes, events, r)
    {
      hide KeyText, Folded, FoldDistinct, CreateRun, ContextAfter, IdFrom, SubDirGivenEmpty;
      ghost var f := Folded(params.m);
      var address: Result<string>;
      address, events := provisioner.CreateAmlFilesystem(p);
      if address.Err? {
        r := Err(Rewrap(address.error).value);
      } else {
        var id := Finish(name, params, true, p.resourceGroup, address.value);
        SubDirKept(f, true, p.resourceGroup, address.value);
        r := if id.Err? then Err(id.error) else Ok(CreatedVolume(id.value, bytes, params.m));
      }
      assert Reported(name, f, p, bytes, address, r);
    }

    /** The dynamic half of CreateVolume. */
    method CreateDynamic(q: VolumeRequest, params: Parameters, parsed: Properties)
      returns (r: Result<CreatedVolume>, ghost events: seq<Event>)
      requires FoldDistinct(params.m)
      modifies params, provisioner.azure
      ensures provisioner.azure.log == old(provisioner.azure.log) + events
      ensures r.Ok? ==> r.value.context == params.m
      ensures DynamicOutcome(SetUp(), q, old(Folded(params.m)), parsed, events, r)
    {
      hide PlanOutcome, ClusterOutcome, SkuOf, Folded, FoldDistinct;
      var plan;
      plan, events := PlanCluster(parsed, q);
      ghost var query := events;
      assert provisioner.skuClient ==> query[1..] == [];
      if plan.Err? {
        r := Err(plan.error);
        assert PlanFollowed(SetUp(), q, old(Folded(params.m)), plan, [], r);
        return;
      }
      ghost var rest;
      r, rest := CreateCluster(q.name, params, plan.value.0, plan.value.1);
      events := query + rest;
      assert PlanFollowed(SetUp(), q, old(Folded(params.m)), plan, rest, r);
      assert events[1..] == rest;
    }

    /** The static half of CreateVolume. */
    method CreateStatic(q: VolumeRequest, params: Parameters) returns (r: Result<CreatedVolume>)
      requires FoldDistinct(params.m)
      modifies params
      ensures r.Ok? ==> r.value.context == params.m
      ensures StaticOutcome(q, old(Folded(params.m)), r)
    {
      hide KeyText, Folded, FoldDistinct, ContextAfter, IdFrom, SubDirGivenEmpty, Granted, CanGrant;
      var bytes := GrantCapacity(q.required, q.limit, DEFAULT_BLOCK, 0);
      if bytes.Err? {
        return Err(bytes.error);
      }
      ghost var f := Folded(params.m);
      var id := Finish(q.name, params, false, "", "");
      SubDirKept(f, false, "", "");
      r := if id.Err? then Err(id.error) else Ok(CreatedVolume(id.value, bytes.value, params.m));
    }

    /** CreateVolume under its lock. */
    method CreateLocked(q: VolumeRequest, params: Parameters)
      returns (r: Result<CreatedVolume>, ghost events: seq<Event>)
      requires FoldDistinct(params.m) && q.name in locks.locks
      modifies params, provisioner.azure
      ensures provisioner.azure.log == old(provisioner.azure.log) + events
      ensures r.Ok? ==> r.value.context == params.m
      ensures VolumeOutcome(SetUp(), q, old(params.m), events, r)
    {
      hide KeyText, Folded, FoldDistinct, Acceptable, Complete, CanGet, CanParse, Describes, StaticOutcome,
           DynamicOutcome, ValueOf;
      events := [];
      var address := GetValueInMap(params, KeyText(MgsIpAddress));
      AddressFound(params.m, address);
      var parsed := ParseAmlFilesystemProperties(params.m);
      if parsed.Err? {
        return Err(parsed.error), events;
      }
      if address == "" {
        r, events := CreateDynamic(q, params, parsed.value);
      } else {
        r := CreateStatic(q, params);
      }
    }

    /** CreateVolume. A refusal of the request itself (missing capabilities, secrets, a content source) comes in
        as an error. */
    method CreateVolume(q: VolumeRequest, refused: Option<Error>, params: Parameters?)
      returns (r: Result<CreatedVolume>, ghost events: seq<Event>)
      requires params != null ==> FoldDistinct(params.m)
      modifies locks, params, provisioner.azure
      ensures locks.locks == old(locks.locks)
      ensures provisioner.azure.log == old(provisioner.azure.log) + events
      ensures r.Ok? ==> params != null && r.value.context == params.m
      ensures var held := q.name in old(locks.locks);
              if q.name == "" then r == Err(Status(InvalidArgument, PLAIN)) && events == []
              else if refused.Some? then r == Err(refused.value) && events == []
              else if held then r == Err(Status(Aborted, PLAIN)) && events == []
              else if params == null then r == Err(Status(InvalidArgument, PLAIN)) && events == []
              else VolumeOutcome(SetUp(), q, old(params.m), events, r)
    {
      hide FoldDistinct, VolumeOutcome;
      events := [];
      if q.name == "" {
        return Err(INVALID), events;
      }
      if refused.Some? {
        return Err(refused.value), events;
      }
      var key := L.Key(L.CreateVolume(q.name));
      var acquired := locks.TryAcquire(key);
      if !acquired {
        return Err(ABORTED), events;
      }
      if params == null {
        locks.Release(key);
        return Err(INVALID), events;
      }
      r, events := CreateLocked(q, params);
      locks.Release(key);
    }

    /** DeleteVolume. */
    method DeleteVolume(id: string, secrets: bool) returns (r: Result<()>, ghost events: seq<Event>)
      modifies locks, provisioner.azure
      ensures locks.locks == old(locks.locks)
      ensures provisioner.azure.log == old(provisioner.azure.log) + events
      ensures id == "" || secrets ==> r == Err(Status(InvalidArgument, PLAIN)) && events == []
      ensures id != "" && !secrets && id in old(locks.locks) ==>
                r == Err(Status(Aborted, PLAIN)) && events == []
      ensures id != "" && !secrets && id !in old(locks.locks) ==>
                DeleteOutcome(provisioner.client, DeletionFor(id), events, r)
    {
      events := [];
      if id == "" || secrets {
        return Err(INVALID), events;
      }
      var volume := ParseId(id);
      var key := L.Key(L.DeleteVolume(id));
      var acquired := locks.TryAcquire(key);
      if !acquired {
        return Err(ABORTED), events;
      }
      r, events := DeleteLocked(id, volume);
      locks.Release(key);
    }

    /** The part of DeleteVolume under the lock. */
    method DeleteLocked(id: string, volume: Option<LustreVolume>) returns (r: Result<()>, ghost events: seq<Event>)
      requires id in locks.locks && volume == ParseId(id)
      modifies provisioner.azure
      ensures provisioner.azure.log == old(provisioner.azure.log) + events
      ensures DeleteOutcome(provisioner.client, DeletionFor(id), events, r)
    {
      hide ParseId, DeleteRun;
      events := [];
      if volume.Some? && volume.value.dynamic {
        if volume.value.resourceGroup == "" {
          return Err(INVALID), events;
        }
        var failure;
        failure, events := provisioner.DeleteAmlFilesystem(volume.value.resourceGroup, volume.value.name);
        if failure.Some? {
          return Err(Rewrap(failure.value).value), events;
        }
      }
      return Ok(()), events;
    }
  }

  /** What DeleteVolume does for a deletion: nothing, a refusal, or one deletion whose code it reports. */
  ghost predicate DeleteOutcome(client: bool, deletion: Deletion, events: seq<Event>, r: Result<()>)
  {
    match deletion
    case NoCall => r.Ok? && events == []
    case GroupMissing => r == Err(INVALID) && events == []
    case DeleteCluster(group, name) =>
      if client then
        && (r.Ok? ==> DeleteRun(group, name, events, None))
        && (r.Err? ==> exists e :: DeleteRun(group, name, events, Some(e)) && CodeOf(r.error) == CodeOf(e))
      else
        events == [] && r.Err? && CodeOf(r.error) == Internal
  }

  lemma SubDirKept(f: map<string, string>, dynamic: bool, resourceGroup: string, address: string)
    ensures var g := ContextAfter(f, dynamic, resourceGroup, address);
            Lookup(g, SubDir) == Lookup(f, SubDir) && (SubDirGivenEmpty(g) <==> SubDirGivenEmpty(f))
  {
    hide KeyText, Lookup;
    var f1 := f[KeyText(ResourceGroupName) := resourceGroup];
    var f2 := f1[KeyText(MgsIpAddress) := address];
    var f3 := f2[KeyText(FsName) := FILESYSTEM];
    LookupAfterUpdate(f, ResourceGroupName, resourceGroup, SubDir);
    LookupAfterUpdate(f1, MgsIpAddress, address, SubDir);
    LookupAfterUpdate(f2, FsName, FILESYSTEM, SubDir);
    LookupAfterUpdate(f3, DynamicallyCreated, "t", SubDir);
    LookupAfterUpdate(f, DynamicallyCreated, "f", SubDir);
  }

  lemma ReadAfterCreate(f: map<string, string>, resourceGroup: string, address: string, k: Param)
    ensures ValueOf(ContextAfter(f, true, resourceGroup, address), k) ==
            match k
            case MgsIpAddress => address
            case ResourceGroupName => resourceGroup
            case DynamicallyCreated => "t"
            case FsName => FILESYSTEM
            case _ => ValueOf(f, k)
  {
    hide KeyText, ValueOf;
    var f1 := f[KeyText(ResourceGroupName) := resourceGroup];
    var f2 := f1[KeyText(MgsIpAddress) := address];
    var f3 := f2[KeyText(FsName) := FILESYSTEM];
    LookupAfterUpdate(f, ResourceGroupName, resourceGroup, k);
    LookupAfterUpdate(f1, MgsIpAddress, address, k);
    LookupAfterUpdate(f2, FsName, FILESYSTEM, k);
    LookupAfterUpdate(f3, DynamicallyCreated, "t", k);
  }

  /** What the readers find after a dynamic create. */
  lemma AddressWritten(f: map<string, string>, resourceGroup: string, address: string)
    ensures var g := ContextAfter(f, true, resourceGroup, address);
            && ValueOf(g, MgsIpAddress) == address && ValueOf(g, ResourceGroupName) == resourceGroup
            && ValueOf(g, DynamicallyCreated) == "t" && ValueOf(g, SubDir) == ValueOf(f, SubDir)
  {
    hide KeyText, ValueOf, ContextAfter;
    ReadAfterCreate(f, resourceGroup, address, MgsIpAddress);
    ReadAfterCreate(f, resourceGroup, address, ResourceGroupName);
    ReadAfterCreate(f, resourceGroup, address, DynamicallyCreated);
    ReadAfterCreate(f, resourceGroup, address, SubDir);
  }

  lemma StaticContext(f: map<string, string>, group: string, address: string, otherGroup: string, other: string)
    ensures ContextAfter(f, false, group, address) == ContextAfter(f, false, otherGroup, other)
    ensures var g := ContextAfter(f, false, group, address);
            && ValueOf(g, DynamicallyCreated) == "f"
            && forall k | k != DynamicallyCreated :: ValueOf(g, k) == ValueOf(f, k)
  {
    hide KeyText, ValueOf;
    LookupAfterUpdate(f, DynamicallyCreated, "f", DynamicallyCreated);
    forall k | k != DynamicallyCreated ensures ValueOf(f[KeyText(DynamicallyCreated) := "f"], k) == ValueOf(f, k) {
      LookupAfterUpdate(f, DynamicallyCreated, "f", k);
    }
  }

  lemma AddressFound(m: map<string, string>, v: string)
    requires FoldDistinct(m) && CanGet(m, KeyText(MgsIpAddress), v)
    ensures v == ValueOf(Folded(m), MgsIpAddress)
  {
    GetLaw(m, KeyText(MgsIpAddress), v);
    KeysAreLower(MgsIpAddress);
  }

  // ---- What a created volume is to later calls ----

  /** The entries of the context that go into the ID, but for the marker the driver sets, hold no '#'. */
  predicate NoHash(f: map<string, string>)
  {
    '#' !in ValueOf(f, MgsIpAddress) && '#' !in ValueOf(f, SubDir) && '#' !in ValueOf(f, ResourceGroupName)
  }

  lemma ValidNameHasNoHash(name: string)
    requires IsValidVolumeName(name)
    ensures '#' !in name
  {
  }

  /** Create and delete identity, dynamic: if the entries printed into the ID hold no '#', deleting the volume asks
      for the deletion of exactly the resource group and name the create request went to, or is refused if that
      resource group is empty. */
  lemma DynamicCreateDeleteIdentity(client: bool, name: string, f: map<string, string>, events: seq<Event>,
                                    p: Properties, v: CreatedVolume)
    requires IsCreated(client, name, f, events, p, v) && ValueOf(f, MgsIpAddress) == ""
    requires NoHash(Folded(v.context))
    ensures DeletionFor(v.id) == if p.resourceGroup != "" then DeleteCluster(p.resourceGroup, name) else GroupMissing
    ensures exists k :: CreateAt(p, events, k) && events[k].resourceGroup == p.resourceGroup && events[k].name == name
    ensures !Deletes(events)
  {
    hide CreateRun, CreateAt, Deletes, FoldDistinct, KeyText, ValueOf, ContextAfter, IsValidVolumeName, IdFrom, Folded,
         SubDirGivenEmpty;
    var g := Folded(v.context);
    RequestSent(client, p, events, ValueOf(g, MgsIpAddress));
    IdNamesCluster(name, f, p.resourceGroup, ValueOf(g, MgsIpAddress));
  }

  /** With a '#' in the sub-directory or the resource group, the deletion goes to the created cluster exactly when
      OwnCluster says so. */
  lemma DynamicDeleteIff(client: bool, name: string, f: map<string, string>, events: seq<Event>, p: Properties,
                         v: CreatedVolume)
    requires IsCreated(client, name, f, events, p, v) && ValueOf(f, MgsIpAddress) == ""
    requires '#' !in ValueOf(Folded(v.context), MgsIpAddress)
    ensures DeletionFor(v.id) == DeleteCluster(p.resourceGroup, name) <==>
            OwnCluster(Trim(ValueOf(f, SubDir), '/'), p.resourceGroup)
  {
    hide CreateRun, FoldDistinct, KeyText, ValueOf, ContextAfter, Folded, SubDirGivenEmpty, DeletionFor, OwnCluster,
         PrintId;
    var address := ValueOf(Folded(v.context), MgsIpAddress);
    AddressWritten(f, p.resourceGroup, address);
    ValidNameHasNoHash(name);
    hide IsValidVolumeName;
    DynamicDeletionIff(name, address, Trim(ValueOf(f, SubDir), '/'), p.resourceGroup);
  }

  lemma IdNamesCluster(name: string, f: map<string, string>, resourceGroup: string, address: string)
    requires IsValidVolumeName(name)
    requires NoHash(ContextAfter(f, true, resourceGroup, address))
    ensures DeletionFor(IdFrom(name, ContextAfter(f, true, resourceGroup, address))) ==
            if resourceGroup != "" then DeleteCluster(resourceGroup, name) else GroupMissing
  {
    AddressWritten(f, resourceGroup, address);
    ValidNameHasNoHash(name);
    hide KeyText, ValueOf, ContextAfter, IsValidVolumeName;
    IdRoundTrip(name, address, Trim(ValueOf(f, SubDir), '/'), "t", resourceGroup);
    hide PrintId, ParseId;
  }

  /** A create that delivered an address sent one create request, to its own cluster, and no delete. */
  lemma RequestSent(client: bool, p: Properties, events: seq<Event>, address: string)
    requires CreateRun(client, p, events, Ok(address))
    ensures exists k :: CreateAt(p, events, k) && events[k].resourceGroup == p.resourceGroup && events[k].name == p.name
    ensures !Deletes(events)
  {
    AddressMeansCreated(client, p, events, Ok(address), address);
    CreateGating(client, p, events, Ok(address));
    PollNeedsCreate(client, p, events, Ok(address));
    hide CreateRun, GateOpen;
    var k :| CreateAt(p, events, k);
    CreateTarget(p, events, k);
  }

  lemma CreateTarget(p: Properties, events: seq<Event>, k: int)
    requires CreateAt(p, events, k)
    ensures 0 <= k < |events| && events[k].CreateSent? && events[k].resourceGroup == p.resourceGroup
            && events[k].name == p.name
  {
  }

  lemma PollNeedsCreate(client: bool, p: Properties, events: seq<Event>, r: Result<string>)
    requires CreateRun(client, p, events, r) && r.Ok?
    ensures GateOpen(p, events)
  {
    var sent, k := CreateShape(client, p, events, r);
  }

  /** Create and delete identity, static: for a name, an address and a sub-directory without '#', deleting the
      volume makes no call to the provisioner. */
  lemma StaticDeleteMakesNoCall(client: bool, name: string, f: map<string, string>, events: seq<Event>, p: Properties,
                                v: CreatedVolume)
    requires IsCreated(client, name, f, events, p, v) && ValueOf(f, MgsIpAddress) != ""
    requires '#' !in name && '#' !in ValueOf(f, MgsIpAddress) && '#' !in ValueOf(f, SubDir)
    ensures DeletionFor(v.id) == NoCall && events == []
  {
    var g := Folded(v.context);
    StaticContext(f, p.resourceGroup, ValueOf(g, MgsIpAddress), "", "");
    hide KeyText, ValueOf, ContextAfter;
    var subDir := Trim(ValueOf(g, SubDir), '/');
    StaticDeletionCallsIff(name, ValueOf(g, MgsIpAddress), subDir, ValueOf(g, ResourceGroupName));
  }

  lemma MarkerIsSet(client: bool, name: string, f: map<string, string>, events: seq<Event>, p: Properties,
                    v: CreatedVolume)
    requires IsCreated(client, name, f, events, p, v)
    ensures var dynamic := ValueOf(f, MgsIpAddress) == "";
            && ValueOf(Folded(v.context), DynamicallyCreated) == (if dynamic then "t" else "f")
            && '#' !in ValueOf(Folded(v.context), DynamicallyCreated)
            && (dynamic ==> '#' !in name)
  {
    hide CreateRun, FoldDistinct;
    if ValueOf(f, MgsIpAddress) == "" {
      AddressWritten(f, p.resourceGroup, ValueOf(Folded(v.context), MgsIpAddress));
      ValidNameHasNoHash(name);
    } else {
      StaticContext(f, p.resourceGroup, ValueOf(Folded(v.context), MgsIpAddress), "", "");
    }
    hide KeyText, ValueOf, ContextAfter, Folded, IsValidVolumeName;
  }

  /** Unrelated keys added to a context do not change what the readers find. */
  lemma UnrelatedKeys(m: map<string, string>, extra: map<string, string>, k: Param)
    requires FoldDistinct(m + extra) && FoldDistinct(m)
    requires forall s | s in extra :: Classify(Lower(s)) != Some(k)
    ensures Lookup(Folded(m + extra), k) == Lookup(Folded(m), k)
  {
    hide KeyText, Lower, FoldDistinct, Folded, EqualFold;
    forall s | s in extra ensures Lower(s) != KeyText(k) {
      assert Classify(Lower(s)) != Some(k);
    }
    hide Classify;
    FoldedMember(m, KeyText(k));
    FoldedMember(m + extra, KeyText(k));
    if s :| s in m && Lower(s) == KeyText(k) {
      assert s in m + extra && (m + extra)[s] == m[s];
    }
  }

  predicate IdKey(k: Param)
  {
    k.MgsIpAddress? || k.SubDir? || k.DynamicallyCreated? || k.ResourceGroupName?
  }

  /** Controller and node agree: for every successful create with a non-empty address and no '#' in the printed
      fields, the node that parses the ID and rebuilds the volume from the returned context, to which unrelated
      keys may have been added, gets the same volume in all seven fields. The mismatch warning never fires. */
  lemma ControllerNodeAgreement(client: bool, name: string, f: map<string, string>, events: seq<Event>, p: Properties,
                                v: CreatedVolume, extra: map<string, string>)
    requires IsCreated(client, name, f, events, p, v)
    requires ValueOf(f, MgsIpAddress) != "" ==> '#' !in name
    requires NoHash(Folded(v.context)) && ValueOf(Folded(v.context), MgsIpAddress) != ""
    requires FoldDistinct(v.context + extra)
    requires forall s, k | s in extra && IdKey(k) :: Classify(Lower(s)) != Some(k)
    ensures ParseId(v.id).Some?
    ensures ReadVolume(v.id, ParseId(v.id).value.name, Folded(v.context + extra)) == Ok(ParseId(v.id).value)
  {
    var f', g := Folded(v.context), Folded(v.context + extra);
    forall k | IdKey(k) ensures Lookup(g, k) == Lookup(f', k) {
      UnrelatedKeys(v.context, extra, k);
    }
    MarkerIsSet(client, name, f, events, p, v);
    hide KeyText, Lookup, ValueOf, ParseId, ReadVolume, ContextAfter, Folded, FoldDistinct, CreateRun, PrintId,
         SubDirGivenEmpty;
    assert forall k | k in {MgsIpAddress, SubDir, DynamicallyCreated, ResourceGroupName} :: IdKey(k);
    ReadersAgree(name, f', g);
  }

  /** The decision to create a cluster is made by the value of the address in CreateVolume and by the presence
      of its key in the parser. They differ exactly when the key is given with an empty value; the parser then
      asks for none of the parameters a new cluster needs. */
  lemma DecisionsDifferIff(f: map<string, string>)
    ensures (ValueOf(f, MgsIpAddress) == "") != Lookup(f, MgsIpAddress).None? <==> Lookup(f, MgsIpAddress) == Some("")
    ensures Lookup(f, MgsIpAddress) == Some("") ==> Complete(f)
  {
    hide KeyText;
  }

  /** A planned cluster whose volume is created is what the theorems above are about. */
  lemma CreatedByRun(client: bool, name: string, f: map<string, string>, p: Properties, bytes: int64,
                     events: seq<Event>, r: Result<CreatedVolume>)
    requires ClusterOutcome(client, name, f, p, bytes, events, r) && r.Ok?
    requires ValueOf(f, MgsIpAddress) == "" && p.name == name && IsValidVolumeName(name)
    ensures IsCreated(client, name, f, events, p, r.value)
  {
    hide CreateRun, FoldDistinct, Folded, IdFrom, KeyText, ValueOf, SubDirGivenEmpty;
    var delivered :| CreateRun(client, p, events, delivered) && Reported(name, f, p, bytes, delivered, r);
    hide ContextAfter;
    SubDirKept(f, true, p.resourceGroup, delivered.value);
    AddressWritten(f, p.resourceGroup, delivered.value);
  }

  /** The events of a call after its query for SKUs. */
  function ClusterEvents(events: seq<Event>): seq<Event>
  {
    if events == [] then [] else events[1..]
  }

  /** Every volume CreateVolume returns is what the theorems above are about; the query for SKUs comes before the
      events of the create call. */
  lemma EveryVolumeIsCreated(d: Setup, q: VolumeRequest, m: map<string, string>, events: seq<Event>,
                             r: Result<CreatedVolume>)
    requires FoldDistinct(m) && VolumeOutcome(d, q, m, events, r) && r.Ok? && q.name != ""
    ensures exists p :: IsCreated(d.client, q.name, Folded(m), ClusterEvents(events), p, r.value)
  {
    hide FoldDistinct, Folded, CanParse, Acceptable, Complete, DynamicOutcome, StaticOutcome, IsCreated, ValueOf;
    var f := Folded(m);
    if ValueOf(f, MgsIpAddress) == "" {
      var parsed :| CanParse(m, Ok(parsed)) && DynamicOutcome(d, q, f, parsed, events, r);
      DynamicIsCreated(d, q, f, parsed, events, r);
    } else {
      StaticIsCreated(d.client, q, f, r);
      assert IsCreated(d.client, q.name, f, ClusterEvents(events), INITIAL, r.value);
    }
  }

  lemma DynamicIsCreated(d: Setup, q: VolumeRequest, f: map<string, string>, parsed: Properties, events: seq<Event>,
                         r: Result<CreatedVolume>)
    requires DynamicOutcome(d, q, f, parsed, events, r) && r.Ok? && ValueOf(f, MgsIpAddress) == ""
    ensures exists p :: IsCreated(d.client, q.name, f, ClusterEvents(events), p, r.value)
  {
    hide SkuOf, ClusterOutcome, IsCreated, PopulateSubnet, CapacityTib, IsValidVolumeName, ValueOf, Granted, CanGrant;
    var plan :| PlanOutcome(d.cloud, parsed, q, SkuOf(d, parsed, events[0]), plan)
                && PlanFollowed(d, q, f, plan, events[1..], r);
    CreatedByRun(d.client, q.name, f, plan.value.0, plan.value.1, events[1..], r);
    assert IsCreated(d.client, q.name, f, ClusterEvents(events), plan.value.0, r.value);
  }

  lemma StaticIsCreated(client: bool, q: VolumeRequest, f: map<string, string>, r: Result<CreatedVolume>)
    requires StaticOutcome(q, f, r) && r.Ok? && q.name != "" && ValueOf(f, MgsIpAddress) != ""
    ensures IsCreated(client, q.name, f, [], INITIAL, r.value)
  {
    hide FoldDistinct, Folded, IdFrom, KeyText, SubDirGivenEmpty, ValueOf, Granted, CanGrant;
    SubDirKept(f, false, "", "");
    StaticContext(f, "", "", INITIAL.resourceGroup, ValueOf(Folded(r.value.context), MgsIpAddress));
  }

  /** The code a failed create reports is that of an error Azure answered in this call, as first converted, or of
      one of the driver's own verdicts, or InvalidArgument for an empty sub-directory. */
  lemma CreateFailureCode(client: bool, name: string, f: map<string, string>, p: Properties, bytes: int64,
                          events: seq<Event>, r: Result<CreatedVolume>)
    requires ClusterOutcome(client, name, f, p, bytes, events, r) && r.Err?
    ensures CodeOf(r.error) != OK
    ensures || (exists e :: Explained(events, e) && CodeOf(r.error) == CodeOf(e))
            || (SubDirGivenEmpty(f) && r.error == INVALID)
  {
    hide CreateRun, SubDirGivenEmpty, Explained, IsVolume;
    var delivered :| CreateRun(client, p, events, delivered) && Reported(name, f, p, bytes, delivered, r);
    if delivered.Err? {
      ErrorProvenance(client, p, events, delivered);
    }
  }

  /** A cluster that was delivered is left behind by a failing call exactly when an empty sub-directory is given:
      that is noticed only after the cluster exists, and nothing is deleted. */
  lemma OrphanIff(client: bool, name: string, f: map<string, string>, p: Properties, bytes: int64,
                  events: seq<Event>, r: Result<CreatedVolume>, address: string)
    requires ClusterOutcome(client, name, f, p, bytes, events, r) && CreatePolled(Created(address)) in events
    ensures r.Err? <==> SubDirGivenEmpty(f)
    ensures r.Err? ==> r.error == INVALID
    ensures !Deletes(events)
  {
    hide CreateRun, SubDirGivenEmpty, IsVolume, Deletes;
    var delivered :| CreateRun(client, p, events, delivered) && Reported(name, f, p, bytes, delivered, r);
    AddressMeansCreated(client, p, events, delivered, address);
  }

  /** The events of a create call in which a new cluster is delivered at once. */
  function Delivery(p: Properties, address: string): seq<Event>
  {
    [Got(p.resourceGroup, p.name, Found(AnyOther)),
     CreateSent(p.resourceGroup, p.name, RequestFor(p), None),
     CreatePolled(Created(address))]
  }

  lemma DeliveryIsRun(p: Properties, address: string)
    requires SubnetGiven(p)
    ensures CreateRun(true, p, Delivery(p, address), Ok(address))
  {
    hide RequestFor;
    var events := Delivery(p, address);
    var poll := [CreatePolled(Created(address))];
    var send := [CreateSent(p.resourceGroup, p.name, RequestFor(p), None)] + poll;
    assert events[1..] == send && send[1..] == poll;
    assert PollRun(p, poll, Ok(address));
    assert SendRun(p, send, Ok(address));
  }

  /** A run of a dynamic create: the pages give the SKU, the plan stands, and Azure delivers the cluster. */
  lemma DeliveredOutcome(d: Setup, q: VolumeRequest, f: map<string, string>, parsed: Properties,
                         pages: seq<PageReply<Skus.Sku>>, p: Properties, bytes: int64, address: string,
                         r: Result<CreatedVolume>)
    requires d.client && d.skuClient && SubnetGiven(p)
    requires PlanOutcome(d.cloud, parsed, q, SkuOf(d, parsed, SkusListed(pages)), Ok((p, bytes)))
    requires Reported(q.name, f, p, bytes, Ok(address), r)
    ensures DynamicOutcome(d, q, f, parsed, [SkusListed(pages)] + Delivery(p, address), r)
  {
    hide CreateRun, Delivery, Reported, PlanOutcome, SkuOf;
    DeliveryIsRun(p, address);
    var events := [SkusListed(pages)] + Delivery(p, address);
    assert events[1..] == Delivery(p, address);
    assert ClusterOutcome(true, q.name, f, p, bytes, events[1..], r);
    assert PlanFollowed(d, q, f, Ok((p, bytes)), events[1..], r);
  }

  /** For every request with a valid name, no zone and a subnet there are pages with which it can be planned. */
  lemma SomePlan(d: Setup, parsed: Properties, name: string)
    returns (pages: seq<PageReply<Skus.Sku>>, p: Properties, bytes: int64)
    requires IsValidVolumeName(name) && parsed.zone == ""
    requires var s := PopulateSubnet(d.cloud, parsed.subnet);
             s.name != "" && s.vnetName != "" && s.vnetResourceGroup != ""
    ensures SubnetGiven(p)
    ensures PlanOutcome(d.cloud, parsed, VolumeRequest(name, 0, 0), SkuOf(d, parsed, SkusListed(pages)), Ok((p, bytes)))
  {
    var location := Or(parsed.location, d.cloud.location);
    pages := Skus.Offer(parsed.sku, location, 4, 4);
    bytes := DEFAULT_SIZE as int64;
    p := ClusterFor(d.cloud, parsed, name, bytes);
    Skus.OfferIsFound(parsed.sku, location, 4, 4);
    DefaultIsGranted();
    hide Granted, IsValidVolumeName, CapacityTib, Skus.ValueIn, Skus.Offer;
  }

  lemma DefaultIsGranted()
    ensures Granted(0, 0, TibToBytes(4), TibToBytes(4), DEFAULT_SIZE as int64)
  {
    TibToBytesExact(4);
    RoundingIsSound(DEFAULT_SIZE as int64, TibToBytes(4), TibToBytes(4));
    hide RoundToBlock, CeilMultiple;
    MultipleInRange(1, CeilMultiple(DEFAULT_SIZE, DEFAULT_SIZE), DEFAULT_SIZE, DEFAULT_SIZE);
  }

  /** Such an orphan: whatever else a request with an empty sub-directory asks for, if it can be planned there is a
      run that creates its cluster and fails. */
  lemma OrphanRun(d: Setup, q: VolumeRequest, f: map<string, string>, parsed: Properties,
                  pages: seq<PageReply<Skus.Sku>>, p: Properties, bytes: int64, address: string)
    requires d.client && d.skuClient && SubnetGiven(p) && SubDirGivenEmpty(f)
    requires PlanOutcome(d.cloud, parsed, q, SkuOf(d, parsed, SkusListed(pages)), Ok((p, bytes)))
    ensures DynamicOutcome(d, q, f, parsed, [SkusListed(pages)] + Delivery(p, address), Err(INVALID))
  {
    hide PlanOutcome, SkuOf, SubDirGivenEmpty;
    DeliveredOutcome(d, q, f, parsed, pages, p, bytes, address, Err(INVALID));
  }

  /** With the address given empty and no maintenance day, a request passes the parser, and if it can be planned
      there is a run that creates a cluster by a request with an empty maintenance day. */
  lemma EmptyAddressSkipsChecks(d: Setup, q: VolumeRequest, m: map<string, string>, parsed: Properties,
                                pages: seq<PageReply<Skus.Sku>>, p: Properties, bytes: int64, address: string)
    returns (v: CreatedVolume)
    requires FoldDistinct(m) && Acceptable(m) && CanParse(m, Ok(parsed))
    requires Lookup(Folded(m), MgsIpAddress) == Some("") && Lookup(Folded(m), MaintenanceDay).None?
    requires d.client && d.skuClient && SubnetGiven(p) && !SubDirGivenEmpty(Folded(m))
    requires PlanOutcome(d.cloud, parsed, q, SkuOf(d, parsed, SkusListed(pages)), Ok((p, bytes)))
    ensures RequestFor(p).maintenanceDay == ""
    ensures VolumeOutcome(d, q, m, [SkusListed(pages)] + Delivery(p, address), Ok(v))
  {
    var f := Folded(m);
    DecisionsDifferIff(f);
    var order :| IsOrder(m, order) && Ok(parsed) == ParseInOrder(m, order);
    ParsedResult(m, order);
    DescribedFields(f, parsed);
    assert ValueOf(f, MaintenanceDay) == "" && ValueOf(f, MgsIpAddress) == "";
    PlanKeepsDay(d, parsed, q, SkusListed(pages), p, bytes);
    hide KeyText, Folded, FoldDistinct, Acceptable, Complete, CanParse, SkuOf, PlanOutcome, Delivery, ContextAfter,
         IdFrom, SubDirGivenEmpty, ParseInOrder, RequestFor, Describes, Lookup, ValueOf;
    v := MadeVolume(m, q.name, p.resourceGroup, address, bytes);
    DeliveredOutcome(d, q, f, parsed, pages, p, bytes, address, Ok(v));
  }

  /** Such parameters: an empty address and nothing else, with any driver whose configuration names a subnet. */
  lemma EmptyAddressExample(d: Setup, name: string, address: string)
    returns (pages: seq<PageReply<Skus.Sku>>, p: Properties, bytes: int64, v: CreatedVolume)
    requires d.client && d.skuClient && IsValidVolumeName(name)
    requires var s := PopulateSubnet(d.cloud, INITIAL.subnet);
             s.name != "" && s.vnetName != "" && s.vnetResourceGroup != ""
    ensures RequestFor(p).maintenanceDay == "" && FoldDistinct(OnlyEmptyAddress())
    ensures VolumeOutcome(d, VolumeRequest(name, 0, 0), OnlyEmptyAddress(),
                          [SkusListed(pages)] + Delivery(p, address), Ok(v))
  {
    hide FoldDistinct, Folded, IsValidVolumeName, PopulateSubnet, OnlyEmptyAddress, Acceptable, CanParse, SkuOf,
         PlanOutcome, VolumeOutcome, RequestFor, Delivery;
    pages, p, bytes := SomePlan(d, INITIAL, name);
    OnlyEmptyAddressPasses();
    v := EmptyAddressSkipsChecks(d, VolumeRequest(name, 0, 0), OnlyEmptyAddress(), INITIAL, pages, p, bytes, address);
  }

  function OnlyEmptyAddress(): map<string, string>
  {
    map["mgs-ip-address" := ""]
  }

  lemma OnlyEmptyAddressPasses()
    ensures var m := OnlyEmptyAddress();
            && FoldDistinct(m) && Acceptable(m) && CanParse(m, Ok(INITIAL)) && !SubDirGivenEmpty(Folded(m))
            && Lookup(Folded(m), MgsIpAddress) == Some("") && Lookup(Folded(m), MaintenanceDay).None?
  {
    assert OnlyEmptyAddress() == map[KeyText(MgsIpAddress) := ""];
    KeysAreLower(MgsIpAddress);
    hide *;
    OneAddressPasses(KeyText(MgsIpAddress));
    OneParameter(KeyText(MgsIpAddress));
  }

  lemma OneAddressPasses(k: string)
    requires k == KeyText(MgsIpAddress) && Lower(k) == k
    ensures var m := map[k := ""];
            && FoldDistinct(m) && Acceptable(m) && !SubDirGivenEmpty(Folded(m))
            && Lookup(Folded(m), MgsIpAddress) == Some("") && Lookup(Folded(m), MaintenanceDay).None?
  {
    hide KeyText, Lower, Folded, FoldDistinct, Trim, Lookup, Acceptable;
    LoweredMap(map[k := ""]);
    LookedUpAlone(k);
    AcceptableAlone(k);
  }

  lemma AcceptableAlone(k: string)
    requires k == KeyText(MgsIpAddress) && Lower(k) == k
    ensures Acceptable(map[k := ""])
  {
    hide KeyText, Lower, EntryOk;
    AddressIsAccepted("");
  }

  lemma LookedUpAlone(k: string)
    requires k == KeyText(MgsIpAddress)
    ensures Lookup(map[k := ""], MgsIpAddress) == Some("")
    ensures Lookup(map[k := ""], MaintenanceDay) == None && Lookup(map[k := ""], SubDir) == None
  {
    hide KeyText;
    if KeyText(SubDir) == k { KeysAreDistinct(SubDir, MgsIpAddress); }
    if KeyText(MaintenanceDay) == k { KeysAreDistinct(MaintenanceDay, MgsIpAddress); }
  }

  /** An address alone leaves the properties as they were. */
  lemma OneParameter(k: string)
    requires k == KeyText(MgsIpAddress) && Lower(k) == k
    ensures CanParse(map[k := ""], Ok(INITIAL))
  {
    AddressIsAccepted("");
    hide KeyText, Lower, EntryOk, Split, ParseTags, TAGS, INITIAL;
    var m, order := map[k := ""], [k];
    assert Classify(Lower(k)) == Some(MgsIpAddress);
    assert order[..0] == [];
    assert AssignAll(m, []) == Some(INITIAL);
    assert AssignOne(INITIAL, k, "") == Some(INITIAL);
    assert AssignAll(m, order) == Some(INITIAL);
    assert k in order;
    assert GivesAddress(order);
    assert IsOrder(m, order);
  }

  /** A cluster is asked for with an empty maintenance day exactly when the address is given empty and no day is
      given. */
  lemma EmptyDayIff(d: Setup, q: VolumeRequest, m: map<string, string>, parsed: Properties, event: Event, p: Properties,
                    bytes: int64)
    requires FoldDistinct(m) && CanParse(m, Ok(parsed)) && ValueOf(Folded(m), MgsIpAddress) == ""
    requires event.SkusListed? && PlanOutcome(d.cloud, parsed, q, SkuOf(d, parsed, event), Ok((p, bytes)))
    ensures RequestFor(p).maintenanceDay == "" <==>
            Lookup(Folded(m), MgsIpAddress) == Some("") && Lookup(Folded(m), MaintenanceDay).None?
  {
    hide PlanOutcome, SkuOf, RequestFor, Folded, FoldDistinct, KeyText, AssignAll, GivesAddress, Describes, Acceptable;
    var f := Folded(m);
    PlanKeepsDay(d, parsed, q, event, p, bytes);
    var order :| IsOrder(m, order) && Ok(parsed) == ParseInOrder(m, order);
    ParsedResult(m, order);
    DescribedFields(f, parsed);
    if Lookup(f, MaintenanceDay).Some? {
      GivenDayIsDay(m);
    }
  }

  lemma GivenDayIsDay(m: map<string, string>)
    requires FoldDistinct(m) && Acceptable(m) && Lookup(Folded(m), MaintenanceDay).Some?
    ensures Lookup(Folded(m), MaintenanceDay).value != ""
  {
    hide Folded, FoldDistinct, KeyText, Lower, Lookup, IsTimeOfDay, AcceptableTags;
    var s := KeyIn(m, MaintenanceDay);
    assert EntryOk(Lower(s), m[s]);
    assert "" !in DAYS;
  }

  lemma PlanKeepsDay(d: Setup, parsed: Properties, q: VolumeRequest, event: Event, p: Properties, bytes: int64)
    requires event.SkusListed? && PlanOutcome(d.cloud, parsed, q, SkuOf(d, parsed, event), Ok((p, bytes)))
    ensures RequestFor(p).maintenanceDay == parsed.maintenanceDay
  {
    hide SkuOf, Granted, CanGrant, IsValidVolumeName, PopulateSubnet, CapacityTib;
  }

  /** The volume a dynamic create returns for parameters written in lower case. */
  lemma MadeVolume(m: map<string, string>, name: string, resourceGroup: string, address: string, bytes: int64)
    returns (v: CreatedVolume)
    requires FoldDistinct(m)
    ensures IsVolume(name, Folded(m), true, resourceGroup, address, bytes, v)
  {
    var g := ContextAfter(Folded(m), true, resourceGroup, address);
    forall s | s in Folded(m) ensures Lower(s) == s {
      FoldedMember(m, s);
      var t :| t in m && Lower(t) == s;
      LowerTwice(t);
    }
    KeysAreLower(MgsIpAddress);
    KeysAreLower(FsName);
    KeysAreLower(ResourceGroupName);
    KeysAreLower(DynamicallyCreated);
    hide KeyText, Lower, Folded, FoldDistinct;
    LoweredMap(g);
    v := CreatedVolume(IdFrom(name, g), bytes, g);
  }

  // ---- The same by the parameters, the configuration and the requests themselves ----

  /** When a capacity is granted, for a request that is positive or left to the default of 4 TiB: the block can be added
      without overflow, and the least multiple of the block that covers the request is within a positive maximum and
      a limit other than zero; it is then the capacity. */
  lemma CanGrantIff(required: int64, limit: int64, block: int64, maximum: int64)
    requires required >= 0 && block > 0
    ensures var c := if required == 0 then 4398046511104 else required as int;
            var bytes := CeilMultiple(c, block as int);
            && (CanGrant(required, limit, block, maximum) <==>
                  && c + block as int <= 0x8000_0000_0000_0000
                  && (maximum > 0 ==> bytes <= maximum as int) && (limit != 0 ==> bytes <= limit as int))
            && forall b | Granted(required, limit, block, maximum, b) :: b as int == bytes
  {
    var capacity := if required == 0 then DEFAULT_SIZE as int64 else required;
    RoundingIsSound(capacity, block, maximum);
    hide RoundToBlock, CeilMultiple;
    var r := RoundToBlock(capacity, block, maximum);
    if r.Rounded? && (limit == 0 || r.bytes <= limit) {
      assert Granted(required, limit, block, maximum, r.bytes);
    }
  }

  /** When a new cluster can be planned, for a request that is positive or left to the default and SKU values that are
      positive and below 2^23 TiB: the least number of increments that covers the request does not overflow and is
      within maximum and limit; a zone is given exactly when the SKU has zones, and is one of them; and the name is
      valid. The capacity is that number of increments. */
  lemma PlannableIff(c: Cloud, parsed: Properties, q: VolumeRequest, sku: Skus.SkuValue)
    requires q.required >= 0 && 0 < sku.incrementInTib as int < 0x80_0000 && 0 < sku.maximumInTib as int < 0x80_0000
    ensures var required := if q.required == 0 then 4398046511104 else q.required as int;
            var bytes := CeilMultiple(required, sku.incrementInTib as int * TIB);
            && (Plannable(parsed, q, sku) <==>
                  && required + sku.incrementInTib as int * TIB <= 0x8000_0000_0000_0000
                  && bytes <= sku.maximumInTib as int * TIB && (q.limit != 0 ==> bytes <= q.limit as int)
                  && (if sku.zones == [] then parsed.zone == "" else parsed.zone != "" && parsed.zone in sku.zones)
                  && IsValidVolumeName(q.name))
            && (forall b, p | Planned(c, parsed, q, sku, b, p) :: b as int == bytes)
  {
    TibToBytesExact(sku.incrementInTib);
    TibToBytesExact(sku.maximumInTib);
    hide TibToBytes, CeilMultiple, IsValidVolumeName, Granted, CanGrant, ClusterFor;
    CanGrantIff(q.required, q.limit, TibToBytes(sku.incrementInTib), TibToBytes(sku.maximumInTib));
  }

  /** When a static volume is created, for a request that is positive or left to the default: its capacity in blocks of
      4 TiB does not overflow and is within the limit, and the sub-directory is not given empty. */
  lemma StaticIff(q: VolumeRequest, f: map<string, string>, r: Result<CreatedVolume>)
    requires StaticOutcome(q, f, r) && q.required >= 0
    ensures var required := if q.required == 0 then 4398046511104 else q.required as int;
            var bytes := CeilMultiple(required, 4398046511104);
            && (r.Ok? <==>
                  && required + 4398046511104 <= 0x8000_0000_0000_0000 && (q.limit != 0 ==> bytes <= q.limit as int)
                  && !SubDirGivenEmpty(f))
            && (r.Ok? ==> r.value.capacity as int == bytes)
  {
    hide CeilMultiple, Granted, CanGrant, SubDirGivenEmpty, IsVolume;
    CanGrantIff(q.required, q.limit, DEFAULT_BLOCK, 0);
  }

  ghost predicate FramesName(first: char, middle: string, last: char) {
    && |middle| <= 78 && Alphanumeric(first) && Alphanumeric(last)
    && forall c | c in middle :: Alphanumeric(c) || c == '_' || c == '-'
  }

  /** A volume name that can be a cluster's: 2 to 80 characters, a letter or digit at both ends, and letters, digits,
      '_' and '-' between. */
  lemma ValidNameIff(name: string)
    ensures IsValidVolumeName(name) <==>
            exists first, middle, last :: name == [first] + middle + [last] && FramesName(first, middle, last)
  {
    if IsValidVolumeName(name) {
      ValidNameFrames(name);
    }
    if first, middle, last :| name == [first] + middle + [last] && FramesName(first, middle, last) {
      FramedIsValid(first, middle, last);
    }
  }

  lemma ValidNameFrames(name: string)
    requires IsValidVolumeName(name)
    ensures exists first, middle, last :: name == [first] + middle + [last] && FramesName(first, middle, last)
  {
    hide Alphanumeric;
    var middle := name[1..|name| - 1];
    assert FramesName(name[0], middle, name[|name| - 1]) by {
      assert forall i | 0 <= i < |middle| :: middle[i] == name[i + 1];
    }
    assert name == [name[0]] + middle + [name[|name| - 1]];
  }

  lemma FramedIsValid(first: char, middle: string, last: char)
    requires FramesName(first, middle, last)
    ensures IsValidVolumeName([first] + middle + [last])
  {
    hide Alphanumeric;
    var name := [first] + middle + [last];
    assert forall i | 0 < i < |name| - 1 :: name[i] == middle[i - 1] && middle[i - 1] in middle;
  }

  /** The cluster of a plan, field by field: what the parameters give, and the configured value only where they give
      none; the configured network resource group goes before the plain one. */
  lemma PlannedFields(c: Cloud, parsed: Properties, q: VolumeRequest, sku: Skus.SkuValue, bytes: int64, p: Properties)
    requires Planned(c, parsed, q, sku, bytes, p)
    ensures p.name == q.name && p.sku == parsed.sku && p.tags == parsed.tags && p.identities == parsed.identities
    ensures p.maintenanceDay == parsed.maintenanceDay && p.timeOfDay == parsed.timeOfDay && p.zone == parsed.zone
    ensures p.capacityTiB == CapacityTib(bytes)
    ensures p.location == if parsed.location != "" then parsed.location else c.location
    ensures p.resourceGroup == if parsed.resourceGroup != "" then parsed.resourceGroup else c.resourceGroup
    ensures p.subnet.vnetResourceGroup ==
            if parsed.subnet.vnetResourceGroup != "" then parsed.subnet.vnetResourceGroup
            else if c.vnetResourceGroup != "" then c.vnetResourceGroup else c.resourceGroup
    ensures p.subnet.vnetName == if parsed.subnet.vnetName != "" then parsed.subnet.vnetName else c.vnetName
    ensures p.subnet.name == if parsed.subnet.name != "" then parsed.subnet.name else c.subnetName
    ensures var subscription := if c.networkSubscription != "" then c.networkSubscription else c.subscription;
            p.subnet.id == SubnetId(subscription, p.subnet.vnetResourceGroup, p.subnet.vnetName, p.subnet.name)
    ensures p.zone != "" <==> sku.zones != []
    ensures p.zone != "" ==> p.zone in sku.zones
  {
    hide Granted, IsValidVolumeName, CapacityTib;
  }

  /** The segments of a subnet's ID between slashes. */
  lemma SubnetSegments(subscription: string, group: string, vnet: string, subnet: string)
    requires '/' !in subscription && '/' !in group && '/' !in vnet && '/' !in subnet
    ensures Split(SubnetId(subscription, group, vnet, subnet), '/') ==
            ["", "subscriptions", subscription, "resourceGroups", group, "providers", "Microsoft.Network",
             "virtualNetworks", vnet, "subnets", subnet]
  {
    hide Split, Slash;
    var subscribed := Slash(Slash("", "subscriptions"), subscription);
    var grouped := Slash(Slash(subscribed, "resourceGroups"), group);
    var provided := Slash(Slash(Slash(grouped, "providers"), "Microsoft.Network"), "virtualNetworks");
    SplitAtom("", '/');
    TwoMoreSegments("", "subscriptions", subscription);
    TwoMoreSegments(subscribed, "resourceGroups", group);
    TwoMoreSegments(grouped, "providers", "Microsoft.Network");
    TwoMoreSegments(Slash(Slash(grouped, "providers"), "Microsoft.Network"), "virtualNetworks", vnet);
    TwoMoreSegments(Slash(provided, vnet), "subnets", subnet);
  }

  lemma TwoMoreSegments(s: string, x: string, y: string)
    requires '/' !in x && '/' !in y
    ensures Split(Slash(Slash(s, x), y), '/') == Split(s, '/') + [x, y]
  {
    hide Split;
    SplitAppend(s, x, '/');
    SplitAppend(Slash(s, x), y, '/');
    SplitAtom(x, '/');
    SplitAtom(y, '/');
  }

  /** The context of a returned volume, by its keys. */
  lemma ContextByKeys(name: string, f: map<string, string>, dynamic: bool, group: string, address: string, bytes: int64,
                      v: CreatedVolume)
    requires IsVolume(name, f, dynamic, group, address, bytes, v)
    ensures dynamic ==> Folded(v.context) == f["resource-group-name" := group]["mgs-ip-address" := address]
                                              ["fs-name" := "lustrefs"]["created-by-dynamic-provisioning" := "t"]
    ensures !dynamic ==> Folded(v.context) == f["created-by-dynamic-provisioning" := "f"]
  {
    ContextTexts();
    hide KeyText, Folded, FoldDistinct, IdFrom;
  }
}
