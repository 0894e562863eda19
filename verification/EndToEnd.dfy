/** From the parameters of a storage class to the requests Azure gets and the mount a pod sees, by keys and values as
    they are written. */
module EndToEnd {
  import opened Text
  import opened GrpcErrors
  import opened FoldMaps
  import opened MapIteration
  import opened Capacity
  import opened Provisioner
  import opened ProvisionerRuns
  import opened StorageParameters
  import opened VolumeIdentity
  import opened Controller
  import Skus
  import P = Paths
  import N = NodeServer

  /** The value a parameter gives, or the configured one if it gives none. */
  function Configured(f: map<string, string>, key: string, configured: string): string
  {
    if key in f && f[key] != "" then f[key] else configured
  }

  /** The plan behind a call that went on after its query for SKUs. */
  lemma PlanBehind(d: Setup, q: VolumeRequest, m: map<string, string>, events: seq<Event>, r: Result<CreatedVolume>)
    returns (parsed: Properties, sku: Skus.SkuValue, p: Properties, bytes: int64, delivered: Result<string>)
    requires FoldDistinct(m) && VolumeOutcome(d, q, m, events, r) && |events| > 1
    ensures Describes(Folded(m), parsed) && Planned(d.cloud, parsed, q, sku, bytes, p)
    ensures CreateRun(d.client, p, events[1..], delivered) && Reported(q.name, Folded(m), p, bytes, delivered, r)
  {
    hide FoldDistinct, Folded, Acceptable, Complete, StaticOutcome, Describes, Planned, CreateRun, Reported, Plannable,
         SkuOf, ValueOf, ParseInOrder;
    var f := Folded(m);
    parsed :| CanParse(m, Ok(parsed)) && DynamicOutcome(d, q, f, parsed, events, r);
    var order :| IsOrder(m, order) && Ok(parsed) == ParseInOrder(m, order);
    ParsedResult(m, order);
    var plan :| PlanOutcome(d.cloud, parsed, q, SkuOf(d, parsed, events[0]), plan)
                && PlanFollowed(d, q, f, plan, events[1..], r);
    sku, p, bytes := SkuOf(d, parsed, events[0]).value, plan.value.0, plan.value.1;
    delivered :| CreateRun(d.client, p, events[1..], delivered) && Reported(q.name, f, p, bytes, delivered, r);
  }

  /** The create request of a call, by the parameters and the configuration: where it goes, and every field it has. */
  lemma RequestFromParameters(d: Setup, q: VolumeRequest, m: map<string, string>, events: seq<Event>,
                              r: Result<CreatedVolume>, i: nat)
    requires FoldDistinct(m) && VolumeOutcome(d, q, m, events, r) && i < |events| && events[i].CreateSent?
    ensures events[i].name == q.name
    ensures events[i].resourceGroup == Configured(Folded(m), "resource-group-name", d.cloud.resourceGroup)
    ensures IsRequest(d.cloud, Folded(m), events[i].request)
    ensures r.Ok? ==> events[i].request.capacityTiB == CapacityTib(r.value.capacity)
  {
    hide FoldDistinct, Folded, Describes, Planned, CreateRun, VolumeOutcome, RequestFor, IsRequest, CapacityTib,
         IsVolume,
         SubDirGivenEmpty, Configured;
    QueryFirst(d, q, m, events, r);
    var parsed, sku, p, bytes, delivered := PlanBehind(d, q, m, events, r);
    RunIsFor(d.client, p, events[1..], delivered, i - 1);
    PlannedGroup(d, Folded(m), parsed, q, sku, bytes, p);
    PlannedRequest(d, Folded(m), parsed, q, sku, bytes, p);
    RequestCapacity(d.cloud, parsed, q, sku, bytes, p);
    if r.Ok? {
      CapacityReported(q.name, Folded(m), p, bytes, delivered, r);
    }
  }

  lemma QueryFirst(d: Setup, q: VolumeRequest, m: map<string, string>, events: seq<Event>, r: Result<CreatedVolume>)
    requires FoldDistinct(m) && VolumeOutcome(d, q, m, events, r) && events != []
    ensures events[0].SkusListed?
  {
    hide FoldDistinct, Folded, Acceptable, Complete, StaticOutcome, CanParse, PlanOutcome, PlanFollowed, ValueOf;
  }

  lemma CapacityReported(name: string, f: map<string, string>, p: Properties, bytes: int64, delivered: Result<string>,
                         r: Result<CreatedVolume>)
    requires Reported(name, f, p, bytes, delivered, r) && r.Ok?
    ensures r.value.capacity == bytes
  {
    hide SubDirGivenEmpty, ContextAfter, IdFrom, Folded, FoldDistinct;
  }

  lemma RequestCapacity(c: Cloud, parsed: Properties, q: VolumeRequest, sku: Skus.SkuValue, bytes: int64, p: Properties)
    requires Planned(c, parsed, q, sku, bytes, p)
    ensures RequestFor(p).capacityTiB == CapacityTib(bytes) && p.name == q.name
  {
    hide Planned, CapacityTib, SubnetId;
    PlannedFields(c, parsed, q, sku, bytes, p);
  }

  /** The fields of a request for folded parameters f. */
  ghost predicate IsRequest(c: Cloud, f: map<string, string>, request: Request)
  {
    && request.location == Configured(f, "location", c.location)
    && request.subnetId == SubnetFor(c, f)
    && request.maintenanceDay == Under(f, "maintenance-day-of-week")
    && request.timeOfDay == Under(f, "maintenance-time-of-day-utc") && request.sku == Under(f, "sku-name")
    && IsZoneList(f, request.zones)
    && request.identities == (if "identities" in f then Some(set i | i in Split(f["identities"], ',')) else None)
    && Entry(request.tags, "k8s-azure-created-by") == Some("kubernetes-azurelustre-csi-driver")
    && Entry(request.tags, "kubernetes.io-created-for-pvc-name") == Entry(f, "csi.storage.k8s.io/pvc/name")
    && Entry(request.tags, "kubernetes.io-created-for-pvc-namespace") == Entry(f, "csi.storage.k8s.io/pvc/namespace")
    && Entry(request.tags, "kubernetes.io-created-for-pv-name") == Entry(f, "csi.storage.k8s.io/pv/name")
  }

  /** The network resource group: as given, or the configured one for networks, or the plain configured one. */
  function NetworkGroup(c: Cloud, f: map<string, string>): string
  {
    Configured(f, "vnet-resource-group", if c.vnetResourceGroup != "" then c.vnetResourceGroup else c.resourceGroup)
  }

  /** The ID of the subnet the parameters and the configuration name. */
  function SubnetFor(c: Cloud, f: map<string, string>): string
  {
    SubnetId(if c.networkSubscription != "" then c.networkSubscription else c.subscription, NetworkGroup(c, f),
             Configured(f, "vnet-name", c.vnetName), Configured(f, "subnet-name", c.subnetName))
  }

  /** The zones of a request: none, or the one zone the parameters give. */
  predicate IsZoneList(f: map<string, string>, zones: seq<string>)
  {
    && |zones| <= 1
    && (zones != [] ==> zones[0] != "" && (zones[0] == Under(f, "zone") || zones[0] == Under(f, "zones")))
    && ("zones" !in f ==> zones == if Under(f, "zone") != "" then [Under(f, "zone")] else [])
    && ("zone" !in f ==> zones == if Under(f, "zones") != "" then [Under(f, "zones")] else [])
  }

  lemma PlannedGroup(d: Setup, f: map<string, string>, parsed: Properties, q: VolumeRequest, sku: Skus.SkuValue,
                     bytes: int64, p: Properties)
    requires Describes(f, parsed) && Planned(d.cloud, parsed, q, sku, bytes, p)
    ensures p.resourceGroup == Configured(f, "resource-group-name", d.cloud.resourceGroup)
    ensures p.subnet.vnetResourceGroup == NetworkGroup(d.cloud, f)
    ensures p.subnet.vnetName == Configured(f, "vnet-name", d.cloud.vnetName)
  {
    hide Describes, Planned, SubnetId, CapacityTib;
    PlannedFields(d.cloud, parsed, q, sku, bytes, p);
    ParsedFromKeys(f, parsed);
  }

  lemma PlannedRequest(d: Setup, f: map<string, string>, parsed: Properties, q: VolumeRequest, sku: Skus.SkuValue,
                       bytes: int64, p: Properties)
    requires Describes(f, parsed) && Planned(d.cloud, parsed, q, sku, bytes, p)
    ensures IsRequest(d.cloud, f, RequestFor(p))
  {
    hide Describes, Planned, SubnetId, CapacityTib, Entry, Split;
    PlannedFields(d.cloud, parsed, q, sku, bytes, p);
    ParsedFromKeys(f, parsed);
    TagsByName(f, parsed);
    TaggedByDriver(parsed);
  }

  lemma TaggedByDriver(p: Properties)
    requires "k8s-azure-created-by" in p.tags && p.tags["k8s-azure-created-by"] == "kubernetes-azurelustre-csi-driver"
    ensures Entry(p.tags, "k8s-azure-created-by") == Some("kubernetes-azurelustre-csi-driver")
  {
  }

  /** The SKU a dynamic create goes by is that of the location and the SKU name the parameters give. */
  lemma SkuFromParameters(d: Setup, f: map<string, string>, parsed: Properties, event: Event)
    requires Describes(f, parsed) && event.SkusListed?
    ensures SkuOf(d, parsed, event) ==
            Skus.ValueIn(event.skuPages, Configured(f, "location", d.cloud.location), Under(f, "sku-name"))
  {
    hide Describes, Skus.ValueIn;
    ParsedFromKeys(f, parsed);
  }

  /** The query for usage goes to the network the parameters and the configuration name. */
  lemma UsageOfNetwork(d: Setup, q: VolumeRequest, m: map<string, string>, events: seq<Event>, r: Result<CreatedVolume>,
                       i: nat)
    requires FoldDistinct(m) && VolumeOutcome(d, q, m, events, r) && i < |events| && events[i].Listed?
    ensures events[i].vnetResourceGroup == NetworkGroup(d.cloud, Folded(m))
    ensures events[i].vnetName == Configured(Folded(m), "vnet-name", d.cloud.vnetName)
  {
    hide FoldDistinct, Folded, Describes, Planned, CreateRun, VolumeOutcome, RequestFor, Reported, NetworkGroup,
         Configured;
    QueryFirst(d, q, m, events, r);
    var parsed, sku, p, bytes, delivered := PlanBehind(d, q, m, events, r);
    RunIsFor(d.client, p, events[1..], delivered, i - 1);
    PlannedGroup(d, Folded(m), parsed, q, sku, bytes, p);
  }

  /** The pod sees the cluster that was created: for every volume a dynamic create returned, with an address and no '#'
      in its fields, the source its node mounts is the filesystem at the address Azure delivered in that call, or a
      directory in it. */
  lemma PodSeesDeliveredCluster(client: bool, name: string, f: map<string, string>, events: seq<Event>, p: Properties,
                                v: CreatedVolume, extra: map<string, string>, volume: LustreVolume, source: string)
    requires IsCreated(client, name, f, events, p, v) && ValueOf(f, MgsIpAddress) == ""
    requires NoHash(Folded(v.context)) && ValueOf(Folded(v.context), MgsIpAddress) != ""
    requires FoldDistinct(v.context + extra)
    requires forall s, k | s in extra && IdKey(k) :: Classify(Lower(s)) != Some(k)
    requires N.VolumeOf(v.id, Folded(v.context + extra)) == Ok(volume)
    requires N.IsSourceOf(volume, Folded(v.context + extra), source)
    ensures CreatePolled(Created(volume.mgsIpAddress)) in events
    ensures volume.subDir == "" ==> source == volume.mgsIpAddress + "@tcp:/lustrefs"
    ensures volume.subDir != "" && '/' !in volume.mgsIpAddress ==>
              exists inner :: N.IsBelow(volume, inner, source)
                              && P.Components(source) ==
                                   [volume.mgsIpAddress + "@tcp:", "lustrefs"] + P.Components(inner)
  {
    hide CreateRun, FoldDistinct, Folded, KeyText, ValueOf, ContextAfter, ParseId, ReadVolume, SubDirGivenEmpty,
         PrintId, Lower,
         IsValidVolumeName, Interpolates, Classify;
    var g := Folded(v.context);
    ControllerNodeAgreement(client, name, f, events, p, v, extra);
    AddressInId(client, name, f, events, p, v);
    AddressMeansCreated(client, p, events, Ok(ValueOf(g, MgsIpAddress)), ValueOf(g, MgsIpAddress));
    N.ReadFilesystem(v.id, ParseId(v.id).value.name, Folded(v.context + extra));
    hide IsCreated;
    assert volume == ParseId(v.id).value && volume.filesystem == FILESYSTEM;
    assert volume.mgsIpAddress + "@tcp:/" + "lustrefs" == volume.mgsIpAddress + "@tcp:/lustrefs";
  }

  /** Deleting a created volume, by its events: the deletion is sent to the resource group and name the create request
      was sent to, and succeeds exactly when it is accepted and its poll reports no failure. */
  lemma DeletionReachesCreatedCluster(name: string, f: map<string, string>, events: seq<Event>, p: Properties,
                                      v: CreatedVolume, deletion: seq<Event>, r: Result<()>)
    requires IsCreated(true, name, f, events, p, v) && ValueOf(f, MgsIpAddress) == "" && NoHash(Folded(v.context))
    requires p.resourceGroup != "" && DeleteOutcome(true, DeletionFor(v.id), deletion, r)
    ensures deletion != [] && deletion[0].DeleteSent?
    ensures exists k | 0 <= k < |events| ::
              && events[k].CreateSent? && events[k].resourceGroup == deletion[0].resourceGroup
              && events[k].name == deletion[0].name
    ensures r.Ok? <==> |deletion| == 2 && deletion[0].refused == None && deletion[1] == DeletePolled(None)
    ensures r.Err? ==>
              && (|deletion| == 1 || (|deletion| == 2 && deletion[1].DeletePolled?))
              && var e := if |deletion| == 1 then deletion[0].refused else deletion[1].failure;
                 e.Some? && CodeOf(r.error) == CodeOf(Converted(e.value))
  {
    hide IsCreated, Folded, ValueOf, DeletionFor, CodeOf, DeleteOutcome, NoHash;
    DynamicCreateDeleteIdentity(true, name, f, events, p, v);
    DeletionByEvents(p.resourceGroup, name, deletion, r);
    var k :| CreateAt(p, events, k) && events[k].resourceGroup == p.resourceGroup && events[k].name == name;
    assert events[k].CreateSent?;
  }

  lemma DeletionByEvents(group: string, name: string, deletion: seq<Event>, r: Result<()>)
    requires DeleteOutcome(true, DeleteCluster(group, name), deletion, r)
    ensures deletion != [] && deletion[0].DeleteSent?
    ensures deletion[0].resourceGroup == group && deletion[0].name == name
    ensures r.Ok? <==> |deletion| == 2 && deletion[0].refused == None && deletion[1] == DeletePolled(None)
    ensures r.Err? ==>
              && (|deletion| == 1 || (|deletion| == 2 && deletion[1].DeletePolled?))
              && var e := if |deletion| == 1 then deletion[0].refused else deletion[1].failure;
                 e.Some? && CodeOf(r.error) == CodeOf(Converted(e.value))
  {
    hide CodeOf;
  }

  lemma AddressInId(client: bool, name: string, f: map<string, string>, events: seq<Event>, p: Properties,
                    v: CreatedVolume)
    requires IsCreated(client, name, f, events, p, v) && ValueOf(f, MgsIpAddress) == "" && NoHash(Folded(v.context))
    ensures ParseId(v.id).Some? && ParseId(v.id).value.mgsIpAddress == ValueOf(Folded(v.context), MgsIpAddress)
  {
    hide CreateRun, FoldDistinct, Folded, KeyText, ValueOf, ContextAfter, SubDirGivenEmpty, ParseId, PrintId;
    var g := Folded(v.context);
    var subDir := Trim(ValueOf(g, SubDir), '/');
    MarkerIsSet(client, name, f, events, p, v);
    IdRoundTrip(name, ValueOf(g, MgsIpAddress), subDir, ValueOf(g, DynamicallyCreated), ValueOf(g, ResourceGroupName));
  }
}
