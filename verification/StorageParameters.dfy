/** Parsing the storage class parameters into the properties of the filesystem to create. */
module StorageParameters {
  import opened Text
  import opened GrpcErrors
  import opened FoldMaps
  import opened MapIteration
  import opened Provisioner

  // ---- Tags ----

  predicate IsSpace(c: char)
  {
    c == ' ' || c == '\t' || c == '\n' || c == '\r' || c as int == 11 || c as int == 12
  }

  /** strings.TrimSpace, for ASCII white space. */
  function TrimSpace(s: string): string
    decreases |s|
  {
    if s != "" && IsSpace(s[0]) then TrimSpace(s[1..])
    else if s != "" && IsSpace(s[|s| - 1]) then TrimSpace(s[..|s| - 1])
    else s
  }

  function TagEntry(tag: string): Option<(string, string)>
  {
    var kv := Split(tag, '=');
    if |kv| != 2 || TrimSpace(kv[0]) == "" then None else Some((TrimSpace(kv[0]), TrimSpace(kv[1])))
  }

  function AddTags(tags: seq<string>, m: map<string, string>): Option<map<string, string>>
  {
    if tags == [] then Some(m)
    else match TagEntry(tags[0])
      case None => None
      case Some((key, value)) => AddTags(tags[1..], m[key := value])
  }

  function ParseTags(tags: string): Option<map<string, string>>
  {
    if tags == "" then Some(map[]) else AddTags(Split(tags, ','), map[])
  }

  /** ConvertTagsToMap. */
  method ConvertTagsToMap(tags: string) returns (r: Option<map<string, string>>)
    ensures r == ParseTags(tags)
  {
    var m := map[];
    if tags == "" {
      return Some(m);
    }
    var s := Split(tags, ',');
    for i := 0 to |s|
      invariant AddTags(s, map[]) == AddTags(s[i..], m)
    {
      var kv := Split(s[i], '=');
      if |kv| != 2 {
        return None;
      }
      var key := TrimSpace(kv[0]);
      if key == "" {
        return None;
      }
      m := m[key := TrimSpace(kv[1])];
    }
    return Some(m);
  }

  predicate Trimmed(s: string)
  {
    s == "" || (!IsSpace(s[0]) && !IsSpace(s[|s| - 1]))
  }

  /** A tag that can be written down: no separator in it, no outer white space, a key. */
  predicate PlainTag(tag: (string, string))
  {
    && tag.0 != "" && Trimmed(tag.0) && Trimmed(tag.1)
    && '=' !in tag.0 && '=' !in tag.1 && ',' !in tag.0 && ',' !in tag.1
  }

  function ShowTags(tags: seq<(string, string)>): seq<string>
  {
    if tags == [] then [] else [tags[0].0 + "=" + tags[0].1] + ShowTags(tags[1..])
  }

  function Collect(tags: seq<(string, string)>, m: map<string, string>): map<string, string>
  {
    if tags == [] then m else Collect(tags[1..], m[tags[0].0 := tags[0].1])
  }

  lemma {:induction false} ShownTagsParse(tags: seq<(string, string)>, m: map<string, string>)
    requires forall t | t in tags :: PlainTag(t)
    ensures AddTags(ShowTags(tags), m) == Some(Collect(tags, m))
    ensures forall s | s in ShowTags(tags) :: ',' !in s
  {
    if tags != [] {
      var t := tags[0];
      assert PlainTag(t);
      SplitAppend(t.0, t.1, '=');
      SplitAtom(t.0, '=');
      SplitAtom(t.1, '=');
      assert TagEntry(t.0 + "=" + t.1) == Some(t);
      ShownTagsParse(tags[1..], m[t.0 := t.1]);
      assert ShowTags(tags)[1..] == ShowTags(tags[1..]);
    }
  }

  /** Tags written as key=value pairs between commas are read back; a repeated key keeps its last value. */
  lemma TagsRoundTrip(tags: seq<(string, string)>)
    requires tags != [] && forall t | t in tags :: PlainTag(t)
    ensures ParseTags(Join(ShowTags(tags), ',')) == Some(Collect(tags, map[]))
  {
    ShownTagsParse(tags, map[]);
    SplitJoin(ShowTags(tags), ',');
    assert ShowTags(tags)[0] != "";
  }

  // ---- One parameter ----

  const DAYS: set<string> := {"Monday", "Tuesday", "Wednesday", "Thursday", "Friday", "Saturday", "Sunday"}

  predicate Digit(c: char, max: char)
  {
    '0' <= c <= max
  }

  /** The regular expression ^([01]?[0-9]|2[0-3]):[0-5][0-9]$ . */
  predicate IsTimeOfDay(s: string)
  {
    || (|s| == 4 && Digit(s[0], '9') && s[1] == ':' && Digit(s[2], '5') && Digit(s[3], '9'))
    || (|s| == 5 && ((Digit(s[0], '1') && Digit(s[1], '9')) || (s[0] == '2' && Digit(s[1], '3')))
        && s[2] == ':' && Digit(s[3], '5') && Digit(s[4], '9'))
  }

  /** The tags the driver sets itself. */
  datatype TagNames = TagNames(createdBy: string, pvcName: string, pvcNamespace: string, pvName: string)

  const TAGS := TagNames("k8s-azure-created-by",
                         "kubernetes.io-created-for-pvc-name",
                         "kubernetes.io-created-for-pvc-namespace",
                         "kubernetes.io-created-for-pv-name")
  const DRIVER := "kubernetes-azurelustre-csi-driver"

  predicate Distinct(n: TagNames)
  {
    && n.createdBy != n.pvcName && n.createdBy != n.pvcNamespace && n.createdBy != n.pvName
    && n.pvcName != n.pvcNamespace && n.pvcName != n.pvName && n.pvcNamespace != n.pvName
  }

  predicate Reserved(n: TagNames, tag: string)
  {
    tag == n.pvcName || tag == n.pvcNamespace || tag == n.pvName || tag == n.createdBy
  }

  lemma TagNamesAreDistinct()
    ensures Distinct(TAGS)
  {
    assert |TAGS.createdBy| == 20 && |TAGS.pvcName| == 34 && |TAGS.pvcNamespace| == 39 && |TAGS.pvName| == 33;
  }

  predicate AcceptableTags(v: string)
  {
    ParseTags(v).Some? && forall t | t in ParseTags(v).value :: !Reserved(TAGS, t)
  }

  /** Whether the parser knows the key and, for keys it checks, accepts the value. */
  predicate EntryOk(lowered: string, v: string)
  {
    match Classify(lowered)
    case None => false
    case Some(k) =>
      && !k.DynamicallyCreated? && !k.PodName? && !k.PodNamespace? && !k.PodUid? && !k.ServiceAccountName?
      && (k.MaintenanceDay? ==> v in DAYS)
      && (k.MaintenanceTime? ==> IsTimeOfDay(v))
      && (k.Tags? ==> AcceptableTags(v))
  }

  /** The assignment the parser makes for a key. */
  function Assign(p: Properties, k: Param, v: string): Properties
  {
    match k
    case ResourceGroupName => p.(resourceGroup := v)
    case Location => p.(location := v)
    case VnetName => p.(subnet := p.subnet.(vnetName := v))
    case VnetResourceGroup => p.(subnet := p.subnet.(vnetResourceGroup := v))
    case SubnetName => p.(subnet := p.subnet.(name := v))
    case MaintenanceDay => p.(maintenanceDay := v)
    case MaintenanceTime => p.(timeOfDay := v)
    case SkuName => p.(sku := v)
    case Zone => p.(zone := v)
    case Zones => p.(zone := v)
    case Identities => p.(identities := Some(Split(v, ',')))
    case _ => p.(tags := AssignTags(p.tags, k, v))
  }

  function AssignTags(tags: map<string, string>, k: Param, v: string): map<string, string>
  {
    match k
    case Tags => tags + (if ParseTags(v).Some? then ParseTags(v).value else map[])
    case PvcName => tags[TAGS.pvcName := v]
    case PvcNamespace => tags[TAGS.pvcNamespace := v]
    case PvName => tags[TAGS.pvName := v]
    case _ => tags
  }

  const INITIAL :=
    Properties("", "", "", map[TAGS.createdBy := DRIVER], None, Subnet("", "", "", ""), "", "", 0.0, "", "")

  // ---- The properties a folded map stands for ----

  function UserTags(f: map<string, string>): map<string, string>
  {
    match Lookup(f, Tags)
    case None => map[]
    case Some(v) => if ParseTags(v).Some? then ParseTags(v).value else map[]
  }

  /** What the driver and the metadata of the claim contribute. */
  datatype Metadata = Metadata(pvcName: Option<string>, pvcNamespace: Option<string>, pvName: Option<string>)

  function MetadataOf(f: map<string, string>): Metadata
  {
    Metadata(Lookup(f, PvcName), Lookup(f, PvcNamespace), Lookup(f, PvName))
  }

  function Entry(m: map<string, string>, t: string): Option<string>
  {
    if t in m then Some(m[t]) else None
  }

  /** The value a tag is to have. */
  function TagValue(n: TagNames, user: map<string, string>, d: Metadata, t: string): Option<string>
  {
    if t == n.createdBy then Some(DRIVER)
    else if t == n.pvcName then d.pvcName
    else if t == n.pvcNamespace then d.pvcNamespace
    else if t == n.pvName then d.pvName
    else Entry(user, t)
  }

  ghost predicate TagsAre(n: TagNames, user: map<string, string>, d: Metadata, tags: map<string, string>)
  {
    forall t :: Entry(tags, t) == TagValue(n, user, d, t)
  }

  /** All properties but the tags and the zone. */
  function PropertiesOf(f: map<string, string>): Properties
  {
    Properties(
      ValueOf(f, ResourceGroupName), "", ValueOf(f, Location),
      map[],
      match Lookup(f, Identities) case None => None case Some(v) => Some(Split(v, ',')),
      Subnet("", ValueOf(f, VnetName), ValueOf(f, VnetResourceGroup), ValueOf(f, SubnetName)),
      ValueOf(f, MaintenanceDay), ValueOf(f, MaintenanceTime), 0.0, ValueOf(f, SkuName), "")
  }

  /** The zone is the value of zone or of zones, whichever the loop met last. */
  predicate ZoneFrom(f: map<string, string>, zone: string)
  {
    match (Lookup(f, Zone), Lookup(f, Zones))
    case (None, None) => zone == ""
    case (Some(a), None) => zone == a
    case (None, Some(b)) => zone == b
    case (Some(a), Some(b)) => zone == a || zone == b
  }

  ghost predicate Describes(f: map<string, string>, p: Properties)
  {
    && p.(zone := "", tags := map[]) == PropertiesOf(f)
    && ZoneFrom(f, p.zone)
    && TagsAre(TAGS, UserTags(f), MetadataOf(f), p.tags)
  }

  lemma MetadataLater(n: TagNames, user: map<string, string>, d: Metadata, tags: map<string, string>, v: string)
    requires Distinct(n) && TagsAre(n, user, d, tags)
    ensures TagsAre(n, user, d.(pvcName := Some(v)), tags[n.pvcName := v])
    ensures TagsAre(n, user, d.(pvcNamespace := Some(v)), tags[n.pvcNamespace := v])
    ensures TagsAre(n, user, d.(pvName := Some(v)), tags[n.pvName := v])
  {
    forall t
      ensures Entry(tags[n.pvcName := v], t) == TagValue(n, user, d.(pvcName := Some(v)), t)
      ensures Entry(tags[n.pvcNamespace := v], t) == TagValue(n, user, d.(pvcNamespace := Some(v)), t)
      ensures Entry(tags[n.pvName := v], t) == TagValue(n, user, d.(pvName := Some(v)), t)
    {
      assert Entry(tags, t) == TagValue(n, user, d, t);
    }
  }

  lemma UserLater(n: TagNames, user: map<string, string>, d: Metadata, tags: map<string, string>)
    requires TagsAre(n, map[], d, tags)
    requires forall t | t in user :: !Reserved(n, t)
    ensures TagsAre(n, user, d, tags + user)
  {
    forall t ensures Entry(tags + user, t) == TagValue(n, user, d, t) {
      assert Entry(tags, t) == TagValue(n, map[], d, t);
    }
  }

  /** One more parameter, wherever it comes in the order, is accounted for by one assignment. */
  lemma AssignStep(f: map<string, string>, p: Properties, k: Param, v: string)
    requires Describes(f, p) && KeyText(k) !in f
    requires k.Tags? ==> AcceptableTags(v)
    ensures Describes(f[KeyText(k) := v], Assign(p, k, v))
  {
    var g := f[KeyText(k) := v];
    LookupsAfterUpdate(f, k, v);
    TagsStep(f, g, p, k, v);
    ZoneStep(f, g, p, k, v);
    FieldsStep(f, g, p, k, v);
    hide KeyText, Lookup, ValueOf, AcceptableTags, ParseTags, TagsAre, PropertiesOf, ZoneFrom, Assign, UserTags,
         MetadataOf;
  }

  ghost predicate OneMore(f: map<string, string>, g: map<string, string>, k: Param, v: string)
  {
    && Lookup(f, k) == None && ValueOf(f, k) == ""
    && (forall j :: Lookup(g, j) == if j == k then Some(v) else Lookup(f, j))
    && (forall j :: ValueOf(g, j) == if j == k then v else ValueOf(f, j))
  }

  lemma LookupsAfterUpdate(f: map<string, string>, k: Param, v: string)
    requires KeyText(k) !in f
    ensures OneMore(f, f[KeyText(k) := v], k, v)
  {
    hide KeyText;
    assert Lookup(f, k) == None && ValueOf(f, k) == "";
    hide Lookup, ValueOf;
    var g := f[KeyText(k) := v];
    forall j
      ensures Lookup(g, j) == if j == k then Some(v) else Lookup(f, j)
      ensures ValueOf(g, j) == if j == k then v else ValueOf(f, j)
    {
      LookupAfterUpdate(f, k, v, j);
    }
  }

  lemma FieldsStep(f: map<string, string>, g: map<string, string>, p: Properties, k: Param, v: string)
    requires OneMore(f, g, k, v) && p.(zone := "", tags := map[]) == PropertiesOf(f)
    ensures Assign(p, k, v).(zone := "", tags := map[]) == PropertiesOf(g)
  {
    SubnetStep(f, g, p, k, v);
    PlaceStep(f, g, p, k, v);
    MaintenanceStep(f, g, p, k, v);
    hide Assign, OneMore, ValueOf, Lookup, Split;
  }

  /** What the map says about one key, before and after. */
  lemma ReadOneMore(f: map<string, string>, g: map<string, string>, k: Param, v: string, j: Param)
    requires OneMore(f, g, k, v)
    ensures ValueOf(g, j) == (if j == k then v else ValueOf(f, j)) && ValueOf(f, k) == ""
    ensures Lookup(g, j) == (if j == k then Some(v) else Lookup(f, j)) && Lookup(f, k) == None
  {
    hide KeyText, Lookup, ValueOf;
  }

  lemma SubnetStep(f: map<string, string>, g: map<string, string>, p: Properties, k: Param, v: string)
    requires OneMore(f, g, k, v) && p.subnet == PropertiesOf(f).subnet
    ensures Assign(p, k, v).subnet == PropertiesOf(g).subnet
  {
    hide KeyText, Lookup, ValueOf, AssignTags, Split, OneMore;
    ReadOneMore(f, g, k, v, VnetName);
    ReadOneMore(f, g, k, v, VnetResourceGroup);
    ReadOneMore(f, g, k, v, SubnetName);
  }

  lemma PlaceStep(f: map<string, string>, g: map<string, string>, p: Properties, k: Param, v: string)
    requires OneMore(f, g, k, v) && p.(zone := "", tags := map[]) == PropertiesOf(f)
    ensures var q, want := Assign(p, k, v), PropertiesOf(g);
            q.resourceGroup == want.resourceGroup && q.location == want.location && q.identities == want.identities
  {
    hide KeyText, Lookup, ValueOf, AssignTags, Split, OneMore;
    ReadOneMore(f, g, k, v, ResourceGroupName);
    ReadOneMore(f, g, k, v, Location);
    ReadOneMore(f, g, k, v, Identities);
  }

  lemma MaintenanceStep(f: map<string, string>, g: map<string, string>, p: Properties, k: Param, v: string)
    requires OneMore(f, g, k, v) && p.(zone := "", tags := map[]) == PropertiesOf(f)
    ensures var q, want := Assign(p, k, v), PropertiesOf(g);
            && q.maintenanceDay == want.maintenanceDay && q.timeOfDay == want.timeOfDay && q.sku == want.sku
            && q.name == want.name && q.capacityTiB == want.capacityTiB
  {
    hide KeyText, Lookup, ValueOf, AssignTags, Split, OneMore;
    ReadOneMore(f, g, k, v, MaintenanceDay);
    ReadOneMore(f, g, k, v, MaintenanceTime);
    ReadOneMore(f, g, k, v, SkuName);
  }

  lemma ZoneStep(f: map<string, string>, g: map<string, string>, p: Properties, k: Param, v: string)
    requires OneMore(f, g, k, v) && ZoneFrom(f, p.zone)
    ensures ZoneFrom(g, Assign(p, k, v).zone)
  {
    hide KeyText, Lookup, ValueOf, AssignTags, Split;
  }

  lemma AssignedTags(p: Properties, k: Param, v: string)
    ensures Assign(p, k, v).tags == AssignTags(p.tags, k, v)
  {
    hide ParseTags, Split, TAGS;
  }

  lemma TagsStep(f: map<string, string>, g: map<string, string>, p: Properties, k: Param, v: string)
    requires OneMore(f, g, k, v)
    requires k.Tags? ==> AcceptableTags(v)
    requires TagsAre(TAGS, UserTags(f), MetadataOf(f), p.tags)
    ensures TagsAre(TAGS, UserTags(g), MetadataOf(g), Assign(p, k, v).tags)
  {
    hide KeyText, Lookup, ParseTags, TagsAre, Distinct, TagValue, TAGS, OneMore, Assign;
    AssignedTags(p, k, v);
    ReadOneMore(f, g, k, v, Tags);
    ReadOneMore(f, g, k, v, PvcName);
    ReadOneMore(f, g, k, v, PvcNamespace);
    ReadOneMore(f, g, k, v, PvName);
    if k.Tags? {
      UserLater(TAGS, UserTags(g), MetadataOf(f), p.tags);
    } else {
      assert UserTags(g) == UserTags(f);
      TagNamesAreDistinct();
      hide UserTags, AcceptableTags;
      MetadataLater(TAGS, UserTags(f), MetadataOf(f), p.tags, v);
    }
  }

  /** Keys the parser does not list, among those the driver knows. */
  predicate Unlisted(k: Param)
  {
    k.DynamicallyCreated? || k.PodName? || k.PodNamespace? || k.PodUid? || k.ServiceAccountName?
  }

  predicate Acceptable(m: map<string, string>)
  {
    forall s | s in m :: EntryOk(Lower(s), m[s])
  }

  /** What must be given when no address is: the cluster has to be created. */
  predicate Complete(f: map<string, string>)
  {
    Lookup(f, MgsIpAddress).None? ==>
      ValueOf(f, MaintenanceDay) != "" && ValueOf(f, SkuName) != "" && ValueOf(f, MaintenanceTime) != ""
  }

  lemma InitialDescribes()
    ensures Describes(Folded(map[]), INITIAL)
  {
    var f: map<string, string> := Folded(map[]);
    assert f == map[];
    InitialFields();
    InitialTags(TAGS);
    hide KeyText, Lookup, ValueOf, TagsAre, Folded, PropertiesOf, UserTags, MetadataOf, ZoneFrom;
    assert INITIAL.zone == "" && INITIAL.tags == map[TAGS.createdBy := DRIVER];
  }

  lemma InitialFields()
    ensures INITIAL.(zone := "", tags := map[]) == PropertiesOf(map[])
    ensures ZoneFrom(map[], "") && UserTags(map[]) == map[] && MetadataOf(map[]) == Metadata(None, None, None)
  {
    NothingLookedUp();
    hide KeyText, Lookup, ValueOf, Split, ParseTags;
    assert PropertiesOf(map[]) == Properties("", "", "", map[], None, Subnet("", "", "", ""), "", "", 0.0, "", "");
  }

  lemma NothingLookedUp()
    ensures forall j :: Lookup(map[], j) == None && ValueOf(map[], j) == ""
  {
    hide KeyText;
  }

  lemma InitialTags(n: TagNames)
    ensures TagsAre(n, map[], Metadata(None, None, None), map[n.createdBy := DRIVER])
  {
  }

  /** A day that is none is refused only if no day has been set before, as another spelling of the key can have. */
  predicate KeepsEarlierDay(p: Properties, k: Param, v: string)
  {
    k.MaintenanceDay? && v !in DAYS && p.maintenanceDay != ""
  }

  /** The check and the assignment the switch makes for one entry: nothing when the value is refused. */
  method ParseEntry(p: Properties, k: Param, v: string) returns (r: Option<Properties>)
    requires !Unlisted(k)
    ensures r == if KeepsEarlierDay(p, k, v) then Some(p)
                 else if EntryOk(KeyText(k), v) then Some(Assign(p, k, v)) else None
  {
    assert Classify(KeyText(k)) == Some(k);
    hide KeyText, Split, TrimSpace, IsTimeOfDay;
    if k.MaintenanceDay? {
      var q := if v in DAYS then Assign(p, k, v) else p;
      if q.maintenanceDay == "" {
        return None;
      }
      return Some(q);
    }
    if k.MaintenanceTime? && !IsTimeOfDay(v) {
      return None;
    }
    if k.Tags? {
      var tags := ConvertTagsToMap(v);
      if tags.None? || exists t | t in tags.value :: Reserved(TAGS, t) {
        return None;
      }
    }
    return Some(Assign(p, k, v));
  }

  // ---- The loop, for one iteration order ----

  /** The properties after one more parameter, if it is not refused. */
  function AssignOne(p: Properties, s: string, v: string): Option<Properties>
  {
    match Classify(Lower(s))
    case None => None
    case Some(k) =>
      if KeepsEarlierDay(p, k, v) then Some(p)
      else if EntryOk(Lower(s), v) then Some(Assign(p, k, v))
      else None
  }

  /** The properties after the parameters in order, if none of them is refused. */
  function AssignAll(m: map<string, string>, order: seq<string>): Option<Properties>
    requires forall s | s in order :: s in m
  {
    if order == [] then Some(INITIAL)
    else
      var n := |order| - 1;
      match AssignAll(m, order[..n])
      case None => None
      case Some(p) => AssignOne(p, order[n], m[order[n]])
  }

  predicate GivesAddress(order: seq<string>)
  {
    exists s | s in order :: Classify(Lower(s)) == Some(MgsIpAddress)
  }

  predicate Missing(p: Properties)
  {
    p.maintenanceDay == "" || p.sku == "" || p.timeOfDay == ""
  }

  /** What the parser returns when it meets the parameters in this order. */
  function ParseInOrder(m: map<string, string>, order: seq<string>): Result<Properties>
    requires forall s | s in order :: s in m
  {
    match AssignAll(m, order)
    case None => Err(INVALID)
    case Some(p) => if !GivesAddress(order) && Missing(p) then Err(INVALID) else Ok(p)
  }

  /** What the parser can return. */
  ghost predicate CanParse(m: map<string, string>, r: Result<Properties>)
  {
    exists order :: IsOrder(m, order) && r == ParseInOrder(m, order)
  }

  lemma AssignOneMore(m: map<string, string>, order: seq<string>, s: string)
    requires s in m && forall x | x in order :: x in m
    ensures AssignAll(m, order + [s]) ==
            match AssignAll(m, order) case None => None case Some(p) => AssignOne(p, s, m[s])
  {
    hide AssignOne;
    assert (order + [s])[..|order|] == order;
  }

  /** Once a parameter is refused, the parse fails whatever follows. */
  lemma {:induction false} RefusedForGood(m: map<string, string>, order: seq<string>, rest: seq<string>)
    requires (forall x | x in order :: x in m) && (forall x | x in rest :: x in m) && AssignAll(m, order) == None
    ensures AssignAll(m, order + rest) == None
    decreases |rest|
  {
    hide AssignAll;
    if rest == [] {
      assert order + rest == order;
    } else {
      var n := |rest| - 1;
      RefusedForGood(m, order, rest[..n]);
      AssignOneMore(m, order + rest[..n], rest[n]);
      assert order + rest == order + rest[..n] + [rest[n]];
    }
  }

  /** One round of the loop: the value is refused, the key is not listed, or the assignment is made. */
  datatype Parsed = Refused | NotListed | Accepted(properties: Properties, isAddress: bool)

  lemma AddressIsAccepted(v: string)
    ensures EntryOk(KeyText(MgsIpAddress), v)
  {
    assert Classify(KeyText(MgsIpAddress)) == Some(MgsIpAddress);
    hide KeyText;
  }

  method ParseParameter(p: Properties, s: string, v: string) returns (r: Parsed)
    ensures AssignOne(p, s, v) == if r.Accepted? then Some(r.properties) else None
    ensures (r.Accepted? && r.isAddress) <==> Classify(Lower(s)) == Some(MgsIpAddress)
  {
    AddressIsAccepted(v);
    hide KeyText, Lower, Assign, EntryOk;
    match Classify(Lower(s)) {
      case None =>
        return NotListed;
      case Some(k) =>
        assert Lower(s) == KeyText(k);
        if Unlisted(k) {
          UnlistedIsRefused(k, v);
          return NotListed;
        }
        var next := ParseEntry(p, k, v);
        if next.None? {
          return Refused;
        }
        return Accepted(next.value, k == MgsIpAddress);
    }
  }

  /** What the loop knows after the parameters in order. */
  ghost predicate Parsing(m: map<string, string>, left: set<string>, order: seq<string>, p: Properties, create: bool,
                          failed: bool)
  {
    && left <= m.Keys && (forall s :: s in order <==> s in m.Keys - left) && IsPartialOrder(m, order)
    && AssignAll(m, order) == (if failed then None else Some(p))
    && (!failed ==> (create <==> !GivesAddress(order)))
  }

  lemma ParsingStep(m: map<string, string>, left: set<string>, order: seq<string>, p: Properties, create: bool,
                    failed: bool, s: string)
    requires Parsing(m, left, order, p, create, failed) && s in left
    ensures var next := AssignOne(p, s, m[s]);
            Parsing(m, left - {s}, order + [s], if next.Some? then next.value else p,
                    create && Classify(Lower(s)) != Some(MgsIpAddress), failed || next.None?)
  {
    hide AssignAll, AssignOne, GivesAddress, Classify, Lower;
    AssignOneMore(m, order, s);
    AddressOneMore(order, s);
    var all := order + [s];
    assert forall x :: x in all <==> x in order || x == s;
    assert forall i | 0 <= i < |order| :: all[i] == order[i] && order[i] in order;
  }

  lemma ParsingStarts(m: map<string, string>)
    ensures Parsing(m, m.Keys, [], INITIAL, true, false)
  {
    hide Classify, Lower;
  }

  /** parseAmlFilesystemProperties. The loop takes the parameters in an arbitrary order. For fold-distinct keys all
      orders succeed with properties the map describes, or all fail with InvalidArgument. */
  method ParseAmlFilesystemProperties(m: map<string, string>) returns (r: Result<Properties>)
    ensures CanParse(m, r)
    ensures FoldDistinct(m) ==> (r.Ok? <==> Acceptable(m) && Complete(Folded(m)))
    ensures FoldDistinct(m) && r.Ok? ==> Describes(Folded(m), r.value)
    ensures r.Err? ==> r.error == INVALID
  {
    hide Parsing, CanParse, FoldDistinct, Folded, Acceptable, Complete, Describes, AssignOne, Classify, Lower;
    var p, create, errorParameters, left := INITIAL, true, [], m.Keys;
    ghost var order: seq<string> := [];
    ParsingStarts(m);
    while left != {}
      invariant Parsing(m, left, order, p, create, errorParameters != []) && left <= m.Keys
      decreases left
    {
      var s :| s in left;
      var one := ParseParameter(p, s, m[s]);
      ParsingStep(m, left, order, p, create, errorParameters != [], s);
      left, order := left - {s}, order + [s];
      match one {
        case Refused =>
          RefusedResult(m, left, order, p, create);
          return Err(INVALID);
        case NotListed =>
          errorParameters := errorParameters + [s];
        case Accepted(next, isAddress) =>
          p := next;
          if isAddress {
            create := false;
          }
      }
    }
    if errorParameters != [] {
      RefusedResult(m, left, order, p, create);
      return Err(INVALID);
    }
    CompleteResult(m, order, p, create);
    if create && (p.maintenanceDay == "" || p.sku == "" || p.timeOfDay == "") {
      return Err(INVALID);
    }
    return Ok(p);
  }

  lemma AddressOneMore(order: seq<string>, s: string)
    ensures GivesAddress(order + [s]) <==> GivesAddress(order) || Classify(Lower(s)) == Some(MgsIpAddress)
  {
    hide Classify, Lower;
    var all := order + [s];
    assert forall x :: x in all <==> x in order || x == s;
  }

  /** What the parser promises of a result. */
  ghost predicate Promised(m: map<string, string>, r: Result<Properties>)
  {
    && CanParse(m, r) && (FoldDistinct(m) ==> (r.Ok? <==> Acceptable(m) && Complete(Folded(m))))
    && (FoldDistinct(m) && r.Ok? ==> Describes(Folded(m), r.value))
  }

  lemma RefusedResult(m: map<string, string>, left: set<string>, order: seq<string>, p: Properties, create: bool)
    requires Parsing(m, left, order, p, create, true)
    ensures Promised(m, Err(INVALID))
  {
    hide AssignAll, FoldDistinct, Folded, Acceptable, Complete, Describes;
    var rest := CompleteOrder(m, left, order);
    assert forall s | s in rest :: s in order + rest;
    RefusedForGood(m, order, rest);
    ParsedResult(m, order + rest);
  }

  lemma CompleteResult(m: map<string, string>, order: seq<string>, p: Properties, create: bool)
    requires Parsing(m, {}, order, p, create, false)
    ensures Promised(m, if create && Missing(p) then Err(INVALID) else Ok(p))
  {
    hide AssignAll, FoldDistinct, Folded, Acceptable, Complete, Describes, GivesAddress;
    ParsedResult(m, order);
  }

  lemma ParsedResult(m: map<string, string>, order: seq<string>)
    requires IsOrder(m, order)
    ensures CanParse(m, ParseInOrder(m, order))
    ensures FoldDistinct(m) ==> (ParseInOrder(m, order).Ok? <==> Acceptable(m) && Complete(Folded(m)))
    ensures FoldDistinct(m) && ParseInOrder(m, order).Ok? ==> Describes(Folded(m), ParseInOrder(m, order).value)
  {
    hide Classify, Lower, EntryOk, Describes, FoldDistinct, Folded, AssignAll, GivesAddress, ValueOf, KeyText, Lookup;
    if FoldDistinct(m) {
      OrderDescribes(m, order);
      assert Done(m, order) == m;
      AddressGiven(m, order);
      if AssignAll(m, order).Some? {
        DescribedFields(Folded(m), AssignAll(m, order).value);
      }
    }
  }

  lemma AddressGiven(m: map<string, string>, order: seq<string>)
    requires IsOrder(m, order) && FoldDistinct(m)
    ensures GivesAddress(order) <==> Lookup(Folded(m), MgsIpAddress).Some?
  {
    hide Lower, KeyText, FoldDistinct, Folded;
    FoldedMember(m, KeyText(MgsIpAddress));
  }

  /** The part of the map the loop has seen. */
  ghost function Done(m: map<string, string>, order: seq<string>): map<string, string>
  {
    Seen(m, m.Keys - set s | s in order)
  }

  /** After the parameters in order, the properties are those that part of the map describes. */
  lemma {:induction false} OrderDescribes(m: map<string, string>, order: seq<string>)
    requires FoldDistinct(m) && IsPartialOrder(m, order)
    ensures AssignAll(m, order).Some? <==> forall s | s in order :: EntryOk(Lower(s), m[s])
    ensures FoldDistinct(Done(m, order))
    ensures AssignAll(m, order).Some? ==> Describes(Folded(Done(m, order)), AssignAll(m, order).value)
  {
    if order == [] {
      assert AssignAll(m, order) == Some(INITIAL);
      assert Done(m, order) == map[];
      NothingFolded();
      InitialDescribes();
    } else {
      hide Classify, Lower, EntryOk, Describes, FoldDistinct, Folded, AssignAll, Done;
      var n := |order| - 1;
      var before, s := order[..n], order[n];
      assert order == before + [s];
      OrderDescribes(m, before);
      DescribeOneMore(m, before, s);
    }
  }

  lemma DoneOneMore(m: map<string, string>, before: seq<string>, s: string)
    requires FoldDistinct(m) && IsPartialOrder(m, before + [s])
    ensures FoldDistinct(Done(m, before)) && FoldDistinct(Done(m, before + [s]))
    ensures Folded(Done(m, before + [s])) == Folded(Done(m, before))[Lower(s) := m[s]]
    ensures Lower(s) !in Folded(Done(m, before))
  {
    hide FoldDistinct, Folded, Lower;
    var all := before + [s];
    assert all[|before|] == s;
    forall i | 0 <= i < |before| ensures before[i] != s {
      assert all[i] == before[i];
    }
    var left := m.Keys - set x | x in before;
    assert left - {s} == m.Keys - set x | x in all;
    SeeOneMore(m, left, s);
  }

  lemma DescribeOneMore(m: map<string, string>, before: seq<string>, s: string)
    requires FoldDistinct(m) && IsPartialOrder(m, before + [s]) && FoldDistinct(Done(m, before))
    requires forall x | x in before :: x in m
    requires AssignAll(m, before).Some? ==> Describes(Folded(Done(m, before)), AssignAll(m, before).value)
    ensures FoldDistinct(Done(m, before + [s]))
    ensures AssignAll(m, before + [s]).Some? <==> AssignAll(m, before).Some? && EntryOk(Lower(s), m[s])
    ensures AssignAll(m, before + [s]).Some? ==>
              Describes(Folded(Done(m, before + [s])), AssignAll(m, before + [s]).value)
  {
    hide FoldDistinct, Folded, Describes, Lower, EntryOk, Assign, AssignAll, KeyText, Done;
    assert s in before + [s];
    DoneOneMore(m, before, s);
    AssignOneMore(m, before, s);
    if AssignAll(m, before).Some? {
      DescribeStep(Folded(Done(m, before)), AssignAll(m, before).value, s, m[s]);
    }
  }

  lemma DescribeStep(f: map<string, string>, p: Properties, s: string, v: string)
    requires Describes(f, p) && Lower(s) !in f
    ensures AssignOne(p, s, v).Some? <==> EntryOk(Lower(s), v)
    ensures AssignOne(p, s, v).Some? ==> Describes(f[Lower(s) := v], AssignOne(p, s, v).value)
  {
    DescribedFields(f, p);
    hide Describes, Lower, EntryOk, Assign, KeyText, Lookup;
    match Classify(Lower(s))
    case None => UnknownIsRefused(Lower(s), v);
    case Some(k) =>
      assert k.MaintenanceDay? ==> p.maintenanceDay == "";
      if EntryOk(Lower(s), v) {
        AcceptedTags(k, v);
        AssignStep(f, p, k, v);
      }
  }

  lemma NothingFolded()
    ensures FoldDistinct(map[])
    ensures Lookup(Folded(map[]), MgsIpAddress).None?
  {
    assert Folded(map[]) == map[];
  }

  lemma UnknownIsRefused(x: string, v: string)
    requires Classify(x) == None
    ensures !EntryOk(x, v)
  {
    hide KeyText, Lower;
  }

  lemma UnlistedIsRefused(k: Param, v: string)
    requires Unlisted(k)
    ensures !EntryOk(KeyText(k), v)
  {
    assert Classify(KeyText(k)) == Some(k);
    hide KeyText;
  }

  lemma AcceptedTags(k: Param, v: string)
    requires EntryOk(KeyText(k), v)
    ensures k.Tags? ==> AcceptableTags(v)
  {
    assert Classify(KeyText(k)) == Some(k);
    hide KeyText, AcceptableTags;
  }

  lemma DescribedFields(f: map<string, string>, p: Properties)
    requires Describes(f, p)
    ensures p.maintenanceDay == ValueOf(f, MaintenanceDay) && p.sku == ValueOf(f, SkuName)
    ensures p.timeOfDay == ValueOf(f, MaintenanceTime) && p.resourceGroup == ValueOf(f, ResourceGroupName)
    ensures p.location == ValueOf(f, Location) && p.name == ""
  {
    hide KeyText, ValueOf, Lookup;
    var q := p.(zone := "", tags := map[]);
  }

  /** Both zone and zones are given, with different values. */
  predicate TwoZones(f: map<string, string>)
  {
    Lookup(f, Zone).Some? && Lookup(f, Zones).Some? && Lookup(f, Zone) != Lookup(f, Zones)
  }

  /** Two results for the same parameters are equal but for the zone, and equal unless two zones are given. */
  lemma ParsingIsDetermined(f: map<string, string>, p: Properties, q: Properties)
    requires Describes(f, p) && Describes(f, q)
    ensures p.(zone := "") == q.(zone := "") && (!TwoZones(f) ==> p == q)
  {
    hide KeyText, Lookup, UserTags, MetadataOf, PropertiesOf;
    assert p.(zone := "", tags := map[]) == q.(zone := "", tags := map[]);
    SameTags(UserTags(f), MetadataOf(f), p.tags, q.tags);
    assert p.(zone := "") == (p.(zone := "", tags := map[])).(tags := p.tags);
  }

  /** If the parameters pass, there is an order in which a given zone or zones entry comes last, and its value is
      the zone. */
  lemma LaterZoneWins(m: map<string, string>, s: string, t: string) returns (order: seq<string>)
    requires FoldDistinct(m) && Acceptable(m) && Complete(Folded(m)) && s in m && t in m && s != t
    requires Classify(Lower(t)) == Some(Zone) || Classify(Lower(t)) == Some(Zones)
    ensures IsOrder(m, order) && ParseInOrder(m, order).Ok? && ParseInOrder(m, order).value.zone == m[t]
  {
    hide FoldDistinct, Folded, Classify, Lower, Complete, Describes, AssignAll, Acceptable;
    var first := OrderEndingIn(m, s, t);
    order := first + [s, t];
    assert order == first + [s] + [t];
    assert forall x | x in first + [s] :: x in order;
    ParsedResult(m, order);
    ZoneLast(m, first + [s], t);
  }

  lemma ZoneLast(m: map<string, string>, order: seq<string>, t: string)
    requires t in m && (forall x | x in order :: x in m) && AssignAll(m, order + [t]).Some?
    requires Classify(Lower(t)) == Some(Zone) || Classify(Lower(t)) == Some(Zones)
    ensures AssignAll(m, order + [t]).value.zone == m[t]
  {
    hide Classify, Lower, EntryOk, AssignAll, TAGS, ParseTags, Split;
    AssignOneMore(m, order, t);
  }

  /** The order of the parameters shows in the result exactly when they pass and two different zones are given. */
  lemma OrderShowsIff(m: map<string, string>)
    requires FoldDistinct(m)
    ensures (exists a, b :: IsOrder(m, a) && IsOrder(m, b) && ParseInOrder(m, a) != ParseInOrder(m, b)) <==>
            Acceptable(m) && Complete(Folded(m)) && TwoZones(Folded(m))
  {
    hide Classify, Lower, EntryOk, Complete, Describes, Folded, FoldDistinct, KeyText, AssignAll, Acceptable;
    if a, b :| IsOrder(m, a) && IsOrder(m, b) && ParseInOrder(m, a) != ParseInOrder(m, b) {
      ParsedResult(m, a);
      ParsedResult(m, b);
      if ParseInOrder(m, a).Ok? {
        ParsingIsDetermined(Folded(m), ParseInOrder(m, a).value, ParseInOrder(m, b).value);
      }
    }
    if Acceptable(m) && Complete(Folded(m)) && TwoZones(Folded(m)) {
      var s := KeyIn(m, Zone);
      var t := KeyIn(m, Zones);
      var a := LaterZoneWins(m, s, t);
      var b := LaterZoneWins(m, t, s);
    }
  }

  lemma KeyIn(m: map<string, string>, k: Param) returns (s: string)
    requires FoldDistinct(m) && Lookup(Folded(m), k).Some?
    ensures s in m && Classify(Lower(s)) == Some(k) && Lookup(Folded(m), k) == Some(m[s])
  {
    hide Lower, Folded, FoldDistinct, KeyText;
    FoldedMember(m, KeyText(k));
    s :| s in m && Lower(s) == KeyText(k);
  }

  /** Such parameters: a new cluster with the zones "1" and "2". */
  function TwoZoneParameters(): map<string, string>
  {
    map[KeyText(MaintenanceDay) := "Monday", KeyText(MaintenanceTime) := "1:00", KeyText(SkuName) := "sku",
        KeyText(Zone) := "1", KeyText(Zones) := "2"]
  }

  lemma ZoneDependsOnOrder()
    ensures var m := TwoZoneParameters();
            && FoldDistinct(m)
            && (exists a :: IsOrder(m, a) && ParseInOrder(m, a).Ok? && ParseInOrder(m, a).value.zone == "1")
            && (exists b :: IsOrder(m, b) && ParseInOrder(m, b).Ok? && ParseInOrder(m, b).value.zone == "2")
  {
    hide TwoZoneParameters, KeyText, Lower, Folded, FoldDistinct, Classify, Complete, Acceptable, AssignAll, Lookup,
         ValueOf;
    var m := TwoZoneParameters();
    ExampleEntries();
    ExampleIsLower();
    LoweredMap(m);
    ExamplePasses();
    var a := LaterZoneWins(m, KeyText(Zones), KeyText(Zone));
    var b := LaterZoneWins(m, KeyText(Zone), KeyText(Zones));
  }

  lemma ExampleEntries()
    ensures var m := TwoZoneParameters();
            && Lookup(m, MaintenanceDay) == Some("Monday") && Lookup(m, MaintenanceTime) == Some("1:00")
            && Lookup(m, SkuName) == Some("sku") && Lookup(m, Zone) == Some("1") && Lookup(m, Zones) == Some("2")
            && KeyText(Zone) in m && KeyText(Zones) in m && m[KeyText(Zone)] == "1" && m[KeyText(Zones)] == "2"
            && KeyText(Zone) != KeyText(Zones)
            && ValueOf(m, MaintenanceDay) == "Monday" && ValueOf(m, MaintenanceTime) == "1:00"
            && ValueOf(m, SkuName) == "sku"
  {
    hide KeyText;
    forall j, k | KeyText(j) == KeyText(k) ensures j == k { KeysAreDistinct(j, k); }
  }

  lemma ExampleIsLower()
    ensures forall s | s in TwoZoneParameters() :: Lower(s) == s
    ensures Classify(Lower(KeyText(Zone))) == Some(Zone) && Classify(Lower(KeyText(Zones))) == Some(Zones)
  {
    KeysAreLower(MaintenanceDay);
    KeysAreLower(MaintenanceTime);
    KeysAreLower(SkuName);
    KeysAreLower(Zone);
    KeysAreLower(Zones);
    hide KeyText, Lower;
  }

  lemma ExamplePasses()
    ensures Acceptable(TwoZoneParameters()) && Complete(TwoZoneParameters())
  {
    hide Lower, KeyText, EntryOk, ValueOf, Classify, LowerChar;
    ExampleIsLower();
    ExampleEntries();
    ClassifiedOk(MaintenanceDay, "Monday");
    ClassifiedOk(MaintenanceTime, "1:00");
    ClassifiedOk(SkuName, "sku");
    ClassifiedOk(Zone, "1");
    ClassifiedOk(Zones, "2");
  }

  lemma ClassifiedOk(k: Param, v: string)
    requires k in {MaintenanceDay, MaintenanceTime, SkuName, Zone, Zones}
    requires (k.MaintenanceDay? ==> v in DAYS) && (k.MaintenanceTime? ==> IsTimeOfDay(v))
    ensures EntryOk(KeyText(k), v)
  {
    hide KeyText, IsTimeOfDay;
    assert Classify(KeyText(k)) == Some(k);
  }

  lemma SameTags(user: map<string, string>, d: Metadata, a: map<string, string>, b: map<string, string>)
    requires TagsAre(TAGS, user, d, a) && TagsAre(TAGS, user, d, b)
    ensures a == b
  {
    forall t ensures Entry(a, t) == Entry(b, t) {
      assert Entry(a, t) == TagValue(TAGS, user, d, t) == Entry(b, t);
    }
    SameEntries(a, b);
  }

  lemma SameEntries(a: map<string, string>, b: map<string, string>)
    requires forall t :: Entry(a, t) == Entry(b, t)
    ensures a == b
  {
    forall t ensures (t in a <==> t in b) && (t in a ==> a[t] == b[t]) {
      assert Entry(a, t) == Entry(b, t);
    }
  }

  /** On success the tags are the disjoint union of the driver's own tag, the user's tags and the tags of
      claim and volume; the driver's tag always has the driver's value. */
  lemma TagsAreADisjointUnion(m: map<string, string>, p: Properties)
    requires FoldDistinct(m) && Acceptable(m) && Describes(Folded(m), p)
    ensures var f := Folded(m);
            var own := map[TAGS.createdBy := DRIVER];
            var metadata := Given(TAGS.pvcName, Lookup(f, PvcName)) + Given(TAGS.pvcNamespace, Lookup(f, PvcNamespace))
                            + Given(TAGS.pvName, Lookup(f, PvName));
            && p.tags == own + UserTags(f) + metadata
            && own.Keys !! UserTags(f).Keys !! metadata.Keys
            && p.tags[TAGS.createdBy] == DRIVER
  {
    var f := Folded(m);
    TagNamesAreDistinct();
    assert forall t | t in UserTags(f) :: !Reserved(TAGS, t) by { UserTagsAreFree(m); }
    hide KeyText, Lookup, ParseTags;
    var d := MetadataOf(f);
    var metadata := Given(TAGS.pvcName, d.pvcName) + Given(TAGS.pvcNamespace, d.pvcNamespace)
                    + Given(TAGS.pvName, d.pvName);
    UnionOfTags(TAGS, UserTags(f), d, p.tags);
  }

  function Given(name: string, v: Option<string>): map<string, string>
  {
    match v
    case None => map[]
    case Some(value) => map[name := value]
  }

  lemma UnionOfTags(n: TagNames, user: map<string, string>, d: Metadata, tags: map<string, string>)
    requires Distinct(n) && TagsAre(n, user, d, tags)
    requires forall t | t in user :: !Reserved(n, t)
    ensures var own := map[n.createdBy := DRIVER];
            var metadata := Given(n.pvcName, d.pvcName) + Given(n.pvcNamespace, d.pvcNamespace)
                            + Given(n.pvName, d.pvName);
            tags == own + user + metadata && own.Keys !! user.Keys !! metadata.Keys && tags[n.createdBy] == DRIVER
  {
    var own := map[n.createdBy := DRIVER];
    var metadata := Given(n.pvcName, d.pvcName) + Given(n.pvcNamespace, d.pvcNamespace) + Given(n.pvName, d.pvName);
    forall t ensures Entry(own + user + metadata, t) == Entry(tags, t) {
      assert Entry(tags, t) == TagValue(n, user, d, t);
      GivenEntries(n, d, t);
    }
    SameEntries(own + user + metadata, tags);
    assert forall t | t in metadata :: t == n.pvcName || t == n.pvcNamespace || t == n.pvName;
    assert Entry(tags, n.createdBy) == TagValue(n, user, d, n.createdBy);
  }

  lemma GivenEntries(n: TagNames, d: Metadata, t: string)
    requires Distinct(n)
    ensures var metadata := Given(n.pvcName, d.pvcName) + Given(n.pvcNamespace, d.pvcNamespace)
                            + Given(n.pvName, d.pvName);
            Entry(metadata, t) == if t == n.pvcName then d.pvcName
                                  else if t == n.pvcNamespace then d.pvcNamespace
                                  else if t == n.pvName then d.pvName
                                  else None
  {
  }

  lemma UserTagsAreFree(m: map<string, string>)
    requires FoldDistinct(m) && Acceptable(m)
    ensures forall t | t in UserTags(Folded(m)) :: !Reserved(TAGS, t)
  {
    var f := Folded(m);
    if KeyText(Tags) in f {
      FoldedMember(m, KeyText(Tags));
      var s :| s in m && Lower(s) == KeyText(Tags);
      assert EntryOk(Lower(s), m[s]);
      AcceptedTags(Tags, m[s]);
    }
  }

  // ---- The same by the keys and values as they are written ----

  /** The properties by the keys of the parameters. */
  lemma ParsedFromKeys(f: map<string, string>, p: Properties)
    requires Describes(f, p)
    ensures p.resourceGroup == Under(f, "resource-group-name") && p.location == Under(f, "location")
    ensures p.subnet.vnetName == Under(f, "vnet-name") && p.subnet.name == Under(f, "subnet-name")
    ensures p.subnet.vnetResourceGroup == Under(f, "vnet-resource-group") && p.sku == Under(f, "sku-name")
    ensures p.maintenanceDay == Under(f, "maintenance-day-of-week")
    ensures p.timeOfDay == Under(f, "maintenance-time-of-day-utc")
    ensures p.identities == if "identities" in f then Some(Split(f["identities"], ',')) else None
    ensures p.zone == Under(f, "zone") || p.zone == Under(f, "zones")
    ensures "zones" !in f ==> p.zone == Under(f, "zone")
    ensures "zone" !in f ==> p.zone == Under(f, "zones")
  {
    PlaceFromKeys(f, p);
    ZoneFromKeys(f, p.zone);
    hide KeyText;
  }

  lemma PlaceFromKeys(f: map<string, string>, p: Properties)
    requires p.(zone := "", tags := map[]) == PropertiesOf(f)
    ensures p.resourceGroup == Under(f, "resource-group-name") && p.location == Under(f, "location")
    ensures p.subnet.vnetName == Under(f, "vnet-name") && p.subnet.name == Under(f, "subnet-name")
    ensures p.subnet.vnetResourceGroup == Under(f, "vnet-resource-group") && p.sku == Under(f, "sku-name")
    ensures p.maintenanceDay == Under(f, "maintenance-day-of-week")
    ensures p.timeOfDay == Under(f, "maintenance-time-of-day-utc")
    ensures p.identities == if "identities" in f then Some(Split(f["identities"], ',')) else None
  {
    hide Split;
    var q := p.(zone := "", tags := map[]);
    assert KeyText(ResourceGroupName) == "resource-group-name" && KeyText(Location) == "location";
    assert KeyText(VnetName) == "vnet-name" && KeyText(SubnetName) == "subnet-name";
    assert KeyText(VnetResourceGroup) == "vnet-resource-group" && KeyText(SkuName) == "sku-name";
    assert KeyText(MaintenanceDay) == "maintenance-day-of-week";
    assert KeyText(MaintenanceTime) == "maintenance-time-of-day-utc" && KeyText(Identities) == "identities";
    hide KeyText;
  }

  lemma ZoneFromKeys(f: map<string, string>, zone: string)
    requires ZoneFrom(f, zone)
    ensures zone == Under(f, "zone") || zone == Under(f, "zones")
    ensures "zones" !in f ==> zone == Under(f, "zone")
    ensures "zone" !in f ==> zone == Under(f, "zones")
  {
    assert KeyText(Zone) == "zone" && KeyText(Zones) == "zones";
    hide KeyText;
  }

  /** What the parser asks for, by the keys: an address key, or a day, a time and a SKU. */
  lemma CompleteIff(f: map<string, string>)
    ensures Complete(f) <==>
            || "mgs-ip-address" in f
            || (&& Under(f, "maintenance-day-of-week") != "" && Under(f, "maintenance-time-of-day-utc") != ""
                && Under(f, "sku-name") != "")
  {
    assert KeyText(MgsIpAddress) == "mgs-ip-address" && KeyText(SkuName) == "sku-name";
    assert KeyText(MaintenanceDay) == "maintenance-day-of-week";
    assert KeyText(MaintenanceTime) == "maintenance-time-of-day-utc";
    hide KeyText;
  }

  /** The tags by their names and the keys they come from. */
  lemma TagsByName(f: map<string, string>, p: Properties)
    requires Describes(f, p)
    ensures "k8s-azure-created-by" in p.tags && p.tags["k8s-azure-created-by"] == "kubernetes-azurelustre-csi-driver"
    ensures Entry(p.tags, "kubernetes.io-created-for-pvc-name") == Entry(f, "csi.storage.k8s.io/pvc/name")
    ensures Entry(p.tags, "kubernetes.io-created-for-pvc-namespace") == Entry(f, "csi.storage.k8s.io/pvc/namespace")
    ensures Entry(p.tags, "kubernetes.io-created-for-pv-name") == Entry(f, "csi.storage.k8s.io/pv/name")
  {
    hide KeyText, Describes, TAGS, DRIVER;
    TagsByKey(f, p);
    TagTexts();
    MetadataTexts();
  }

  lemma TagTexts()
    ensures TAGS.createdBy == "k8s-azure-created-by" && TAGS.pvcName == "kubernetes.io-created-for-pvc-name"
    ensures TAGS.pvcNamespace == "kubernetes.io-created-for-pvc-namespace"
    ensures TAGS.pvName == "kubernetes.io-created-for-pv-name" && DRIVER == "kubernetes-azurelustre-csi-driver"
  {
  }

  lemma MetadataTexts()
    ensures KeyText(PvcName) == "csi.storage.k8s.io/pvc/name" && KeyText(PvName) == "csi.storage.k8s.io/pv/name"
    ensures KeyText(PvcNamespace) == "csi.storage.k8s.io/pvc/namespace"
  {
  }

  lemma TagsByKey(f: map<string, string>, p: Properties)
    requires Describes(f, p)
    ensures Entry(p.tags, TAGS.createdBy) == Some(DRIVER)
    ensures Entry(p.tags, TAGS.pvcName) == Entry(f, KeyText(PvcName))
    ensures Entry(p.tags, TAGS.pvcNamespace) == Entry(f, KeyText(PvcNamespace))
    ensures Entry(p.tags, TAGS.pvName) == Entry(f, KeyText(PvName))
  {
    hide KeyText, PropertiesOf, ZoneFrom, UserTags, TAGS, DRIVER, Distinct;
    TagNamesAreDistinct();
    TagsGiven(TAGS, UserTags(f), MetadataOf(f), p.tags);
    assert Entry(p.tags, TAGS.createdBy) == TagValue(TAGS, UserTags(f), MetadataOf(f), TAGS.createdBy);
  }

  lemma TagsGiven(n: TagNames, user: map<string, string>, d: Metadata, tags: map<string, string>)
    requires Distinct(n) && TagsAre(n, user, d, tags)
    ensures Entry(tags, n.pvcName) == d.pvcName && Entry(tags, n.pvcNamespace) == d.pvcNamespace
    ensures Entry(tags, n.pvName) == d.pvName
  {
    assert Entry(tags, n.pvcName) == TagValue(n, user, d, n.pvcName);
    assert Entry(tags, n.pvcNamespace) == TagValue(n, user, d, n.pvcNamespace);
    assert Entry(tags, n.pvName) == TagValue(n, user, d, n.pvName);
  }

  /** The keys a storage class may have. */
  predicate IsListed(x: string)
  {
    || x in {"mgs-ip-address", "fs-name", "sub-dir", "location", "resource-group-name", "vnet-resource-group"}
    || x in {"vnet-name", "subnet-name", "maintenance-day-of-week", "maintenance-time-of-day-utc", "sku-name", "zone"}
    || x in {"zones", "tags", "identities", "csi.storage.k8s.io/pvc/name", "csi.storage.k8s.io/pvc/namespace"}
    || x == "csi.storage.k8s.io/pv/name"
  }

  /** Which parameters are accepted, by key and value as they are written. */
  lemma AcceptedIff(x: string, v: string)
    ensures EntryOk(x, v) <==>
            && IsListed(x)
            && (x == "maintenance-day-of-week" ==>
                  v in {"Monday", "Tuesday", "Wednesday", "Thursday", "Friday", "Saturday", "Sunday"})
            && (x == "maintenance-time-of-day-utc" ==> IsClockTime(v))
            && (x == "tags" ==> ParseTags(v).Some? && forall t | t in ParseTags(v).value :: !IsReserved(t))
  {
    ListedIff(x);
    assert KeyText(MaintenanceDay) == "maintenance-day-of-week" && KeyText(Tags) == "tags";
    assert KeyText(MaintenanceTime) == "maintenance-time-of-day-utc";
    hide KeyText, IsListed;
    TimeIff(v);
    hide IsTimeOfDay, IsClockTime, ParseTags;
    forall t ensures Reserved(TAGS, t) <==> IsReserved(t) { }
    hide Reserved, IsReserved, TAGS;
    assert x == "maintenance-day-of-week" <==> Classify(x) == Some(MaintenanceDay);
    assert x == "maintenance-time-of-day-utc" <==> Classify(x) == Some(MaintenanceTime);
    assert x == "tags" <==> Classify(x) == Some(Tags);
  }

  /** The tags users may not set. */
  predicate IsReserved(t: string)
  {
    || t == "k8s-azure-created-by" || t == "kubernetes.io-created-for-pvc-name"
    || t == "kubernetes.io-created-for-pvc-namespace" || t == "kubernetes.io-created-for-pv-name"
  }

  lemma ListedIff(x: string)
    ensures IsListed(x) <==> Classify(x).Some? && !Unlisted(Classify(x).value)
  {
    if Classify(x).Some? {
      KeyIsListed(Classify(x).value);
    }
    if IsListed(x) {
      var k := ListedKey(x);
    }
    hide KeyText, IsListed;
  }

  lemma KeyIsListed(k: Param)
    ensures IsListed(KeyText(k)) <==> !Unlisted(k)
  {
    if Unlisted(k) {
      UnlistedText(k);
    }
  }

  lemma UnlistedText(k: Param)
    requires Unlisted(k)
    ensures !IsListed(KeyText(k))
  {
    var n := |KeyText(k)|;
    assert k.PodName? ==> KeyText(k)[22] == '.';
  }

  lemma ListedKey(x: string) returns (k: Param)
    requires IsListed(x)
    ensures KeyText(k) == x
  {
    k := if x == "mgs-ip-address" then MgsIpAddress else if x == "fs-name" then FsName
         else if x == "sub-dir" then SubDir else if x == "location" then Location
         else if x == "resource-group-name" then ResourceGroupName
         else if x == "vnet-resource-group" then VnetResourceGroup
         else if x == "vnet-name" then VnetName else if x == "subnet-name" then SubnetName
         else if x == "maintenance-day-of-week" then MaintenanceDay
         else if x == "maintenance-time-of-day-utc" then MaintenanceTime
         else if x == "sku-name" then SkuName else if x == "zone" then Zone else if x == "zones" then Zones
         else if x == "tags" then Tags else if x == "identities" then Identities
         else if x == "csi.storage.k8s.io/pvc/name" then PvcName
         else if x == "csi.storage.k8s.io/pvc/namespace" then PvcNamespace else PvName;
  }

  predicate IsDigit(c: char)
  {
    '0' <= c <= '9'
  }

  function DigitValue(c: char): int
  {
    c as int - '0' as int
  }

  /** Hours of one or two digits below 24, a colon, and minutes of two digits below 60. */
  predicate IsClockTime(s: string)
  {
    var n := |s|;
    && (n == 4 || n == 5) && s[n - 3] == ':' && (forall i | 0 <= i < n && i != n - 3 :: IsDigit(s[i]))
    && (if n == 4 then DigitValue(s[0]) else 10 * DigitValue(s[0]) + DigitValue(s[1])) < 24
    && 10 * DigitValue(s[n - 2]) + DigitValue(s[n - 1]) < 60
  }

  lemma TimeIff(s: string)
    ensures IsTimeOfDay(s) <==> IsClockTime(s)
  {
  }

  predicate IsBlank(s: string)
  {
    forall c | c in s :: c in " \t\n\r" || c as int == 11 || c as int == 12
  }

  /** Trimming takes the white space off both ends, and nothing else. */
  lemma {:induction false} TrimSpaceMeaning(s: string) returns (a: string, b: string)
    ensures s == a + TrimSpace(s) + b && IsBlank(a) && IsBlank(b) && Trimmed(TrimSpace(s))
    decreases |s|
  {
    a, b := "", "";
    if s != "" && IsSpace(s[0]) {
      a, b := TrimSpaceMeaning(s[1..]);
      assert s == [s[0]] + s[1..];
      a := [s[0]] + a;
    } else if s != "" && IsSpace(s[|s| - 1]) {
      a, b := TrimSpaceMeaning(s[..|s| - 1]);
      assert s == s[..|s| - 1] + [s[|s| - 1]];
      b := b + [s[|s| - 1]];
    }
  }

  /** What is trimmed does not begin or end with white space. */
  lemma TrimmedIff(s: string)
    ensures Trimmed(s) <==> s == "" || (!IsBlank([s[0]]) && !IsBlank([s[|s| - 1]]))
  {
    if s != "" {
      BlankIff(s[0]);
      BlankIff(s[|s| - 1]);
    }
  }

  lemma BlankIff(c: char)
    ensures IsBlank([c]) <==> IsSpace(c)
  {
    assert c in [c];
  }

  /** Tags are refused exactly when some entry has not one '=' or has a blank key. */
  lemma TagsRefusedIff(tags: string)
    ensures ParseTags(tags).None? <==>
            tags != "" && exists e | e in Split(tags, ',') :: |Split(e, '=')| != 2 || TrimSpace(Split(e, '=')[0]) == ""
  {
    if tags != "" {
      EntriesRefusedIff(Split(tags, ','), map[]);
    }
  }

  lemma {:induction false} EntriesRefusedIff(entries: seq<string>, m: map<string, string>)
    ensures AddTags(entries, m).None? <==>
            exists e | e in entries :: |Split(e, '=')| != 2 || TrimSpace(Split(e, '=')[0]) == ""
  {
    hide Split, TrimSpace;
    if entries != [] {
      assert entries == [entries[0]] + entries[1..];
      match TagEntry(entries[0])
      case None => assert entries[0] in entries;
      case Some((key, value)) => EntriesRefusedIff(entries[1..], m[key := value]);
    }
  }
}
