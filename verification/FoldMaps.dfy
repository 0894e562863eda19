/** Parameter maps with case-insensitive keys: the keys the driver knows, and the helpers that search and
    update a map in whatever order Go iterates over it. */
module FoldMaps {
  import opened Text
  import opened GrpcErrors

  datatype Param =
    | MgsIpAddress | FsName | SubDir | Location | ResourceGroupName | VnetResourceGroup | VnetName | SubnetName
    | MaintenanceDay | MaintenanceTime | SkuName | Zone | Zones | Tags | Identities | DynamicallyCreated
    | PvcName | PvcNamespace | PvName | PodName | PodNamespace | PodUid | ServiceAccountName

  function KeyText(k: Param): string
  {
    match k
    case MgsIpAddress => "mgs-ip-address"
    case FsName => "fs-name"
    case SubDir => "sub-dir"
    case Location => "location"
    case ResourceGroupName => "resource-group-name"
    case VnetResourceGroup => "vnet-resource-group"
    case VnetName => "vnet-name"
    case SubnetName => "subnet-name"
    case MaintenanceDay => "maintenance-day-of-week"
    case MaintenanceTime => "maintenance-time-of-day-utc"
    case SkuName => "sku-name"
    case Zone => "zone"
    case Zones => "zones"
    case Tags => "tags"
    case Identities => "identities"
    case DynamicallyCreated => "created-by-dynamic-provisioning"
    case PvcName => "csi.storage.k8s.io/pvc/name"
    case PvcNamespace => "csi.storage.k8s.io/pvc/namespace"
    case PvName => "csi.storage.k8s.io/pv/name"
    case PodName => "csi.storage.k8s.io/pod.name"
    case PodNamespace => "csi.storage.k8s.io/pod.namespace"
    case PodUid => "csi.storage.k8s.io/pod.uid"
    case ServiceAccountName => "csi.storage.k8s.io/serviceaccount.name"
  }

  /** Length and two letters tell the keys apart. */
  function Print3(s: string): (int, char, char)
  {
    (|s|, if |s| > 0 then s[0] else ' ', if |s| > 20 then s[20] else ' ')
  }

  function Fingerprint(k: Param): (f: (int, char, char))
    ensures f == Print3(KeyText(k))
  {
    match k
    case MgsIpAddress => (14, 'm', ' ')
    case FsName => (7, 'f', ' ')
    case SubDir => (7, 's', ' ')
    case Location => (8, 'l', ' ')
    case ResourceGroupName => (19, 'r', ' ')
    case VnetResourceGroup => (19, 'v', ' ')
    case VnetName => (9, 'v', ' ')
    case SubnetName => (11, 's', ' ')
    case MaintenanceDay => (23, 'm', 'e')
    case MaintenanceTime => (27, 'm', 'd')
    case SkuName => (8, 's', ' ')
    case Zone => (4, 'z', ' ')
    case Zones => (5, 'z', ' ')
    case Tags => (4, 't', ' ')
    case Identities => (10, 'i', ' ')
    case DynamicallyCreated => (31, 'c', 'r')
    case PvcName => (27, 'c', 'v')
    case PvcNamespace => (32, 'c', 'v')
    case PvName => (26, 'c', 'v')
    case PodName => (27, 'c', 'o')
    case PodNamespace => (32, 'c', 'o')
    case PodUid => (26, 'c', 'o')
    case ServiceAccountName => (38, 'c', 'e')
  }

  lemma KeysAreDistinct(j: Param, k: Param)
    requires KeyText(j) == KeyText(k)
    ensures j == k
  {
    hide KeyText, Print3;
    assert Fingerprint(j) == Fingerprint(k);
  }

  /** The keys CreateVolume writes, and others, are in lower case. */
  lemma KeysAreLower(k: Param)
    requires k in {MgsIpAddress, FsName, ResourceGroupName, DynamicallyCreated, SkuName, Zone, Zones, MaintenanceDay,
                   MaintenanceTime, PodName, PvName}
    ensures Lower(KeyText(k)) == KeyText(k)
  {
    if k in {MgsIpAddress, FsName, ResourceGroupName} {
      ShortKeysAreLower(k);
    } else if k in {DynamicallyCreated, SkuName, Zone, Zones} {
      CommonKeysAreLower(k);
    } else if k in {MaintenanceDay, MaintenanceTime} {
      MaintenanceKeysAreLower(k);
    } else {
      MetadataKeysAreLower(k);
    }
    hide KeyText, Lower;
  }

  lemma ShortKeysAreLower(k: Param)
    requires k in {MgsIpAddress, FsName, ResourceGroupName}
    ensures Lower(KeyText(k)) == KeyText(k)
  {
    var s := KeyText(k);
    assert forall i | 0 <= i < |s| :: LowerChar(s[i]) == s[i];
  }

  lemma CommonKeysAreLower(k: Param)
    requires k in {DynamicallyCreated, SkuName, Zone, Zones}
    ensures Lower(KeyText(k)) == KeyText(k)
  {
    var s := KeyText(k);
    assert forall i | 0 <= i < |s| :: LowerChar(s[i]) == s[i];
  }

  lemma MaintenanceKeysAreLower(k: Param)
    requires k in {MaintenanceDay, MaintenanceTime}
    ensures Lower(KeyText(k)) == KeyText(k)
  {
    var s := KeyText(k);
    assert forall i | 0 <= i < |s| :: LowerChar(s[i]) == s[i];
  }

  lemma MetadataKeysAreLower(k: Param)
    requires k in {PodName, PvName}
    ensures Lower(KeyText(k)) == KeyText(k)
  {
    var s := KeyText(k);
    assert forall i | 0 <= i < |s| :: LowerChar(s[i]) == s[i];
  }

  /** The known key a lower-cased key is, if any. */
  function Classify(lowered: string): (k: Option<Param>)
    ensures forall j :: k == Some(j) <==> lowered == KeyText(j)
  {
    if exists j: Param :: lowered == KeyText(j) then
      assert forall i: Param, j: Param | KeyText(i) == KeyText(j) :: i == j by {
        forall i: Param, j: Param | KeyText(i) == KeyText(j) ensures i == j { KeysAreDistinct(i, j); }
      }
      var j: Param :| lowered == KeyText(j);
      Some(j)
    else
      None
  }

  // ---- The folded view of a map ----

  /** No two keys are equal up to case. */
  predicate FoldDistinct(m: map<string, string>)
  {
    forall s, t | s in m && t in m && EqualFold(s, t) :: s == t
  }

  /** The map with its keys in lower case. */
  ghost function Folded(m: map<string, string>): (f: map<string, string>)
    requires FoldDistinct(m)
    ensures forall s | s in m :: Lower(s) in f && f[Lower(s)] == m[s]
    ensures forall x | x in f :: exists s | s in m :: Lower(s) == x
  {
    map s | s in m :: Lower(s) := m[s]
  }

  function Lookup(f: map<string, string>, k: Param): Option<string>
  {
    if KeyText(k) in f then Some(f[KeyText(k)]) else None
  }

  /** The value under a key, or the empty string. */
  function ValueOf(f: map<string, string>, k: Param): string
  {
    if KeyText(k) in f then f[KeyText(k)] else ""
  }

  /** The value under a key as it is written, or the empty string. */
  function Under(f: map<string, string>, key: string): string
  {
    if key in f then f[key] else ""
  }

  lemma LookupAfterUpdate(f: map<string, string>, j: Param, v: string, k: Param)
    ensures Lookup(f[KeyText(j) := v], k) == if j == k then Some(v) else Lookup(f, k)
    ensures ValueOf(f[KeyText(j) := v], k) == if j == k then v else ValueOf(f, k)
  {
    hide KeyText;
    if KeyText(j) == KeyText(k) {
      KeysAreDistinct(j, k);
    }
  }

  /** A map whose keys are in lower case is its own folded view. */
  lemma LoweredMap(m: map<string, string>)
    requires forall s | s in m :: Lower(s) == s
    ensures FoldDistinct(m) && Folded(m) == m
  {
    hide Lower;
  }

  lemma FoldedMember(m: map<string, string>, x: string)
    requires FoldDistinct(m)
    ensures x in Folded(m) <==> exists s | s in m :: Lower(s) == x
  {
    hide Lower;
  }

  lemma SubmapsAreFoldDistinct(m: map<string, string>, n: map<string, string>)
    requires FoldDistinct(n) && m.Keys <= n.Keys
    ensures FoldDistinct(m)
  {
    hide Lower, EqualFold;
  }

  /** A map extended by an entry under a new key, and its folded view. */
  lemma FoldedExtension(m: map<string, string>, s: string, v: string)
    requires FoldDistinct(m[s := v]) && s !in m
    ensures FoldDistinct(m) && Lower(s) !in Folded(m)
    ensures Folded(m[s := v]) == Folded(m)[Lower(s) := v]
  {
    var n := m[s := v];
    SubmapsAreFoldDistinct(m, n);
    NewKeyIsNew(m, s, v);
    hide Lower, Folded, EqualFold, FoldDistinct;
    var f, g := Folded(n), Folded(m)[Lower(s) := v];
    forall x ensures x in f <==> x in g {
      ExtendedMember(m, s, v, x);
    }
    forall x | x in f ensures f[x] == g[x] {
      FoldedMember(n, x);
      var t :| t in n && Lower(t) == x;
      assert f[x] == n[t];
      assert t != s ==> t in m && Folded(m)[x] == m[t];
    }
  }

  lemma NewKeyIsNew(m: map<string, string>, s: string, v: string)
    requires FoldDistinct(m[s := v]) && s !in m && FoldDistinct(m)
    ensures Lower(s) !in Folded(m)
  {
    hide Lower, Folded;
    FoldedMember(m, Lower(s));
    assert forall t | t in m :: t in m[s := v] && (EqualFold(t, s) ==> t == s);
  }

  lemma ExtendedMember(m: map<string, string>, s: string, v: string, x: string)
    requires FoldDistinct(m[s := v]) && FoldDistinct(m)
    ensures x in Folded(m[s := v]) <==> x in Folded(m) || x == Lower(s)
  {
    hide Lower, Folded, EqualFold, FoldDistinct;
    FoldedMember(m[s := v], x);
    FoldedMember(m, x);
    assert forall t :: t in m[s := v] <==> t in m || t == s;
  }

  /** Loops over a map have seen the part of it whose keys are done. */
  ghost function Seen(m: map<string, string>, left: set<string>): map<string, string>
  {
    m - left
  }

  lemma SeeOneMore(m: map<string, string>, left: set<string>, s: string)
    requires FoldDistinct(m) && left <= m.Keys && s in left
    ensures FoldDistinct(Seen(m, left)) && FoldDistinct(Seen(m, left - {s}))
    ensures Folded(Seen(m, left - {s})) == Folded(Seen(m, left))[Lower(s) := m[s]]
    ensures Lower(s) !in Folded(Seen(m, left))
  {
    assert Seen(m, left - {s}) == Seen(m, left)[s := m[s]];
    FoldedExtension(Seen(m, left), s, m[s]);
  }

  // ---- SetKeyValueInMap and GetValueInMap ----

  /** A Go map held by a request; the nil map is the null reference. */
  class Parameters {
    var m: map<string, string>

    constructor (m: map<string, string>)
      ensures this.m == m
    {
      this.m := m;
    }
  }

  /** What a search for a key can return, over all iteration orders. */
  predicate CanGet(m: map<string, string>, key: string, v: string)
  {
    if exists s | s in m :: EqualFold(s, key) then
      exists s | s in m :: EqualFold(s, key) && v == m[s]
    else
      v == ""
  }

  method GetValueInMap(p: Parameters?, key: string) returns (v: string)
    ensures p == null ==> v == ""
    ensures p != null ==> CanGet(p.m, key, v)
  {
    if p == null {
      return "";
    }
    var left := p.m.Keys;
    while left != {}
      invariant left <= p.m.Keys
      invariant forall s | s in p.m.Keys - left :: !EqualFold(s, key)
      decreases left
    {
      var s :| s in left;
      if EqualFold(s, key) {
        return p.m[s];
      }
      left := left - {s};
    }
    return "";
  }

  /** The search has one possible answer exactly when all entries under the key agree. */
  lemma GetIsDetermined(m: map<string, string>, key: string)
    ensures (forall v, w | CanGet(m, key, v) && CanGet(m, key, w) :: v == w) <==>
            (forall s, t | s in m && t in m && EqualFold(s, key) && EqualFold(t, key) :: m[s] == m[t])
  {
    forall s, t | s in m && t in m && EqualFold(s, key) && EqualFold(t, key)
      ensures CanGet(m, key, m[s]) && CanGet(m, key, m[t])
    {
    }
  }

  method SetKeyValueInMap(p: Parameters?, key: string, value: string)
    requires p != null ==> FoldDistinct(p.m)
    modifies p
    ensures p != null ==> FoldDistinct(p.m)
    ensures p != null ==> Folded(p.m) == old(Folded(p.m))[Lower(key) := value]
    ensures p != null ==> forall s | s in old(p.m) && !EqualFold(s, key) :: s in p.m && p.m[s] == old(p.m[s])
  {
    if p == null {
      return;
    }
    var left := p.m.Keys;
    ghost var before := p.m;
    while left != {}
      invariant left <= p.m.Keys && p.m == before
      invariant forall s | s in p.m.Keys - left :: !EqualFold(s, key)
      decreases left
    {
      var s :| s in left;
      if EqualFold(s, key) {
        p.m := p.m[s := value];
        SetLaw(before, s, key, value);
        return;
      }
      left := left - {s};
    }
    p.m := p.m[key := value];
    SetLaw(before, key, key, value);
  }

  lemma SetKeepsDistinct(m: map<string, string>, s: string, key: string, value: string)
    requires FoldDistinct(m) && EqualFold(s, key)
    requires s in m || forall t | t in m :: !EqualFold(t, key)
    ensures FoldDistinct(m[s := value])
  {
    hide Lower;
  }

  lemma OverwriteFolded(m: map<string, string>, s: string, value: string)
    requires FoldDistinct(m) && s in m && FoldDistinct(m[s := value])
    ensures Folded(m[s := value]) == Folded(m)[Lower(s) := value]
  {
    hide Lower, Folded, EqualFold, FoldDistinct;
    var rest := m - {s};
    assert m[s := value] == rest[s := value] && m == rest[s := m[s]];
    FoldedExtension(rest, s, value);
    FoldedExtension(rest, s, m[s]);
    var f, x := Folded(rest), Lower(s);
    assert f[x := m[s]][x := value] == f[x := value];
  }

  /** Writing under the one key that folds to the searched key, or under the searched key itself when there
      is none, changes that folded key only. */
  lemma SetLaw(m: map<string, string>, s: string, key: string, value: string)
    requires FoldDistinct(m) && EqualFold(s, key)
    requires s in m || forall t | t in m :: !EqualFold(t, key)
    ensures FoldDistinct(m[s := value])
    ensures Folded(m[s := value]) == Folded(m)[Lower(key) := value]
  {
    SetKeepsDistinct(m, s, key, value);
    assert Lower(s) == Lower(key);
    hide Lower, Folded, EqualFold, FoldDistinct;
    if s in m {
      OverwriteFolded(m, s, value);
    } else {
      FoldedExtension(m, s, value);
    }
  }

  /** Over fold-distinct maps the search returns the folded entry, so a value written under one spelling is
      found under every other one. */
  lemma GetLaw(m: map<string, string>, key: string, v: string)
    requires FoldDistinct(m) && CanGet(m, key, v)
    ensures v == if Lower(key) in Folded(m) then Folded(m)[Lower(key)] else ""
  {
    if exists s | s in m :: EqualFold(s, key) {
      var s :| s in m && EqualFold(s, key) && v == m[s];
    } else {
      FoldedMember(m, Lower(key));
    }
  }
}
