/** The identity of a volume: printed into an ID by the controller, parsed back from the ID, and rebuilt
    from the volume context by the node. */
module VolumeIdentity {
  import opened Text
  import opened GrpcErrors
  import opened FoldMaps
  import opened Templates
  import opened Substitution
  import opened MapIteration

  const FILESYSTEM := "lustrefs"

  datatype LustreVolume = LustreVolume(
    name: string,
    id: string,
    mgsIpAddress: string,
    filesystem: string,
    subDir: string,
    dynamic: bool,
    resourceGroup: string)

  // ---- Printer and parser ----

  function PrintId(name: string, address: string, subDir: string, dynamic: string, resourceGroup: string): string
  {
    name + "#" + FILESYSTEM + "#" + address + "#" + subDir + "#" + dynamic + "#" + resourceGroup
  }

  /** getLustreVolFromID. */
  function ParseId(id: string): Option<LustreVolume>
  {
    var segments := Split(id, '#');
    if |segments| < 3 then None
    else Some(LustreVolume(
                segments[0], id, segments[2], FILESYSTEM,
                if |segments| >= 4 then Trim(segments[3], '/') else "",
                |segments| >= 5 && segments[4] == "t",
                if |segments| >= 6 then segments[5] else ""))
  }

  /** The segments of any printed ID, whatever the fields hold. */
  lemma PrintedSegments(name: string, address: string, subDir: string, dynamic: string, resourceGroup: string)
    ensures Split(PrintId(name, address, subDir, dynamic, resourceGroup), '#') ==
            Split(name, '#') + [FILESYSTEM] + Split(address, '#') + Split(subDir, '#') + Split(dynamic, '#')
            + Split(resourceGroup, '#')
  {
    var a := name + "#" + FILESYSTEM;
    var b := a + "#" + address;
    var c := b + "#" + subDir;
    var d := c + "#" + dynamic;
    SplitAppend(name, FILESYSTEM, '#');
    SplitAtom(FILESYSTEM, '#');
    SplitAppend(a, address, '#');
    SplitAppend(b, subDir, '#');
    SplitAppend(c, dynamic, '#');
    SplitAppend(d, resourceGroup, '#');
    assert PrintId(name, address, subDir, dynamic, resourceGroup) == d + "#" + resourceGroup;
  }

  /** For fields without '#', parsing a printed ID gives the fields back. */
  lemma IdRoundTrip(name: string, address: string, subDir: string, dynamic: string, resourceGroup: string)
    requires '#' !in name && '#' !in address && '#' !in subDir && '#' !in dynamic && '#' !in resourceGroup
    ensures var id := PrintId(name, address, subDir, dynamic, resourceGroup);
            ParseId(id) ==
              Some(LustreVolume(name, id, address, FILESYSTEM, Trim(subDir, '/'), dynamic == "t", resourceGroup))
  {
    PrintedSegments(name, address, subDir, dynamic, resourceGroup);
    SplitAtom(name, '#');
    SplitAtom(address, '#');
    SplitAtom(subDir, '#');
    SplitAtom(dynamic, '#');
    SplitAtom(resourceGroup, '#');
    assert Split(PrintId(name, address, subDir, dynamic, resourceGroup), '#')
        == [name, FILESYSTEM, address, subDir, dynamic, resourceGroup];
  }

  /** Older IDs with fewer fields: without a sub-directory, a marker or a resource group these are empty; with fewer
      than three fields nothing is read. */
  lemma ShortIds(name: string, filesystem: string, address: string, subDir: string)
    requires '#' !in name && '#' !in filesystem && '#' !in address && '#' !in subDir
    ensures ParseId(name) == None && ParseId(name + ['#'] + filesystem) == None
    ensures var id := name + ['#'] + filesystem + ['#'] + address;
            && ParseId(id) == Some(LustreVolume(name, id, address, "lustrefs", "", false, ""))
            && ParseId(id + ['#'] + subDir) ==
               Some(LustreVolume(name, id + ['#'] + subDir, address, "lustrefs", Trim(subDir, '/'), false, ""))
  {
    var two := name + ['#'] + filesystem;
    var three := two + ['#'] + address;
    SplitAtom(name, '#');
    SplitAtom(filesystem, '#');
    SplitAtom(address, '#');
    SplitAtom(subDir, '#');
    SplitAppend(name, filesystem, '#');
    SplitAppend(two, address, '#');
    SplitAppend(three, subDir, '#');
    hide Split, Trim;
  }

  /** And only for such fields: a '#' in any of them is lost or shifts the fields after it. */
  lemma IdRoundTripIff(name: string, address: string, subDir: string, dynamic: string, resourceGroup: string)
    requires '#' !in dynamic
    ensures var id := PrintId(name, address, subDir, dynamic, resourceGroup);
            ParseId(id) ==
              Some(LustreVolume(name, id, address, FILESYSTEM, Trim(subDir, '/'), dynamic == "t", resourceGroup))
            <==> '#' !in name && '#' !in address && '#' !in subDir && '#' !in resourceGroup
  {
    var id := PrintId(name, address, subDir, dynamic, resourceGroup);
    var want := LustreVolume(name, id, address, FILESYSTEM, Trim(subDir, '/'), dynamic == "t", resourceGroup);
    if '#' !in name && '#' !in address && '#' !in subDir && '#' !in resourceGroup {
      IdRoundTrip(name, address, subDir, dynamic, resourceGroup);
    } else if ParseId(id) == Some(want) {
      ParsedFieldsHaveNoHash(id);
      hide ParseId, PrintId;
      if '#' in subDir { TrimmedHolds(subDir, '/', '#'); }
    }
  }

  lemma ParsedFieldsHaveNoHash(id: string)
    requires ParseId(id).Some?
    ensures var v := ParseId(id).value;
            '#' !in v.name && '#' !in v.mgsIpAddress && '#' !in v.subDir && '#' !in v.resourceGroup
  {
    var segments := Split(id, '#');
    assert forall i | 0 <= i < |segments| :: segments[i] in segments;
  }

  // ---- Readers of the parameter map ----

  lemma LookupStep(f: map<string, string>, x: string, v: string, k: Param)
    ensures Lookup(f[x := v], k) == if Classify(x) == Some(k) then Some(v) else Lookup(f, k)
    ensures ValueOf(f[x := v], k) == if Classify(x) == Some(k) then v else ValueOf(f, k)
  {
    hide KeyText;
  }

  lemma LookupMember(m: map<string, string>, s: string, k: Param)
    requires FoldDistinct(m) && s in m && Classify(Lower(s)) == Some(k)
    ensures Lookup(Folded(m), k) == Some(m[s])
  {
    hide KeyText, Lower;
  }

  predicate SubDirGivenEmpty(f: map<string, string>)
  {
    Lookup(f, SubDir).Some? && Trim(Lookup(f, SubDir).value, '/') == ""
  }

  /** createVolumeIDFromParams. */
  method CreateVolumeIdFromParams(name: string, m: map<string, string>) returns (r: Result<string>)
    requires FoldDistinct(m)
    ensures r.Err? <==> SubDirGivenEmpty(Folded(m))
    ensures r.Err? ==> r.error == INVALID
    ensures r.Ok? ==>
              var f := Folded(m);
              r.value == PrintId(name, ValueOf(f, MgsIpAddress), Trim(ValueOf(f, SubDir), '/'),
                                 ValueOf(f, DynamicallyCreated), ValueOf(f, ResourceGroupName))
  {
    hide KeyText, Lower, FoldDistinct, Folded, Trim, Lookup, ValueOf;
    var address, dynamic, resourceGroup, subDir := "", "", "", "";
    var left := m.Keys;
    NothingSeen(m);
    while left != {}
      invariant left <= m.Keys && FoldDistinct(Seen(m, left))
      invariant var f := Folded(Seen(m, left));
                && address == ValueOf(f, MgsIpAddress) && subDir == Trim(ValueOf(f, SubDir), '/')
                && dynamic == ValueOf(f, DynamicallyCreated) && resourceGroup == ValueOf(f, ResourceGroupName)
                && !SubDirGivenEmpty(f)
      decreases left
    {
      var s :| s in left;
      var v := m[s];
      SeeOneMore(m, left, s);
      StepAll(Folded(Seen(m, left)), Lower(s), v);
      left := left - {s};
      match Classify(Lower(s)) {
        case Some(MgsIpAddress) => address := v;
        case Some(DynamicallyCreated) => dynamic := v;
        case Some(ResourceGroupName) => resourceGroup := v;
        case Some(SubDir) =>
          subDir := Trim(v, '/');
          if subDir == "" {
            LookupMember(m, s, SubDir);
            return Err(INVALID);
          }
        case _ =>
      }
    }
    assert Seen(m, left) == m;
    return Ok(PrintId(name, address, subDir, dynamic, resourceGroup));
  }

  lemma NothingSeen(m: map<string, string>)
    ensures FoldDistinct(Seen(m, m.Keys))
    ensures var f := Folded(Seen(m, m.Keys)); forall k :: Lookup(f, k) == None && ValueOf(f, k) == ""
    ensures Trim("", '/') == ""
  {
    assert Seen(m, m.Keys) == map[];
    assert Folded(map[]) == map[];
    hide KeyText;
  }

  lemma StepAll(f: map<string, string>, x: string, v: string)
    ensures forall k :: Lookup(f[x := v], k) == if Classify(x) == Some(k) then Some(v) else Lookup(f, k)
    ensures forall k :: ValueOf(f[x := v], k) == if Classify(x) == Some(k) then v else ValueOf(f, k)
  {
    hide KeyText, Lookup, ValueOf;
    forall k
      ensures Lookup(f[x := v], k) == if Classify(x) == Some(k) then Some(v) else Lookup(f, k)
      ensures ValueOf(f[x := v], k) == if Classify(x) == Some(k) then v else ValueOf(f, k)
    {
      LookupStep(f, x, v, k);
    }
  }

  /** What newLustreVolume makes of a volume context. */
  function ReadVolume(id: string, name: string, f: map<string, string>): Result<LustreVolume>
  {
    if SubDirGivenEmpty(f) || ValueOf(f, MgsIpAddress) == "" then Err(INVALID)
    else Ok(LustreVolume(name, id, ValueOf(f, MgsIpAddress), FILESYSTEM, Trim(ValueOf(f, SubDir), '/'),
                         ValueOf(f, DynamicallyCreated) == "t", ValueOf(f, ResourceGroupName)))
  }

  method NewLustreVolume(id: string, name: string, m: map<string, string>) returns (r: Result<LustreVolume>)
    requires FoldDistinct(m)
    ensures r == ReadVolume(id, name, Folded(m))
  {
    hide KeyText, Lower, FoldDistinct, Folded, Trim, Lookup, ValueOf;
    var address, subDir, resourceGroup := "", "", "";
    var dynamic := false;
    var left := m.Keys;
    NothingSeen(m);
    while left != {}
      invariant left <= m.Keys && FoldDistinct(Seen(m, left))
      invariant var f := Folded(Seen(m, left));
                && address == ValueOf(f, MgsIpAddress) && subDir == Trim(ValueOf(f, SubDir), '/')
                && dynamic == (ValueOf(f, DynamicallyCreated) == "t") && resourceGroup == ValueOf(f, ResourceGroupName)
                && !SubDirGivenEmpty(f)
                && (ValueOf(f, DynamicallyCreated) != "" ==> Lookup(f, DynamicallyCreated).Some?)
      decreases left
    {
      var s :| s in left;
      var v := m[s];
      SeeOneMore(m, left, s);
      StepAll(Folded(Seen(m, left)), Lower(s), v);
      SeenOnce(m, left, s);
      left := left - {s};
      match Classify(Lower(s)) {
        case Some(MgsIpAddress) => address := v;
        case Some(SubDir) =>
          subDir := Trim(v, '/');
          if subDir == "" {
            LookupMember(m, s, SubDir);
            return Err(INVALID);
          }
        case Some(DynamicallyCreated) =>
          if v == "t" {
            dynamic := true;
          }
        case Some(ResourceGroupName) => resourceGroup := v;
        case _ =>
      }
    }
    assert Seen(m, left) == m;
    if address == "" {
      return Err(INVALID);
    }
    return Ok(LustreVolume(name, id, address, FILESYSTEM, subDir, dynamic, resourceGroup));
  }

  /** A key not yet seen has no entry among those seen. */
  lemma SeenOnce(m: map<string, string>, left: set<string>, s: string)
    requires FoldDistinct(m) && left <= m.Keys && s in left && FoldDistinct(Seen(m, left))
    ensures forall k :: Classify(Lower(s)) == Some(k) ==> Lookup(Folded(Seen(m, left)), k) == None
  {
    SeeOneMore(m, left, s);
    hide KeyText, Lower;
  }

  /** getVolume: the volume rebuilt from the context, and whether the ID disagrees with it (only logged). */
  method GetVolume(id: string, m: map<string, string>) returns (r: Result<LustreVolume>, mismatch: bool)
    requires FoldDistinct(m)
    ensures r == ReadVolume(id, if ParseId(id).Some? then ParseId(id).value.name else "", Folded(m))
    ensures mismatch <==> r.Ok? && ParseId(id).Some? && ParseId(id) != Some(r.value)
  {
    var name := "";
    var fromId := ParseId(id);
    if fromId.Some? {
      name := fromId.value.name;
    }
    r := NewLustreVolume(id, name, m);
    mismatch := r.Ok? && fromId.Some? && fromId.value != r.value;
  }

  /** The node's reading of a context agrees with the parsed ID in all seven fields, if the ID was printed
      from a context with the same four entries and fields without '#'. */
  lemma ReadersAgree(name: string, f: map<string, string>, g: map<string, string>)
    requires !SubDirGivenEmpty(f) && ValueOf(f, MgsIpAddress) != ""
    requires forall k | k in {MgsIpAddress, SubDir, DynamicallyCreated, ResourceGroupName} ::
               Lookup(g, k) == Lookup(f, k)
    requires '#' !in name
    requires forall k | k in {MgsIpAddress, SubDir, DynamicallyCreated, ResourceGroupName} :: '#' !in ValueOf(f, k)
    ensures var id := PrintId(name, ValueOf(f, MgsIpAddress), Trim(ValueOf(f, SubDir), '/'),
                              ValueOf(f, DynamicallyCreated), ValueOf(f, ResourceGroupName));
            && ParseId(id).Some? && ParseId(id).value.name == name
            && ReadVolume(id, name, g) == Ok(ParseId(id).value)
  {
    forall k | k in {MgsIpAddress, SubDir, DynamicallyCreated, ResourceGroupName}
      ensures ValueOf(g, k) == ValueOf(f, k) {
      assert Lookup(g, k) == Lookup(f, k);
    }
    hide KeyText, Lookup, ValueOf, ParseId, PrintId;
    var subDir := Trim(ValueOf(f, SubDir), '/');
    TrimTwice(ValueOf(f, SubDir), '/');
    IdRoundTrip(name, ValueOf(f, MgsIpAddress), subDir, ValueOf(f, DynamicallyCreated), ValueOf(f, ResourceGroupName));
  }

  /** The keys of the context the readers look at, as they are written. */
  lemma ContextTexts()
    ensures KeyText(MgsIpAddress) == "mgs-ip-address" && KeyText(SubDir) == "sub-dir" && KeyText(FsName) == "fs-name"
    ensures KeyText(DynamicallyCreated) == "created-by-dynamic-provisioning"
    ensures KeyText(ResourceGroupName) == "resource-group-name"
  {
  }

  /** A sub-directory is given empty exactly when it is given and holds nothing but slashes. */
  lemma SubDirEmptyIff(f: map<string, string>)
    ensures SubDirGivenEmpty(f) <==> "sub-dir" in f && forall i | 0 <= i < |f["sub-dir"]| :: f["sub-dir"][i] == '/'
  {
    ContextTexts();
    hide KeyText, Trim;
    if "sub-dir" in f {
      TrimmedAwayIff(f["sub-dir"], '/');
    }
  }

  /** The volume the node reads, by the keys of the context. */
  lemma ReadByKeys(id: string, name: string, f: map<string, string>)
    ensures ReadVolume(id, name, f) ==
            if SubDirGivenEmpty(f) || Under(f, "mgs-ip-address") == "" then Err(Status(InvalidArgument, PLAIN))
            else Ok(LustreVolume(name, id, Under(f, "mgs-ip-address"), "lustrefs", Trim(Under(f, "sub-dir"), '/'),
                                 Under(f, "created-by-dynamic-provisioning") == "t", Under(f, "resource-group-name")))
  {
    ContextTexts();
    hide KeyText, SubDirGivenEmpty, Trim;
  }

  // ---- Deletion ----

  /** What DeleteVolume asks of the provisioner for a volume ID. */
  datatype Deletion = NoCall | GroupMissing | DeleteCluster(resourceGroup: string, name: string)

  function DeletionFor(id: string): Deletion
  {
    match ParseId(id)
    case None => NoCall
    case Some(v) =>
      if !v.dynamic then NoCall
      else if v.resourceGroup == "" then GroupMissing
      else DeleteCluster(v.resourceGroup, v.name)
  }

  /** What deleting a static volume does, by the segments of its ID counted over the segments of its fields: a
      provisioner call exactly when the fifth is "t" and the sixth is not empty. */
  lemma StaticDeletionIsSilentIff(name: string, address: string, subDir: string, resourceGroup: string)
    ensures var segments := Split(name, '#') + [FILESYSTEM] + Split(address, '#') + Split(subDir, '#') + ["f"]
                            + Split(resourceGroup, '#');
            var deletion := DeletionFor(PrintId(name, address, subDir, "f", resourceGroup));
            && |segments| >= 6
            && (deletion.DeleteCluster? <==> segments[4] == "t" && segments[5] != "")
            && (deletion.DeleteCluster? ==> deletion == DeleteCluster(segments[5], segments[0]))
            && (deletion.NoCall? <==> segments[4] != "t")
  {
    PrintedSegments(name, address, subDir, "f", resourceGroup);
    SplitAtom("f", '#');
  }

  /** For a name and an address without '#', deleting a static volume calls the provisioner exactly when the second
      segment of the sub-directory is "t" and its third, if there is one, is not empty. The call is then for a
      cluster of the volume's name in the resource group that third segment, or the marker "f", names. */
  lemma StaticDeletionCallsIff(name: string, address: string, subDir: string, resourceGroup: string)
    requires '#' !in name && '#' !in address
    ensures var inner := Split(subDir, '#');
            var deletion := DeletionFor(PrintId(name, address, subDir, "f", resourceGroup));
            && (deletion.DeleteCluster? <==> |inner| >= 2 && inner[1] == "t" && (|inner| >= 3 ==> inner[2] != ""))
            && (deletion.DeleteCluster? ==> deletion == DeleteCluster(if |inner| >= 3 then inner[2] else "f", name))
            && ('#' !in subDir ==> deletion == NoCall)
  {
    hide Split, PrintId, DeletionFor;
    DeletionByTail(name, address, subDir, "f", resourceGroup);
    var inner := Split(subDir, '#');
    var tail := inner + ["f"] + Split(resourceGroup, '#');
    assert |inner| >= 2 ==> tail[1] == inner[1];
    assert |inner| >= 3 ==> tail[2] == inner[2];
    if '#' !in subDir {
      SplitAtom(subDir, '#');
    }
  }

  /** When deleting a dynamic volume asks for its own cluster, by the segments of its sub-directory. */
  predicate OwnCluster(subDir: string, resourceGroup: string)
  {
    var inner := Split(subDir, '#');
    resourceGroup != "" &&
    if |inner| == 1 then '#' !in resourceGroup
    else inner[1] == "t" && resourceGroup == if |inner| == 2 then "t" else inner[2]
  }

  /** What deleting a dynamic volume does, for a name and an address without '#': nothing at all if the sub-directory
      has a second segment other than "t". It asks for the cluster that was created exactly when OwnCluster says so,
      in particular if sub-directory and resource group hold no '#'. */
  lemma DynamicDeletionIff(name: string, address: string, subDir: string, resourceGroup: string)
    requires '#' !in name && '#' !in address
    ensures var tail := Split(subDir, '#') + ["t"] + Split(resourceGroup, '#');
            var deletion := DeletionFor(PrintId(name, address, subDir, "t", resourceGroup));
            && deletion == (if tail[1] != "t" then NoCall
                            else if tail[2] == "" then GroupMissing
                            else DeleteCluster(tail[2], name))
            && (deletion == DeleteCluster(resourceGroup, name) <==> OwnCluster(subDir, resourceGroup))
  {
    hide Split, PrintId, DeletionFor;
    var inner, groups := Split(subDir, '#'), Split(resourceGroup, '#');
    var tail := inner + ["t"] + groups;
    DeletionByTail(name, address, subDir, "t", resourceGroup);
    if '#' !in resourceGroup { SplitAtom(resourceGroup, '#'); }
    assert groups[0] in groups;
    assert |inner| == 1 ==> tail[1] == "t" && tail[2] == groups[0];
    assert |inner| == 2 ==> tail[1] == inner[1] && tail[2] == "t";
    assert |inner| > 2 ==> tail[1] == inner[1] && tail[2] == inner[2];
  }

  /** For a name and an address without '#', the deletion is decided by what comes after them. */
  lemma DeletionByTail(name: string, address: string, subDir: string, marker: string, resourceGroup: string)
    requires '#' !in name && '#' !in address && '#' !in marker
    ensures var tail := Split(subDir, '#') + [marker] + Split(resourceGroup, '#');
            DeletionFor(PrintId(name, address, subDir, marker, resourceGroup)) ==
            if tail[1] != "t" then NoCall else if tail[2] == "" then GroupMissing else DeleteCluster(tail[2], name)
  {
    hide Split, PrintId;
    PrintedSegments(name, address, subDir, marker, resourceGroup);
    SplitAtom(marker, '#');
    SplitAtom(name, '#');
    SplitAtom(address, '#');
    var tail := Split(subDir, '#') + [marker] + Split(resourceGroup, '#');
    var id := PrintId(name, address, subDir, marker, resourceGroup);
    assert Split(id, '#') == [name, FILESYSTEM, address] + tail;
    assert Split(id, '#')[4] == tail[1] && Split(id, '#')[5] == tail[2];
  }

  /** A sub-directory such as a#t makes the ID of a static volume read as that of a dynamic one in resource
      group f. */
  lemma HashInSubDirMisleads(name: string, address: string, a: string, resourceGroup: string)
    requires '#' !in name && '#' !in address && '#' !in a
    ensures DeletionFor(PrintId(name, address, a + "#" + "t", "f", resourceGroup)) == DeleteCluster("f", name)
  {
    PrintedSegments(name, address, a + "#" + "t", "f", resourceGroup);
    SplitAppend(a, "t", '#');
    SplitAtom(name, '#');
    SplitAtom(address, '#');
    SplitAtom(a, '#');
    SplitAtom("t", '#');
    SplitAtom("f", '#');
    assert Split(PrintId(name, address, a + "#" + "t", "f", resourceGroup), '#')
        == [name, FILESYSTEM, address, a, "t", "f"] + Split(resourceGroup, '#');
  }

  // ---- Interpolation of the sub-directory ----

  /** The placeholder a metadata key fills. */
  function TokenText(k: Param): string
  {
    match k
    case PodName => "${pod.metadata.name}"
    case PodNamespace => "${pod.metadata.namespace}"
    case PodUid => "${pod.metadata.uid}"
    case ServiceAccountName => "${serviceAccount.metadata.name}"
    case PvcNamespace => "${pvc.metadata.namespace}"
    case PvcName => "${pvc.metadata.name}"
    case PvName => "${pv.metadata.name}"
    case _ => ""
  }

  predicate IsMetadata(k: Param)
  {
    k.PodName? || k.PodNamespace? || k.PodUid? || k.ServiceAccountName? || k.PvcNamespace? || k.PvcName? || k.PvName?
  }

  lemma PlaceholdersAreTokens(k: Param)
    requires IsMetadata(k)
    ensures IsToken(TokenText(k))
  {
    hide TokenText, IsToken;
    if k.PodName? || k.PvName? {
      NameTokens(k);
    } else if k.PodNamespace? || k.PvcNamespace? {
      NamespaceTokens(k);
    } else if k.PodUid? || k.PvcName? {
      OtherTokens(k);
    } else {
      ServiceAccountToken();
    }
  }

  lemma NameTokens(k: Param)
    requires k.PodName? || k.PvName?
    ensures IsToken(TokenText(k))
  {
  }

  lemma NamespaceTokens(k: Param)
    requires k.PodNamespace? || k.PvcNamespace?
    ensures IsToken(TokenText(k))
  {
  }

  lemma OtherTokens(k: Param)
    requires k.PodUid? || k.PvcName?
    ensures IsToken(TokenText(k))
  {
  }

  lemma ServiceAccountToken()
    ensures IsToken(TokenText(ServiceAccountName))
  {
  }

  lemma PlaceholdersAreDistinct(j: Param, k: Param)
    requires IsMetadata(j) && IsMetadata(k) && TokenText(j) == TokenText(k)
    ensures j == k
  {
    assert TokenText(j)[3] == TokenText(k)[3];
  }

  /** The replacements a context stands for. */
  ghost predicate Substitutes(f: map<string, string>, subs: map<string, string>)
  {
    && (forall t | t in subs :: exists k :: IsMetadata(k) && t == TokenText(k) && Lookup(f, k) == Some(subs[t]))
    && (forall k | IsMetadata(k) && Lookup(f, k).Some? :: TokenText(k) in subs)
  }

  lemma SubstitutesStep(f: map<string, string>, subs: map<string, string>, x: string, v: string)
    requires Substitutes(f, subs) && x !in f
    ensures match Classify(x)
            case Some(k) => Substitutes(f[x := v], if IsMetadata(k) then subs[TokenText(k) := v] else subs)
            case None => Substitutes(f[x := v], subs)
  {
    var g := f[x := v];
    StepAll(f, x, v);
    var c := Classify(x);
    assert c.Some? ==> Lookup(f, c.value) == None;
    var next := if c.Some? && IsMetadata(c.value) then subs[TokenText(c.value) := v] else subs;
    hide KeyText, Lookup, TokenText, Classify;
    forall t | t in next
      ensures exists k :: IsMetadata(k) && t == TokenText(k) && Lookup(g, k) == Some(next[t])
    {
      if c.Some? && IsMetadata(c.value) && t == TokenText(c.value) {
        assert Lookup(g, c.value) == Some(next[t]);
      } else {
        var k :| IsMetadata(k) && t == TokenText(k) && Lookup(f, k) == Some(subs[t]);
        assert Lookup(g, k) == Some(next[t]);
      }
    }
  }

  /** The texts a sub-directory can become for a context. */
  ghost predicate Interpolates(f: map<string, string>, subDir: string, r: string)
  {
    exists subs :: Substitutes(f, subs) && CanBecome(subDir, subs, r)
  }

  /** interpolateSubDirVariables, in whatever orders the two maps are iterated. */
  method InterpolateSubDirVariables(m: map<string, string>, subDir: string) returns (r: string)
    requires FoldDistinct(m)
    ensures Interpolates(Folded(m), subDir, r)
  {
    hide KeyText, Lower, FoldDistinct, Folded, Lookup, TokenText, Substitutes;
    var replacements: map<string, string> := map[];
    var left := m.Keys;
    NothingSubstituted(m);
    while left != {}
      invariant left <= m.Keys && FoldDistinct(Seen(m, left))
      invariant Substitutes(Folded(Seen(m, left)), replacements)
      decreases left
    {
      var s :| s in left;
      SeeOneMore(m, left, s);
      SubstitutesStep(Folded(Seen(m, left)), replacements, Lower(s), m[s]);
      left := left - {s};
      match Classify(Lower(s)) {
        case Some(k) =>
          if IsMetadata(k) {
            replacements := replacements[TokenText(k) := m[s]];
          }
        case None =>
      }
    }
    assert Seen(m, left) == m;
    r := ReplaceWithMap(subDir, replacements);
  }

  /** If no value can be part of an occurrence of another placeholder, any sub-directory becomes the text with all
      placeholders replaced at once, and nothing else. */
  lemma InterpolationIsSimultaneous(f: map<string, string>, subs: map<string, string>, subDir: string, r: string)
    requires Substitutes(f, subs) && !Clash(subs)
    ensures Interpolates(f, subDir, r) <==> r == Scan(subDir, subs)
  {
    hide Substitutes, Scan, IsToken, Clash;
    SubstitutedTokens(f, subs);
    if Interpolates(f, subDir, r) {
      var found :| Substitutes(f, found) && CanBecome(subDir, found, r);
      SubstitutesIsDetermined(f, found, subs);
      var order :| IsOrder(found, order) && r == ReplaceInOrder(subDir, found, order);
      OrderIsScan(subDir, subs, order);
    }
    var order := SomeOrder(subs);
    OrderIsScan(subDir, subs, order);
    assert CanBecome(subDir, subs, Scan(subDir, subs));
  }

  /** For a template whose literal parts hold no '$' it is enough that no placeholder can start in the value of
      another one, in particular that the metadata values hold no '$'. */
  lemma TemplateInterpolation(f: map<string, string>, subs: map<string, string>, pieces: seq<Piece>, r: string)
    requires Substitutes(f, subs) && WellFormed(pieces)
    requires !PlainClash(subs) || forall t | t in subs :: '$' !in subs[t]
    ensures Interpolates(f, Render(pieces), r) <==> r == Render(FillAll(pieces, subs))
  {
    hide Substitutes, WellFormed, Render, FillAll, IsToken;
    SubstitutedTokens(f, subs);
    if PlainClash(subs) { DollarFreeValuesDoNotStart(subs); }
    hide PlainClash;
    if Interpolates(f, Render(pieces), r) {
      var found :| Substitutes(f, found) && CanBecome(Render(pieces), found, r);
      SubstitutesIsDetermined(f, found, subs);
      var order :| IsOrder(found, order) && r == ReplaceInOrder(Render(pieces), found, order);
      OrderDoesNotMatter(pieces, subs, order);
    }
    var order := SomeOrder(subs);
    OrderDoesNotMatter(pieces, subs, order);
    assert CanBecome(Render(pieces), subs, Render(FillAll(pieces, subs)));
  }

  /** A context gives every sub-directory one result exactly when no value can be part of an occurrence of another
      placeholder that is replaced by something else. */
  lemma InterpolationIsDeterminedIff(f: map<string, string>, subs: map<string, string>)
    requires Substitutes(f, subs)
    ensures (forall subDir, r, q | Interpolates(f, subDir, r) && Interpolates(f, subDir, q) :: r == q) <==> !Clash(subs)
  {
    hide Substitutes, IsToken, Scan, Agrees;
    SubstitutedTokens(f, subs);
    if Clash(subs) {
      var s, t :| s in subs && t in subs && s != t && subs[t] != t && Overlaps(subs[s], t);
      var j :| -|t| < j < |subs[s]| && Agrees(subs[s], t, j);
      var text, a, b := ClashShows(subs, s, t, j);
      var r, q := ReplaceInOrder(text, subs, a), ReplaceInOrder(text, subs, b);
      assert CanBecome(text, subs, r) && CanBecome(text, subs, q);
      assert Interpolates(f, text, r) && Interpolates(f, text, q);
    } else {
      hide Clash, Interpolates;
      forall subDir, r, q | Interpolates(f, subDir, r) && Interpolates(f, subDir, q) ensures r == q {
        InterpolationIsSimultaneous(f, subs, subDir, r);
        InterpolationIsSimultaneous(f, subs, subDir, q);
      }
    }
  }

  /** Each placeholder is filled with the value of its own key. */
  lemma PlaceholderBecomes(f: map<string, string>, subs: map<string, string>, k: Param, x: string, r: string)
    requires Substitutes(f, subs) && !Clash(subs) && IsMetadata(k) && Lookup(f, k) == Some(x)
    ensures Interpolates(f, TokenText(k), r) <==> r == x
  {
    hide KeyText, TokenText, Lookup, Clash, IsToken, Scan, Interpolates;
    var t := TokenText(k);
    var j :| IsMetadata(j) && t == TokenText(j) && Lookup(f, j) == Some(subs[t]);
    PlaceholdersAreDistinct(j, k);
    SubstitutedTokens(f, subs);
    hide Substitutes;
    InterpolationIsSimultaneous(f, subs, t, r);
    ScanKey(t, subs, t);
    assert t[|t|..] == "";
    ScanEmpty(subs);
    assert x + "" == x;
  }

  /** A key of the context and the placeholder it fills, as both are written. */
  predicate Fills(key: string, placeholder: string)
  {
    || (key == "csi.storage.k8s.io/pod.name" && placeholder == "${pod.metadata.name}")
    || (key == "csi.storage.k8s.io/pod.namespace" && placeholder == "${pod.metadata.namespace}")
    || (key == "csi.storage.k8s.io/pod.uid" && placeholder == "${pod.metadata.uid}")
    || (key == "csi.storage.k8s.io/serviceaccount.name" && placeholder == "${serviceAccount.metadata.name}")
    || (key == "csi.storage.k8s.io/pvc/name" && placeholder == "${pvc.metadata.name}")
    || (key == "csi.storage.k8s.io/pvc/namespace" && placeholder == "${pvc.metadata.namespace}")
    || (key == "csi.storage.k8s.io/pv/name" && placeholder == "${pv.metadata.name}")
  }

  /** The seven placeholders: a context that gives a key a value makes the sub-directory that is its placeholder become
      that value, and nothing else, if nothing clashes. */
  lemma PlaceholdersFilled(f: map<string, string>, subs: map<string, string>, key: string, placeholder: string,
                           r: string)
    requires Substitutes(f, subs) && !Clash(subs) && Fills(key, placeholder) && key in f
    ensures Interpolates(f, placeholder, r) <==> r == f[key]
  {
    var k := FilledBy(key, placeholder);
    hide KeyText, TokenText, Fills, Substitutes, Clash, Interpolates, IsMetadata;
    PlaceholderBecomes(f, subs, k, f[key], r);
  }

  lemma FilledBy(key: string, placeholder: string) returns (k: Param)
    requires Fills(key, placeholder)
    ensures IsMetadata(k) && KeyText(k) == key && TokenText(k) == placeholder
  {
    if key == KeyText(PodName) && placeholder == TokenText(PodName) {
      k := PodName;
    } else if key == KeyText(PodNamespace) && placeholder == TokenText(PodNamespace) {
      k := PodNamespace;
    } else if key == KeyText(PodUid) && placeholder == TokenText(PodUid) {
      k := PodUid;
    } else if key == KeyText(ServiceAccountName) && placeholder == TokenText(ServiceAccountName) {
      k := ServiceAccountName;
    } else if key == KeyText(PvcName) && placeholder == TokenText(PvcName) {
      k := PvcName;
    } else if key == KeyText(PvcNamespace) && placeholder == TokenText(PvcNamespace) {
      k := PvcNamespace;
    } else {
      k := PvName;
    }
  }

  /** Values without '$' do not prevent that the order shows: the placeholder of j, cut in two by that of k whose
      value completes it, can become the value of j or the placeholder of j. */
  lemma CutPlaceholderShows(j: Param, k: Param, n: nat, x: string)
    requires IsMetadata(j) && IsMetadata(k) && j != k && 0 < n < |TokenText(j)|
    ensures var f := map[KeyText(k) := TokenText(j)[n..], KeyText(j) := x];
            var subDir := TokenText(j)[..n] + TokenText(k);
            Interpolates(f, subDir, x) && Interpolates(f, subDir, TokenText(j)) && '$' !in TokenText(j)[n..]
  {
    hide KeyText, TokenText, IsToken, Substitutes;
    var t, s := TokenText(j), TokenText(k);
    TwoSubstituted(k, j, t[n..], x);
    if t == s { PlaceholdersAreDistinct(j, k); }
    PlaceholdersAreTokens(j);
    PlaceholdersAreTokens(k);
    CutPlaceholderShowsOrder(s, t, n, x);
    var subs := map[s := t[n..], t := x];
    assert CanBecome(t[..n] + s, subs, x) && CanBecome(t[..n] + s, subs, t);
  }

  /** Without the hypothesis the order shows: with metadata j whose value is the placeholder of metadata k, the
      placeholder of j can become the value of k or stay the placeholder of k. */
  lemma PlaceholderValuesShowOrder(j: Param, k: Param, x: string)
    requires IsMetadata(j) && IsMetadata(k) && j != k
    ensures var f := map[KeyText(j) := TokenText(k), KeyText(k) := x];
            Interpolates(f, TokenText(j), x) && Interpolates(f, TokenText(j), TokenText(k))
  {
    hide KeyText, TokenText, IsToken, Substitutes;
    var f := map[KeyText(j) := TokenText(k), KeyText(k) := x];
    var subs := map[TokenText(j) := TokenText(k), TokenText(k) := x];
    TwoSubstituted(j, k, TokenText(k), x);
    if TokenText(j) == TokenText(k) { PlaceholdersAreDistinct(j, k); }
    PlaceholdersAreTokens(j);
    PlaceholdersAreTokens(k);
    OrderMattersForDollarValues(TokenText(j), TokenText(k), x);
    assert CanBecome(TokenText(j), subs, x) && CanBecome(TokenText(j), subs, TokenText(k));
  }

  lemma TwoSubstituted(j: Param, k: Param, x: string, y: string)
    requires IsMetadata(j) && IsMetadata(k) && j != k
    ensures Substitutes(map[KeyText(j) := x, KeyText(k) := y], map[TokenText(j) := x, TokenText(k) := y])
  {
    hide KeyText, TokenText;
    var f := map[KeyText(j) := x, KeyText(k) := y];
    var subs := map[TokenText(j) := x, TokenText(k) := y];
    forall a, b | KeyText(a) == KeyText(b) ensures a == b { KeysAreDistinct(a, b); }
    if TokenText(j) == TokenText(k) { PlaceholdersAreDistinct(j, k); }
    assert Lookup(f, j) == Some(x) && Lookup(f, k) == Some(y);
    hide IsMetadata;
  }

  /** Such a context: the pod is called by the placeholder of the volume's name. */
  lemma PodNameShowsOrder(x: string)
    ensures var m := map[KeyText(PodName) := "${pv.metadata.name}", KeyText(PvName) := x];
            && FoldDistinct(m)
            && Interpolates(Folded(m), "${pod.metadata.name}", x)
            && Interpolates(Folded(m), "${pod.metadata.name}", "${pv.metadata.name}")
  {
    hide KeyText, Lower, Interpolates;
    var m := map[KeyText(PodName) := "${pv.metadata.name}", KeyText(PvName) := x];
    KeysAreLower(PodName);
    KeysAreLower(PvName);
    hide FoldDistinct, Folded;
    LoweredMap(m);
    PlaceholderValuesShowOrder(PodName, PvName, x);
  }

  lemma NothingSubstituted(m: map<string, string>)
    ensures FoldDistinct(Seen(m, m.Keys)) && Substitutes(Folded(Seen(m, m.Keys)), map[])
  {
    NothingSeen(m);
    hide KeyText, Lookup;
  }

  lemma SubstitutedTokens(f: map<string, string>, subs: map<string, string>)
    requires Substitutes(f, subs)
    ensures forall t | t in subs :: IsToken(t)
  {
    forall t | t in subs ensures IsToken(t) {
      var k :| IsMetadata(k) && t == TokenText(k) && Lookup(f, k) == Some(subs[t]);
      PlaceholdersAreTokens(k);
    }
  }

  /** The replacements are determined by the context. */
  lemma SubstitutesIsDetermined(f: map<string, string>, a: map<string, string>, b: map<string, string>)
    requires Substitutes(f, a) && Substitutes(f, b)
    ensures a == b
  {
    SubstitutesIsIncluded(f, a, b);
    SubstitutesIsIncluded(f, b, a);
  }

  lemma SubstitutesIsIncluded(f: map<string, string>, a: map<string, string>, b: map<string, string>)
    requires Substitutes(f, a) && Substitutes(f, b)
    ensures forall t | t in a :: t in b && b[t] == a[t]
  {
    forall t | t in a ensures t in b && b[t] == a[t] {
      var j :| IsMetadata(j) && t == TokenText(j) && Lookup(f, j) == Some(a[t]);
      assert TokenText(j) in b;
      var k :| IsMetadata(k) && t == TokenText(k) && Lookup(f, k) == Some(b[t]);
      PlaceholdersAreDistinct(j, k);
    }
  }
}
