/** The table of Lustre SKUs available in a location. */
module Skus {
  import opened Text
  import opened GrpcErrors
  import opened Paging
  import opened Capacity

  const RESOURCE_TYPE := "amlFilesystems"
  const INCREMENT := "OSS capacity increment (TiB)"
  const MAXIMUM := "default maximum capacity (TiB)"

  /** A capability; its value as strconv.ParseInt reads it, if it does. */
  datatype Capability = Capability(name: string, parsed: Option<int64>)
  /** A location's entry; absent zones are different from none. */
  datatype LocationInfo = LocationInfo(location: Option<string>, zones: Option<seq<Option<string>>>)
  datatype Sku = Sku(name: string, resourceType: string, locations: seq<string>,
                     locationInfo: seq<LocationInfo>, capabilities: seq<Capability>)
  datatype SkuValue = SkuValue(incrementInTib: int64, maximumInTib: int64, zones: seq<string>)

  // ---- Sorting ----

  /** The byte-wise order of strings. */
  predicate Below(a: string, b: string)
  {
    a == "" || (b != "" && (a[0] < b[0] || (a[0] == b[0] && Below(a[1..], b[1..]))))
  }

  lemma {:induction false} BelowIsTotal(a: string, b: string)
    ensures Below(a, b) || Below(b, a)
  {
    if a != "" && b != "" { BelowIsTotal(a[1..], b[1..]); }
  }

  lemma {:induction false} BelowIsTransitive(a: string, b: string, c: string)
    requires Below(a, b) && Below(b, c)
    ensures Below(a, c)
  {
    if a != "" && a[0] == b[0] && b[0] == c[0] { BelowIsTransitive(a[1..], b[1..], c[1..]); }
  }

  lemma {:induction false} BelowIsAntisymmetric(a: string, b: string)
    requires Below(a, b) && Below(b, a)
    ensures a == b
  {
    if a != "" {
      BelowIsAntisymmetric(a[1..], b[1..]);
      assert a == [a[0]] + a[1..] && b == [b[0]] + b[1..];
    }
  }

  predicate Sorted(s: seq<string>)
  {
    forall i, j | 0 <= i < j < |s| :: Below(s[i], s[j])
  }

  function Insert(x: string, s: seq<string>): (r: seq<string>)
    ensures multiset(r) == multiset(s) + multiset{x}
  {
    if s == [] || Below(x, s[0]) then
      assert multiset([x] + s) == multiset{x} + multiset(s);
      [x] + s
    else
      var r := [s[0]] + Insert(x, s[1..]);
      assert s == [s[0]] + s[1..];
      r
  }

  lemma {:induction false} InsertSorts(x: string, s: seq<string>)
    requires Sorted(s)
    ensures Sorted(Insert(x, s))
  {
    if s == [] {
    } else if Below(x, s[0]) {
      forall j | 0 <= j < |s| ensures Below(x, s[j]) {
        if j > 0 { BelowIsTransitive(x, s[0], s[j]); }
      }
    } else {
      BelowIsTotal(x, s[0]);
      InsertSorts(x, s[1..]);
      var rest := Insert(x, s[1..]);
      forall j | 0 <= j < |rest| ensures Below(s[0], rest[j]) {
        assert rest[j] in multiset(rest);
        assert rest[j] == x || rest[j] in s[1..];
      }
    }
  }

  /** sort.Strings. */
  function SortStrings(s: seq<string>): (r: seq<string>)
    ensures multiset(r) == multiset(s)
  {
    if s == [] then []
    else
      assert s == [s[0]] + s[1..];
      Insert(s[0], SortStrings(s[1..]))
  }

  lemma {:induction false} SortStringsSorts(s: seq<string>)
    ensures Sorted(SortStrings(s))
  {
    if s != [] {
      SortStringsSorts(s[1..]);
      InsertSorts(s[0], SortStrings(s[1..]));
    }
  }

  /** A sorted permutation is the only one, so the sorting algorithm does not matter. */
  lemma {:induction false} SortedIsUnique(a: seq<string>, b: seq<string>)
    requires Sorted(a) && Sorted(b) && multiset(a) == multiset(b)
    ensures a == b
  {
    hide Below;
    assert |multiset(a)| == |a| && |multiset(b)| == |b|;
    if a != [] {
      assert a[0] in multiset(b) && b[0] in multiset(a);
      BelowFirst(a, b[0]);
      BelowFirst(b, a[0]);
      BelowIsAntisymmetric(a[0], b[0]);
      FirstRemoved(a);
      FirstRemoved(b);
      SortedIsUnique(a[1..], b[1..]);
    }
  }

  lemma FirstRemoved(a: seq<string>)
    requires a != [] && Sorted(a)
    ensures a == [a[0]] + a[1..] && multiset(a[1..]) == multiset(a) - multiset{a[0]} && Sorted(a[1..])
  {
    hide Below;
    assert a == [a[0]] + a[1..];
  }

  lemma {:induction false} BelowItself(x: string)
    ensures Below(x, x)
  {
    if x != "" { BelowItself(x[1..]); }
  }

  lemma BelowFirst(a: seq<string>, x: string)
    requires Sorted(a) && x in a
    ensures Below(a[0], x)
  {
    BelowItself(x);
  }

  // ---- One SKU ----

  predicate At(info: LocationInfo, location: string)
  {
    info.location.Some? && EqualFold(info.location.value, location)
  }

  function NonEmpty(zones: seq<Option<string>>): seq<string>
  {
    if zones == [] then []
    else (if zones[0].Some? && zones[0].value != "" then [zones[0].value] else []) + NonEmpty(zones[1..])
  }

  function ZonesAt(infos: seq<LocationInfo>, location: string): seq<string>
  {
    if infos == [] then []
    else (if At(infos[0], location) && infos[0].zones.Some? then NonEmpty(infos[0].zones.value) else [])
         + ZonesAt(infos[1..], location)
  }

  /** The SKU has an entry with a zone list for the location; without one the whole query fails. */
  predicate Located(sku: Sku, location: string)
  {
    exists i | i in sku.locationInfo :: At(i, location) && i.zones.Some?
  }

  /** The last readable value of a capability, or 0. */
  function CapabilityValue(capabilities: seq<Capability>, name: string): int64
  {
    if capabilities == [] then 0
    else
      var last := capabilities[|capabilities| - 1];
      if last.name == name && last.parsed.Some? then last.parsed.value
      else CapabilityValue(capabilities[..|capabilities| - 1], name)
  }

  function ValueFor(sku: Sku, location: string): SkuValue
  {
    SkuValue(CapabilityValue(sku.capabilities, INCREMENT), CapabilityValue(sku.capabilities, MAXIMUM),
             SortStrings(ZonesAt(sku.locationInfo, location)))
  }

  predicate Usable(sku: Sku, location: string)
  {
    ValueFor(sku, location).incrementInTib != 0 && ValueFor(sku, location).maximumInTib != 0
  }

  /** An AMLFS SKU offered in the location. */
  predicate Offered(sku: Sku, location: string)
  {
    sku.resourceType == RESOURCE_TYPE && exists l | l in sku.locations :: EqualFold(l, location)
  }

  // ---- The specification: a table over the concatenation of all pages ----

  /** The value of a name is that of the last usable offered SKU with the name. */
  function LastOf(skus: seq<Sku>, location: string, name: string): Option<SkuValue>
  {
    if skus == [] then None
    else
      var last := skus[|skus| - 1];
      if Offered(last, location) && Usable(last, location) && last.name == name then Some(ValueFor(last, location))
      else LastOf(skus[..|skus| - 1], location, name)
  }

  ghost predicate IsTable(skus: seq<Sku>, location: string, table: map<string, SkuValue>)
  {
    forall name :: LastOf(skus, location, name) == if name in table then Some(table[name]) else None
  }

  /** The query succeeds with the table of all SKUs, unless a page failed, an offered SKU lacks its location
      entry, or the table is empty. */
  ghost predicate IsAnswer(pages: seq<PageReply<Sku>>, location: string, r: Result<map<string, SkuValue>>)
  {
    if exists g | g in pages :: g.PageFailed? then r == Err(INTERNAL)
    else
      var skus := Concat(pages);
      if exists k | k in skus :: Offered(k, location) && !Located(k, location) then r == Err(INTERNAL)
      else match r
        case Ok(table) => table != map[] && IsTable(skus, location, table)
        case Err(e) => e == INTERNAL && IsTable(skus, location, map[])
  }

  // ---- The loops ----

  function OfType(skus: seq<Sku>): seq<Sku>
  {
    if skus == [] then []
    else OfType(skus[..|skus| - 1])
         + (if skus[|skus| - 1].resourceType == RESOURCE_TYPE then [skus[|skus| - 1]] else [])
  }

  function Matches(locations: seq<string>, location: string): nat
  {
    if locations == [] then 0
    else Matches(locations[..|locations| - 1], location)
         + (if EqualFold(locations[|locations| - 1], location) then 1 else 0)
  }

  function Repeat(sku: Sku, n: nat): seq<Sku>
  {
    seq(n, i => sku)
  }

  /** A SKU comes once for every one of its location entries that match. */
  function Expand(skus: seq<Sku>, location: string): seq<Sku>
  {
    if skus == [] then []
    else Expand(skus[..|skus| - 1], location) + Repeat(skus[|skus| - 1], Matches(skus[|skus| - 1].locations, location))
  }

  lemma {:induction false} OfTypeAppend(a: seq<Sku>, b: seq<Sku>)
    ensures OfType(a + b) == OfType(a) + OfType(b)
  {
    if b == [] {
      assert a + b == a;
    } else {
      assert (a + b)[..|a + b| - 1] == a + b[..|b| - 1];
      OfTypeAppend(a, b[..|b| - 1]);
    }
  }

  method CollectAmlfsSkus(pages: seq<PageReply<Sku>>) returns (r: Result<seq<Sku>>)
    ensures r.Err? <==> exists g | g in pages :: g.PageFailed?
    ensures r.Err? ==> r.error == INTERNAL
    ensures r.Ok? ==> r.value == OfType(Concat(pages))
  {
    var amlfs: seq<Sku> := [];
    for k := 0 to |pages|
      invariant forall g | g in pages[..k] :: g.Page?
      invariant amlfs == OfType(Concat(pages[..k]))
    {
      if pages[k].PageFailed? {
        return Err(INTERNAL);
      }
      assert pages[..k + 1] == pages[..k] + [pages[k]];
      ConcatAppend(pages[..k], pages[k]);
      OfTypeAppend(Concat(pages[..k]), pages[k].items);
      hide Concat, OfType;
      amlfs := AppendAmlfs(amlfs, pages[k].items);
    }
    assert pages[..|pages|] == pages;
    return Ok(amlfs);
  }

  method AppendAmlfs(amlfs: seq<Sku>, skus: seq<Sku>) returns (r: seq<Sku>)
    ensures r == amlfs + OfType(skus)
  {
    r := amlfs;
    for i := 0 to |skus|
      invariant r == amlfs + OfType(skus[..i])
    {
      assert skus[..i + 1][..i] == skus[..i];
      if skus[i].resourceType == RESOURCE_TYPE {
        r := r + [skus[i]];
      }
    }
    assert skus[..|skus|] == skus;
  }

  method SelectLocation(amlfs: seq<Sku>, location: string) returns (r: seq<Sku>)
    ensures r == Expand(amlfs, location)
  {
    r := [];
    for i := 0 to |amlfs|
      invariant r == Expand(amlfs[..i], location)
    {
      var sku := amlfs[i];
      for j := 0 to |sku.locations|
        invariant r == Expand(amlfs[..i], location) + Repeat(sku, Matches(sku.locations[..j], location))
      {
        assert sku.locations[..j + 1][..j] == sku.locations[..j];
        if EqualFold(sku.locations[j], location) {
          assert Repeat(sku, Matches(sku.locations[..j], location)) + [sku] ==
                   Repeat(sku, Matches(sku.locations[..j + 1], location));
          r := r + [sku];
        }
      }
      assert sku.locations[..|sku.locations|] == sku.locations;
      assert amlfs[..i + 1][..i] == amlfs[..i];
    }
    assert amlfs[..|amlfs|] == amlfs;
  }

  lemma {:induction false} NonEmptyAppend(a: seq<Option<string>>, z: Option<string>)
    ensures NonEmpty(a + [z]) == NonEmpty(a) + (if z.Some? && z.value != "" then [z.value] else [])
  {
    if a == [] {
      assert a + [z] == [z] && [z][1..] == [];
    } else {
      assert (a + [z])[1..] == a[1..] + [z] && (a + [z])[0] == a[0];
      NonEmptyAppend(a[1..], z);
    }
  }

  lemma {:induction false} ZonesAtAppend(a: seq<LocationInfo>, i: LocationInfo, location: string)
    ensures ZonesAt(a + [i], location) ==
            ZonesAt(a, location) + (if At(i, location) && i.zones.Some? then NonEmpty(i.zones.value) else [])
  {
    if a == [] {
      assert a + [i] == [i];
    } else {
      assert (a + [i])[1..] == a[1..] + [i];
      ZonesAtAppend(a[1..], i, location);
    }
  }

  method AppendZones(zones: seq<string>, entries: seq<Option<string>>) returns (r: seq<string>)
    ensures r == zones + NonEmpty(entries)
  {
    r := zones;
    for j := 0 to |entries|
      invariant r == zones + NonEmpty(entries[..j])
    {
      assert entries[..j + 1] == entries[..j] + [entries[j]];
      NonEmptyAppend(entries[..j], entries[j]);
      if entries[j].Some? && entries[j].value != "" {
        r := r + [entries[j].value];
      }
    }
    assert entries[..|entries|] == entries;
  }

  method ReadZones(infos: seq<LocationInfo>, location: string) returns (found: bool, zones: seq<string>)
    ensures found <==> exists i | i in infos :: At(i, location) && i.zones.Some?
    ensures zones == ZonesAt(infos, location)
  {
    hide At, NonEmpty;
    found, zones := false, [];
    for k := 0 to |infos|
      invariant found <==> exists i | i in infos[..k] :: At(i, location) && i.zones.Some?
      invariant zones == ZonesAt(infos[..k], location)
    {
      var info := infos[k];
      assert infos[..k + 1] == infos[..k] + [info];
      hide ZonesAt;
      ZonesAtAppend(infos[..k], info, location);
      if At(info, location) && info.zones.Some? {
        found := true;
        zones := AppendZones(zones, info.zones.value);
      }
    }
    assert infos[..|infos|] == infos;
  }

  method ReadCapabilities(capabilities: seq<Capability>) returns (increment: int64, maximum: int64)
    ensures increment == CapabilityValue(capabilities, INCREMENT)
    ensures maximum == CapabilityValue(capabilities, MAXIMUM)
  {
    increment, maximum := 0, 0;
    assert INCREMENT != MAXIMUM by { assert |INCREMENT| != |MAXIMUM|; }
    for i := 0 to |capabilities|
      invariant increment == CapabilityValue(capabilities[..i], INCREMENT)
      invariant maximum == CapabilityValue(capabilities[..i], MAXIMUM)
    {
      assert capabilities[..i + 1][..i] == capabilities[..i];
      var c := capabilities[i];
      if c.name == INCREMENT {
        if c.parsed.Some? {
          increment := c.parsed.value;
        }
      } else if c.name == MAXIMUM {
        if c.parsed.Some? {
          maximum := c.parsed.value;
        }
      }
    }
    assert capabilities[..|capabilities|] == capabilities;
  }

  // ---- Filtering and duplicates do not change the table ----

  lemma {:induction false} LastOfAppend(a: seq<Sku>, b: seq<Sku>, location: string, name: string)
    ensures LastOf(a + b, location, name) ==
            if LastOf(b, location, name).Some? then LastOf(b, location, name) else LastOf(a, location, name)
  {
    if b == [] {
      assert a + b == a;
    } else {
      assert (a + b)[..|a + b| - 1] == a + b[..|b| - 1];
      LastOfAppend(a, b[..|b| - 1], location, name);
    }
  }

  lemma {:induction false} LastOfRepeat(sku: Sku, n: nat, location: string, name: string)
    ensures LastOf(Repeat(sku, n), location, name) == if n == 0 then None else LastOf([sku], location, name)
  {
    if n > 0 {
      assert [sku][..0] == [];
      assert Repeat(sku, n)[..n - 1] == Repeat(sku, n - 1);
      LastOfRepeat(sku, n - 1, location, name);
    }
  }

  lemma {:induction false} MatchesMeansOffered(locations: seq<string>, location: string)
    ensures Matches(locations, location) > 0 <==> exists l | l in locations :: EqualFold(l, location)
  {
    if locations != [] {
      var n := |locations| - 1;
      MatchesMeansOffered(locations[..n], location);
      assert locations == locations[..n] + [locations[n]];
    }
  }

  lemma {:induction false} ExpandedTable(skus: seq<Sku>, location: string, name: string)
    ensures LastOf(Expand(OfType(skus), location), location, name) == LastOf(skus, location, name)
  {
    if skus != [] {
      var n := |skus| - 1;
      var last := skus[n];
      ExpandedTable(skus[..n], location, name);
      if last.resourceType == RESOURCE_TYPE {
        var copies := Repeat(last, Matches(last.locations, location));
        assert OfType(skus)[..|OfType(skus)| - 1] == OfType(skus[..n]);
        LastOfAppend(Expand(OfType(skus[..n]), location), copies, location, name);
        LastOfRepeat(last, |copies|, location, name);
        MatchesMeansOffered(last.locations, location);
        assert [last][..0] == [];
      } else {
        assert OfType(skus) == OfType(skus[..n]);
      }
    }
  }

  lemma {:induction false} ExpandedMembers(skus: seq<Sku>, location: string, k: Sku)
    ensures k in Expand(OfType(skus), location) <==> k in skus && Offered(k, location)
  {
    if skus != [] {
      var n := |skus| - 1;
      var last := skus[n];
      assert skus == skus[..n] + [last];
      ExpandedMembers(skus[..n], location, k);
      MatchesMeansOffered(last.locations, location);
      if last.resourceType == RESOURCE_TYPE {
        assert OfType(skus)[..|OfType(skus)| - 1] == OfType(skus[..n]);
        InCopies(last, Matches(last.locations, location), k);
        hide Repeat, Matches;
      } else {
        assert OfType(skus) == OfType(skus[..n]);
      }
    }
  }

  lemma InCopies(sku: Sku, n: nat, k: Sku)
    ensures k in Repeat(sku, n) <==> n > 0 && k == sku
  {
    if n > 0 {
      assert Repeat(sku, n)[0] == sku;
    }
  }

  method FillTable(skus: seq<Sku>, location: string) returns (r: Result<map<string, SkuValue>>)
    requires forall k | k in skus :: Offered(k, location)
    ensures r.Err? <==> exists k | k in skus :: !Located(k, location)
    ensures r.Err? ==> r.error == INTERNAL
    ensures r.Ok? ==> IsTable(skus, location, r.value)
  {
    var table: map<string, SkuValue> := map[];
    for i := 0 to |skus|
      invariant forall k | k in skus[..i] :: Located(k, location)
      invariant IsTable(skus[..i], location, table)
    {
      var sku := skus[i];
      var found, zones := ReadZones(sku.locationInfo, location);
      if !found {
        assert sku in skus && !Located(sku, location);
        return Err(INTERNAL);
      }
      var increment, maximum := ReadCapabilities(sku.capabilities);
      assert skus[..i + 1][..i] == skus[..i];
      assert Offered(sku, location);
      ghost var before := table;
      if increment != 0 && maximum != 0 {
        table := table[sku.name := SkuValue(increment, maximum, SortStrings(zones))];
      }
      forall name ensures LastOf(skus[..i + 1], location, name) == if name in table then Some(table[name]) else None {
        assert LastOf(skus[..i], location, name) == if name in before then Some(before[name]) else None;
      }
    }
    assert skus[..|skus|] == skus;
    return Ok(table);
  }

  /** GetSkuValuesForLocation refines the specification. */
  method GetSkuValuesForLocation(pages: seq<PageReply<Sku>>, location: string)
    returns (r: Result<map<string, SkuValue>>)
    ensures IsAnswer(pages, location, r)
  {
    var amlfs := CollectAmlfsSkus(pages);
    if amlfs.Err? {
      return Err(amlfs.error);
    }
    ghost var skus := Concat(pages);
    forall k ensures k in Expand(OfType(skus), location) <==> k in skus && Offered(k, location) {
      ExpandedMembers(skus, location, k);
    }
    forall name ensures LastOf(Expand(OfType(skus), location), location, name) == LastOf(skus, location, name) {
      ExpandedTable(skus, location, name);
    }
    if amlfs.value == [] {
      assert Expand([], location) == [];
      return Err(INTERNAL);
    }
    var selected := SelectLocation(amlfs.value, location);
    if selected == [] {
      return Err(INTERNAL);
    }
    var table := FillTable(selected, location);
    if table.Err? {
      return Err(table.error);
    }
    if table.value == map[] {
      return Err(INTERNAL);
    }
    return table;
  }

  /** The answer is determined by the concatenation of the pages: how the SKUs are spread over pages does not
      matter. */
  lemma AnswerDependsOnConcatenation(a: seq<PageReply<Sku>>, b: seq<PageReply<Sku>>, location: string,
                                     r: Result<map<string, SkuValue>>, q: Result<map<string, SkuValue>>)
    requires (forall g | g in a :: g.Page?) && (forall g | g in b :: g.Page?)
    requires Concat(a) == Concat(b) && IsAnswer(a, location, r) && IsAnswer(b, location, q)
    ensures r == q
  {
    if r.Ok? && q.Ok? {
      TableIsDetermined(Concat(a), location, r.value, q.value);
    } else if r.Ok? {
      TableIsDetermined(Concat(a), location, r.value, map[]);
    } else if q.Ok? {
      TableIsDetermined(Concat(a), location, q.value, map[]);
    }
  }

  /** The same SKUs, with their location entries repeated or in another order. */
  ghost predicate SameButRepeated(a: seq<Sku>, b: seq<Sku>)
  {
    && |a| == |b|
    && forall i | 0 <= i < |a| ::
         a[i].(locations := b[i].locations) == b[i] && forall l :: l in a[i].locations <==> l in b[i].locations
  }

  lemma {:induction false} RepeatedLocations(a: seq<Sku>, b: seq<Sku>, location: string, name: string)
    requires SameButRepeated(a, b)
    ensures LastOf(a, location, name) == LastOf(b, location, name)
  {
    hide EqualFold;
    if a != [] {
      var n := |a| - 1;
      assert Offered(a[n], location) == Offered(b[n], location);
      RepeatedLocations(a[..n], b[..n], location, name);
    }
  }

  /** Duplicate or reordered location entries of a SKU do not change the answer. */
  lemma DuplicateLocationsDoNotMatter(a: seq<PageReply<Sku>>, b: seq<PageReply<Sku>>, location: string,
                                      r: Result<map<string, SkuValue>>)
    requires (forall g | g in a :: g.Page?) && (forall g | g in b :: g.Page?) && SameButRepeated(Concat(a), Concat(b))
    requires IsAnswer(a, location, r)
    ensures IsAnswer(b, location, r)
  {
    hide Concat, LastOf, EqualFold;
    var s, t := Concat(a), Concat(b);
    forall name ensures LastOf(s, location, name) == LastOf(t, location, name) {
      RepeatedLocations(s, t, location, name);
    }
    forall i | 0 <= i < |s|
      ensures Offered(s[i], location) == Offered(t[i], location) && Located(s[i], location) == Located(t[i], location)
    {
    }
    assert (exists k | k in s :: Offered(k, location) && !Located(k, location)) <==>
           (exists k | k in t :: Offered(k, location) && !Located(k, location));
  }

  lemma TableIsDetermined(skus: seq<Sku>, location: string, a: map<string, SkuValue>, b: map<string, SkuValue>)
    requires IsTable(skus, location, a) && IsTable(skus, location, b)
    ensures a == b
  {
    forall name ensures (name in a <==> name in b) && (name in a ==> a[name] == b[name]) {
      assert LastOf(skus, location, name) == if name in a then Some(a[name]) else None;
      assert LastOf(skus, location, name) == if name in b then Some(b[name]) else None;
    }
  }

  /** What the driver makes of the pages for one SKU name: a failing page, an offered SKU without location entry and
      an empty table are Internal errors, a name that is not in the table is an invalid argument. */
  ghost function ValueIn(pages: seq<PageReply<Sku>>, location: string, name: string): Result<SkuValue>
  {
    if exists g | g in pages :: g.PageFailed? then Err(INTERNAL)
    else
      var skus := Concat(pages);
      if exists k | k in skus :: Offered(k, location) && !Located(k, location) then Err(INTERNAL)
      else if forall n :: LastOf(skus, location, n) == None then Err(INTERNAL)
      else match LastOf(skus, location, name)
        case None => Err(INVALID)
        case Some(v) => Ok(v)
  }

  /** Looking a name up in the answer gives that value. */
  lemma LookedUp(pages: seq<PageReply<Sku>>, location: string, r: Result<map<string, SkuValue>>, name: string)
    requires IsAnswer(pages, location, r)
    ensures ValueIn(pages, location, name) ==
            match r
            case Err(_) => Err(INTERNAL)
            case Ok(table) => if name in table then Ok(table[name]) else Err(INVALID)
  {
    hide LastOf, Concat, Offered, Located;
    if r.Ok? && r.value != map[] {
      var n :| n in r.value;
      assert r.Ok? && IsAnswer(pages, location, r);
    }
  }

  /** Pages that offer a SKU of any name and value without zones in a location. */
  function Offer(name: string, location: string, increment: int64, maximum: int64): seq<PageReply<Sku>>
  {
    [Page([Sku(name, RESOURCE_TYPE, [location], [LocationInfo(Some(location), Some([]))],
               [Capability(INCREMENT, Some(increment)), Capability(MAXIMUM, Some(maximum))])])]
  }

  lemma OfferIsFound(name: string, location: string, increment: int64, maximum: int64)
    requires increment != 0 && maximum != 0
    ensures ValueIn(Offer(name, location, increment, maximum), location, name) == Ok(SkuValue(increment, maximum, []))
  {
    hide EqualFold;
    var pages := Offer(name, location, increment, maximum);
    var sku := pages[0].items[0];
    assert Concat(pages) == [sku] by { assert pages[1..] == []; }
    assert EqualFold(location, location) by { SameFolds(location); }
    assert Offered(sku, location) by { assert location in sku.locations; }
    assert Located(sku, location) by { assert At(sku.locationInfo[0], location); }
    OfferedValue(sku, location, increment, maximum);
    hide ValueFor, Located, Offered, Concat;
    assert LastOf([sku], location, name) == Some(SkuValue(increment, maximum, []));
  }

  lemma SameFolds(s: string)
    ensures EqualFold(s, s)
  {
  }

  lemma OfferedValue(sku: Sku, location: string, increment: int64, maximum: int64)
    requires sku.locationInfo == [LocationInfo(Some(location), Some([]))]
    requires sku.capabilities == [Capability(INCREMENT, Some(increment)), Capability(MAXIMUM, Some(maximum))]
    ensures ValueFor(sku, location) == SkuValue(increment, maximum, [])
  {
    hide EqualFold;
    var c := sku.capabilities;
    assert INCREMENT[0] != MAXIMUM[0];
    assert c[..1] == [Capability(INCREMENT, Some(increment))];
    assert CapabilityValue(c, INCREMENT) == CapabilityValue(c[..1], INCREMENT) == increment;
    assert ZonesAt(sku.locationInfo, location) == [];
  }

  predicate Candidate(sku: Sku, location: string, name: string)
  {
    sku.name == name && Offered(sku, location) && Usable(sku, location)
  }

  /** The SKU at i is the last usable offered one of the name. */
  predicate LastAt(skus: seq<Sku>, location: string, name: string, i: int)
  {
    && 0 <= i < |skus| && Candidate(skus[i], location, name)
    && forall j | i < j < |skus| :: !Candidate(skus[j], location, name)
  }

  lemma {:induction false} LastOfMeaning(skus: seq<Sku>, location: string, name: string) returns (i: int)
    ensures match LastOf(skus, location, name)
            case None => i == -1 && forall j | 0 <= j < |skus| :: !Candidate(skus[j], location, name)
            case Some(v) => LastAt(skus, location, name, i) && v == ValueFor(skus[i], location)
  {
    hide ValueFor, Usable, Offered;
    i := -1;
    if skus != [] {
      var n := |skus| - 1;
      if Candidate(skus[n], location, name) {
        i := n;
      } else {
        i := LastOfMeaning(skus[..n], location, name);
        assert forall j | 0 <= j < n :: skus[j] == skus[..n][j];
      }
    }
  }

  /** Every entry of the table comes from the last usable offered SKU of its name; its increment and maximum
      are not zero, and its zones are the sorted permutation of that SKU's non-empty zones in the location.
      A name without such a SKU has no entry. */
  lemma EntryMeaning(skus: seq<Sku>, location: string, table: map<string, SkuValue>, name: string)
    requires IsTable(skus, location, table)
    ensures name in table <==> exists i :: LastAt(skus, location, name, i)
    ensures name in table ==>
              exists i ::
                && LastAt(skus, location, name, i)
                && table[name].incrementInTib == CapabilityValue(skus[i].capabilities, INCREMENT) != 0
                && table[name].maximumInTib == CapabilityValue(skus[i].capabilities, MAXIMUM) != 0
                && Sorted(table[name].zones)
                && multiset(table[name].zones) == multiset(ZonesAt(skus[i].locationInfo, location))
  {
    assert LastOf(skus, location, name) == if name in table then Some(table[name]) else None;
    var i := LastOfMeaning(skus, location, name);
    if name in table {
      SortStringsSorts(ZonesAt(skus[i].locationInfo, location));
      assert LastAt(skus, location, name, i);
    }
  }

  // ---- The same by the pages themselves ----

  /** The capability at i is the last one of the name whose value can be read. */
  predicate LastReadable(c: seq<Capability>, name: string, i: int)
  {
    && 0 <= i < |c| && c[i].name == name && c[i].parsed.Some?
    && forall j | i < j < |c| :: c[j].name == name ==> c[j].parsed.None?
  }

  lemma {:induction false} LastReadableIs(c: seq<Capability>, name: string) returns (i: int)
    ensures if i == -1 then
              CapabilityValue(c, name) == 0 && forall j | 0 <= j < |c| && c[j].name == name :: c[j].parsed.None?
            else LastReadable(c, name, i) && CapabilityValue(c, name) == c[i].parsed.value
  {
    i := -1;
    if c != [] {
      var n := |c| - 1;
      if c[n].name == name && c[n].parsed.Some? {
        i := n;
      } else {
        i := LastReadableIs(c[..n], name);
        assert forall j | 0 <= j < n :: c[..n][j] == c[j];
      }
    }
  }

  /** The last readable value of the name is there and is not zero. */
  ghost predicate HasNonZero(c: seq<Capability>, name: string)
  {
    exists i :: LastReadable(c, name, i) && c[i].parsed.value != 0
  }

  lemma NonZeroIff(c: seq<Capability>, name: string)
    ensures HasNonZero(c, name) <==> CapabilityValue(c, name) != 0
    ensures forall i | LastReadable(c, name, i) :: CapabilityValue(c, name) == c[i].parsed.value
  {
    var i := LastReadableIs(c, name);
    hide CapabilityValue;
    forall k | LastReadable(c, name, k) ensures k == i {
    }
  }

  /** A SKU that makes an entry of the name in the location. */
  ghost predicate Sells(k: Sku, location: string, name: string)
  {
    && k.name == name && k.resourceType == "amlFilesystems" && (exists l | l in k.locations :: EqualFold(l, location))
    && HasNonZero(k.capabilities, "OSS capacity increment (TiB)")
    && HasNonZero(k.capabilities, "default maximum capacity (TiB)")
  }

  lemma SellsIff(k: Sku, location: string, name: string)
    ensures Sells(k, location, name) <==> Candidate(k, location, name)
  {
    hide EqualFold, HasNonZero, CapabilityValue, SortStrings, ZonesAt;
    NonZeroIff(k.capabilities, INCREMENT);
    NonZeroIff(k.capabilities, MAXIMUM);
  }

  /** What is in the table, by the SKUs of the pages: a name is in it exactly when one of them sells it, and its entry
      is that of the last one that does: the last readable increment and maximum, and the sorted zones. */
  lemma TableIff(pages: seq<PageReply<Sku>>, location: string, table: map<string, SkuValue>, name: string)
    requires IsAnswer(pages, location, Ok(table))
    ensures (forall g | g in pages :: g.Page?)
    ensures name in table <==> exists k | k in Concat(pages) :: Sells(k, location, name)
    ensures name in table ==> exists n ::
              LastSeller(Concat(pages), location, name, n) && IsEntry(Concat(pages)[n], location, table[name])
  {
    hide Sells, Candidate, Concat, Located, Offered, LastOf, SortStrings;
    var skus := Concat(pages);
    forall k ensures Sells(k, location, name) <==> Candidate(k, location, name) { SellsIff(k, location, name); }
    assert LastOf(skus, location, name) == if name in table then Some(table[name]) else None;
    var i := LastOfMeaning(skus, location, name);
    if name in table {
      assert skus[i] in skus && LastSeller(skus, location, name, i);
      EntryOf(skus[i], location);
    } else {
      forall k | k in skus ensures !Sells(k, location, name) {
        var j :| 0 <= j < |skus| && skus[j] == k;
        assert !Candidate(skus[j], location, name);
      }
    }
  }

  ghost predicate LastSeller(skus: seq<Sku>, location: string, name: string, n: int)
  {
    && 0 <= n < |skus| && Sells(skus[n], location, name)
    && forall j | n < j < |skus| :: !Sells(skus[j], location, name)
  }

  /** The entry a SKU makes: its last readable values, and its non-empty zones in the location, sorted. */
  ghost predicate IsEntry(k: Sku, location: string, v: SkuValue)
  {
    && (forall i | LastReadable(k.capabilities, "OSS capacity increment (TiB)", i) ::
          v.incrementInTib == k.capabilities[i].parsed.value)
    && (forall i | LastReadable(k.capabilities, "default maximum capacity (TiB)", i) ::
          v.maximumInTib == k.capabilities[i].parsed.value)
    && Sorted(v.zones) && multiset(v.zones) == multiset(ZonesAt(k.locationInfo, location))
    && forall z :: z in v.zones <==> z != "" && exists i | i in k.locationInfo :: ListsZone(i, location, z)
  }

  predicate ListsZone(info: LocationInfo, location: string, z: string)
  {
    info.location.Some? && EqualFold(info.location.value, location) && info.zones.Some? && Some(z) in info.zones.value
  }

  lemma EntryOf(k: Sku, location: string)
    ensures IsEntry(k, location, ValueFor(k, location))
  {
    hide CapabilityValue, SortStrings, ZonesAt, Sorted, LastReadable, ListsZone;
    var zones := ZonesAt(k.locationInfo, location);
    NonZeroIff(k.capabilities, INCREMENT);
    NonZeroIff(k.capabilities, MAXIMUM);
    SortStringsSorts(zones);
    var sorted := SortStrings(zones);
    forall z ensures z in sorted <==> z != "" && exists i | i in k.locationInfo :: ListsZone(i, location, z) {
      ZoneListed(k.locationInfo, location, z);
      assert z in sorted <==> z in multiset(sorted);
      assert z in zones <==> z in multiset(zones);
    }
  }

  lemma {:induction false} ZoneListed(infos: seq<LocationInfo>, location: string, z: string)
    ensures z in ZonesAt(infos, location) <==> z != "" && exists i | i in infos :: ListsZone(i, location, z)
  {
    hide EqualFold;
    if infos != [] {
      ZoneListed(infos[1..], location, z);
      assert infos == [infos[0]] + infos[1..];
      if infos[0].zones.Some? {
        NonEmptyHolds(infos[0].zones.value, z);
      }
      assert z != "" && ListsZone(infos[0], location, z) <==>
             At(infos[0], location) && infos[0].zones.Some? && z in NonEmpty(infos[0].zones.value);
      hide ListsZone, At, NonEmpty;
      assert (exists i | i in infos :: ListsZone(i, location, z)) <==>
             ListsZone(infos[0], location, z) || exists i | i in infos[1..] :: ListsZone(i, location, z);
    }
  }

  lemma {:induction false} NonEmptyHolds(zones: seq<Option<string>>, z: string)
    ensures z in NonEmpty(zones) <==> z != "" && Some(z) in zones
  {
    if zones != [] {
      NonEmptyHolds(zones[1..], z);
      assert zones == [zones[0]] + zones[1..];
    }
  }

  /** The strings agree before i, and the first is smaller there. */
  predicate SmallerAt(a: string, b: string, i: int)
  {
    0 <= i < |a| && i < |b| && a[..i] == b[..i] && a[i] < b[i]
  }

  lemma SmallerLater(a: string, b: string, i: nat)
    requires a != "" && b != "" && a[0] == b[0]
    ensures SmallerAt(a, b, i + 1) <==> SmallerAt(a[1..], b[1..], i)
  {
    if i < |a| - 1 && i < |b| - 1 {
      assert a[..i + 1] == [a[0]] + a[1..][..i] && b[..i + 1] == [b[0]] + b[1..][..i];
      assert a[..i + 1][1..] == a[1..][..i] && b[..i + 1][1..] == b[1..][..i];
    }
  }

  /** The order of zones: by the first difference, or a beginning before what continues it. */
  lemma {:induction false} BelowMeaning(a: string, b: string)
    ensures Below(a, b) <==> a <= b || exists i :: SmallerAt(a, b, i)
  {
    if a != "" && b != "" {
      if a[0] == b[0] {
        BelowMeaning(a[1..], b[1..]);
        assert a == [a[0]] + a[1..] && b == [b[0]] + b[1..];
        assert a <= b <==> a[1..] <= b[1..];
        assert !SmallerAt(a, b, 0);
        hide SmallerAt;
        if i :| SmallerAt(a, b, i) {
          FirstIndex(a, b, i);
          SmallerLater(a, b, i - 1);
          assert SmallerAt(a[1..], b[1..], i - 1);
        }
        if i :| SmallerAt(a[1..], b[1..], i) {
          FirstIndex(a[1..], b[1..], i);
          SmallerLater(a, b, i);
          assert SmallerAt(a, b, i + 1);
        }
      } else {
        DifferentStart(a, b);
      }
    }
  }

  lemma FirstIndex(a: string, b: string, i: int)
    requires SmallerAt(a, b, i)
    ensures i >= 0
  {
  }

  lemma SameStart(a: string, b: string, i: int)
    requires SmallerAt(a, b, i) && i > 0
    ensures a[0] == b[0]
  {
    assert a[..i][0] == a[0] && b[..i][0] == b[0];
  }

  lemma DifferentStart(a: string, b: string)
    requires a != "" && b != "" && a[0] != b[0]
    ensures !(a <= b) && ((exists i :: SmallerAt(a, b, i)) <==> a[0] < b[0])
  {
    forall i | SmallerAt(a, b, i) ensures i == 0 {
      if i > 0 { SameStart(a, b, i); }
    }
    if a[0] < b[0] {
      assert SmallerAt(a, b, 0);
    }
  }

  /** When the query fails: a page failed, an AMLFS SKU is offered in the location without a zone list for it, or no SKU
      sells anything there. */
  lemma AnswerFailsIff(pages: seq<PageReply<Sku>>, location: string, r: Result<map<string, SkuValue>>)
    requires IsAnswer(pages, location, r)
    ensures r.Err? ==> r.error == Status(Internal, PLAIN)
    ensures r.Err? <==>
            || (exists g | g in pages :: g.PageFailed?)
            || (exists k | k in Concat(pages) :: IsUnlisted(k, location))
            || (forall k, name | k in Concat(pages) :: !Sells(k, location, name))
  {
    if forall g | g in pages :: g.Page? {
      var skus := Concat(pages);
      forall k ensures IsUnlisted(k, location) <==> Offered(k, location) && !Located(k, location) {
        UnlistedIff(k, location);
      }
      forall name ensures LastOf(skus, location, name) == None <==> forall k | k in skus :: !Sells(k, location, name) {
        NothingSoldIff(skus, location, name);
      }
      hide Concat, LastOf, Offered, Located, Sells, IsUnlisted;
      if r.Ok? {
        var name :| name in r.value;
        assert LastOf(skus, location, name) == Some(r.value[name]);
      } else if IsTable(skus, location, map[]) {
        forall k, name | k in skus ensures !Sells(k, location, name) {
          assert LastOf(skus, location, name) == None;
        }
      }
    }
  }

  /** An AMLFS SKU offered in the location that has no zone list for it. */
  predicate IsUnlisted(k: Sku, location: string)
  {
    && k.resourceType == "amlFilesystems" && (exists l | l in k.locations :: EqualFold(l, location))
    && forall i | i in k.locationInfo :: i.location.Some? && EqualFold(i.location.value, location) ==> i.zones.None?
  }

  lemma UnlistedIff(k: Sku, location: string)
    ensures IsUnlisted(k, location) <==> Offered(k, location) && !Located(k, location)
  {
    hide EqualFold;
  }

  lemma NothingSoldIff(skus: seq<Sku>, location: string, name: string)
    ensures LastOf(skus, location, name) == None <==> forall k | k in skus :: !Sells(k, location, name)
  {
    hide LastOf, Sells, Candidate;
    forall k ensures Sells(k, location, name) <==> Candidate(k, location, name) { SellsIff(k, location, name); }
    var i := LastOfMeaning(skus, location, name);
    if LastOf(skus, location, name) == None {
      forall k | k in skus ensures !Sells(k, location, name) {
        var j :| 0 <= j < |skus| && skus[j] == k;
      }
    } else {
      assert skus[i] in skus;
    }
  }
}
