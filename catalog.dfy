/** The device catalog of `scan_devices`: the scan result is filtered by name, then either
    listed in one of three orders or grouped by manufacturer. */
module Catalog {
  import opened Wrappers
  import opened Text
  import opened Sorting
  import opened Vendors

  /** One scan result: the address, the advertised name and signal strength (either may
      be missing), the Manufacturer Specific Data in arrival order, and the service UUIDs. */
  datatype Device = Device(
    address: string,
    name: Option<string>,
    rssi: Option<int>,
    manufacturerData: ManufacturerData,
    serviceUuids: seq<string>)

  datatype Group = Group(vendor: string, devices: seq<Device>)

  datatype Report = Listing(devices: seq<Device>) | Grouped(groups: seq<Group>)

  /** `device.name or "Unknown"`: a missing or empty name reads "Unknown". */
  function DisplayName(d: Device): string {
    if d.name.Some? && d.name.value != "" then d.name.value else "Unknown"
  }

  /** The filter keeps a device when it is missing or empty, or when its lower-case form
      occurs in the lower-case display name. */
  predicate Keeps(filter: Option<string>, d: Device) {
    filter.None? || filter.value == "" || Contains(Lower(DisplayName(d)), Lower(filter.value))
  }

  /** The devices the filter keeps, in scan order. */
  function Filtered(devices: seq<Device>, filter: Option<string>): seq<Device>
    decreases |devices|
  {
    if devices == [] then []
    else
      var last := devices[|devices| - 1];
      Filtered(devices[..|devices| - 1], filter) + (if Keeps(filter, last) then [last] else [])
  }

  /** `x[2].rssi if x[2].rssi else -100`: a missing reading and a reading of 0 both count
      as -100. */
  function RssiKey(d: Device): int {
    if d.rssi.Some? && d.rssi.value != 0 then d.rssi.value else -100
  }

  /** `(x[1].name or "zzz").lower()`. */
  function NameKey(d: Device): string {
    Lower(if d.name.Some? && d.name.value != "" then d.name.value else "zzz")
  }

  /** The name of the device's primary manufacturer: the group key. */
  function VendorName(d: Device): string {
    DeviceManufacturer(d.manufacturerData).1
  }

  function VendorKey(d: Device): string {
    Lower(VendorName(d))
  }

  /** `reverse=True` on integer keys: the converse order. */
  predicate AtLeast(a: int, b: int) {
    a >= b
  }

  /** Python's order on `(x[0] == "Unknown", x[0])`: False before True, then the names. */
  predicate RankLe(a: (bool, string), b: (bool, string)) {
    (!a.0 && b.0) || (a.0 == b.0 && LexLe(a.1, b.1))
  }

  function GroupRank(g: Group): (bool, string) {
    (g.vendor == "Unknown", g.vendor)
  }

  /** The listing for each `sort_by`; any other value leaves the scan order. */
  function SortListing(devices: seq<Device>, sortBy: string): seq<Device> {
    if sortBy == "rssi" then SortBy(devices, RssiKey, AtLeast)
    else if sortBy == "name" then SortBy(devices, NameKey, LexLe)
    else if sortBy == "manufacturer" then SortBy(devices, VendorKey, LexLe)
    else devices
  }

  /** The manufacturer names in order of first appearance: the key order of the
      `defaultdict`. */
  function VendorOrder(devices: seq<Device>): (order: seq<string>)
    ensures Distinct(order)
    ensures forall d :: d in devices ==> VendorName(d) in order
    ensures forall n :: n in order ==> exists d :: d in devices && VendorName(d) == n
    decreases |devices|
  {
    if devices == [] then []
    else
      var init := devices[..|devices| - 1];
      var last := devices[|devices| - 1];
      assert devices == init + [last];
      var order := VendorOrder(init);
      if VendorName(last) in order then order else order + [VendorName(last)]
  }

  /** `groups.items()`: each manufacturer with its devices in scan order. */
  function VendorGroups(devices: seq<Device>): seq<Group> {
    var order := VendorOrder(devices);
    seq(|order|, k requires 0 <= k < |order| => Group(order[k], WithKey(devices, VendorName, order[k])))
  }

  /** A group with its devices strongest first (`group_devices.sort(..., reverse=True)`). */
  function StrongestFirst(g: Group): Group {
    Group(g.vendor, SortBy(g.devices, RssiKey, AtLeast))
  }

  /** The groups in rank order, each group's devices strongest first. */
  function SortedGroups(devices: seq<Device>): seq<Group> {
    var gs := SortBy(VendorGroups(devices), GroupRank, RankLe);
    seq(|gs|, k requires 0 <= k < |gs| => StrongestFirst(gs[k]))
  }

  /** What the catalog block of `scan_devices` prints, as data. */
  function Catalog(devices: seq<Device>, filter: Option<string>, sortBy: string, byVendor: bool): Report {
    var kept := Filtered(devices, filter);
    if byVendor then Grouped(SortedGroups(kept)) else Listing(SortListing(kept, sortBy))
  }

  // ---- The orders used are total preorders ----

  lemma AtLeastIsOrder()
    ensures Reflexive(AtLeast) && Transitive(AtLeast) && Total(AtLeast)
  {
  }

  lemma LexLeIsOrder()
    ensures Reflexive(LexLe) && Transitive(LexLe) && Total(LexLe)
  {
    forall a ensures LexLe(a, a) {
      LexLeReflexive(a);
    }
    forall a, b, c | LexLe(a, b) && LexLe(b, c) ensures LexLe(a, c) {
      LexLeTransitive(a, b, c);
    }
    forall a, b ensures LexLe(a, b) || LexLe(b, a) {
      LexLeTotal(a, b);
    }
  }

  lemma RankLeIsOrder()
    ensures Reflexive(RankLe) && Transitive(RankLe) && Total(RankLe)
  {
    LexLeIsOrder();
  }

  // ---- Filter ----

  /** Filtering distributes over concatenation, so it keeps the relative scan order. */
  lemma {:induction false} FilteredConcat(a: seq<Device>, b: seq<Device>, filter: Option<string>)
    ensures Filtered(a + b, filter) == Filtered(a, filter) + Filtered(b, filter)
    decreases |b|
  {
    if b == [] {
      assert a + b == a;
    } else {
      var init := b[..|b| - 1];
      assert (a + b)[..|a + b| - 1] == a + init;
      FilteredConcat(a, init, filter);
    }
  }

  /** A device is kept exactly when it was scanned and the filter keeps it. */
  lemma {:induction false} FilteredMembers(devices: seq<Device>, filter: Option<string>, d: Device)
    ensures d in Filtered(devices, filter) <==> d in devices && Keeps(filter, d)
    decreases |devices|
  {
    if devices != [] {
      var init := devices[..|devices| - 1];
      FilteredMembers(init, filter, d);
      assert devices == init + [devices[|devices| - 1]];
    }
  }

  /** A missing or empty filter keeps every device. */
  lemma {:induction false} NoFilterKeepsAll(devices: seq<Device>, filter: Option<string>)
    requires filter.None? || filter.value == ""
    ensures Filtered(devices, filter) == devices
    decreases |devices|
  {
    if devices != [] {
      NoFilterKeepsAll(devices[..|devices| - 1], filter);
      assert devices == devices[..|devices| - 1] + [devices[|devices| - 1]];
    }
  }

  /** The filter loop of `scan_devices`. */
  method FilterDevices(devices: seq<Device>, filter: Option<string>) returns (deviceList: seq<Device>)
    ensures deviceList == Filtered(devices, filter)
  {
    deviceList := [];
    var i := 0;
    while i < |devices|
      invariant 0 <= i <= |devices|
      invariant deviceList == Filtered(devices[..i], filter)
    {
      var d := devices[i];
      assert devices[..i + 1][..i] == devices[..i];
      if filter.Some? && filter.value != "" && !Contains(Lower(DisplayName(d)), Lower(filter.value)) {
        i := i + 1;
        continue;
      }
      deviceList := deviceList + [d];
      i := i + 1;
    }
    assert devices[..i] == devices;
  }

  // ---- Listing ----

  /** The listing is a reordering of the kept devices; rssi order is strongest first with
      ties in scan order, name and manufacturer order ascend by their lower-case keys with
      ties in scan order, and any other `sort_by` leaves the scan order. */
  lemma ListingOrder(devices: seq<Device>, sortBy: string)
    ensures multiset(SortListing(devices, sortBy)) == multiset(devices)
    ensures sortBy == "rssi" ==>
      SortedBy(SortListing(devices, sortBy), RssiKey, AtLeast)
      && forall k :: WithKey(SortListing(devices, sortBy), RssiKey, k) == WithKey(devices, RssiKey, k)
    ensures sortBy == "name" ==>
      SortedBy(SortListing(devices, sortBy), NameKey, LexLe)
      && forall k :: WithKey(SortListing(devices, sortBy), NameKey, k) == WithKey(devices, NameKey, k)
    ensures sortBy == "manufacturer" ==>
      SortedBy(SortListing(devices, sortBy), VendorKey, LexLe)
      && forall k :: WithKey(SortListing(devices, sortBy), VendorKey, k) == WithKey(devices, VendorKey, k)
    ensures sortBy !in {"rssi", "name", "manufacturer"} ==> SortListing(devices, sortBy) == devices
  {
    AtLeastIsOrder();
    LexLeIsOrder();
    if sortBy == "rssi" {
      SortBySorted(devices, RssiKey, AtLeast);
      forall k ensures WithKey(SortListing(devices, sortBy), RssiKey, k) == WithKey(devices, RssiKey, k) {
        SortByStable(devices, RssiKey, AtLeast, k);
      }
    } else if sortBy == "name" {
      SortBySorted(devices, NameKey, LexLe);
      forall k ensures WithKey(SortListing(devices, sortBy), NameKey, k) == WithKey(devices, NameKey, k) {
        SortByStable(devices, NameKey, LexLe, k);
      }
    } else if sortBy == "manufacturer" {
      SortBySorted(devices, VendorKey, LexLe);
      forall k ensures WithKey(SortListing(devices, sortBy), VendorKey, k) == WithKey(devices, VendorKey, k) {
        SortByStable(devices, VendorKey, LexLe, k);
      }
    }
  }

  /** A reading of 0 sorts with the missing readings at -100, and an empty name sorts with
      the missing names as "zzz"; any other reading or name is its own key, names
      lower-cased. */
  lemma FalsyKeys(d: Device)
    ensures d.rssi == None || d.rssi == Some(0) ==> RssiKey(d) == -100
    ensures d.rssi.Some? && d.rssi.value != 0 ==> RssiKey(d) == d.rssi.value
    ensures d.name == None || d.name == Some("") ==> NameKey(d) == "zzz"
    ensures d.name.Some? && d.name.value != "" ==> NameKey(d) == Lower(d.name.value)
  {
  }

  // ---- Grouping ----

  /** Elements none of which has key k have no elements of key k. */
  lemma {:induction false} WithKeyAbsent(devices: seq<Device>, n: string)
    requires forall d :: d in devices ==> VendorName(d) != n
    ensures WithKey(devices, VendorName, n) == []
    decreases |devices|
  {
    if devices != [] {
      assert forall d :: d in devices[1..] ==> d in devices;
      WithKeyAbsent(devices[1..], n);
    }
  }

  /** Each group before sorting is one manufacturer with exactly its devices, and no
      manufacturer has two groups. */
  lemma VendorGroupsFacts(devices: seq<Device>)
    ensures Distinct(VendorGroups(devices))
    ensures forall g :: g in VendorGroups(devices) ==>
      g.vendor in VendorOrder(devices) && g.devices == WithKey(devices, VendorName, g.vendor)
    ensures forall n :: n in VendorOrder(devices) ==> Group(n, WithKey(devices, VendorName, n)) in VendorGroups(devices)
  {
    var order := VendorOrder(devices);
    var gs := VendorGroups(devices);
    forall n | n in order
      ensures Group(n, WithKey(devices, VendorName, n)) in gs
    {
      var k :| 0 <= k < |order| && order[k] == n;
      assert gs[k] == Group(n, WithKey(devices, VendorName, n));
    }
  }

  /** The sorted groups, before each group is put in rssi order. */
  lemma RankedGroupsFacts(devices: seq<Device>)
    ensures var ranked := SortBy(VendorGroups(devices), GroupRank, RankLe);
      Distinct(ranked) && SortedBy(ranked, GroupRank, RankLe)
      && (forall g :: g in ranked <==> g in VendorGroups(devices))
  {
    var gs := VendorGroups(devices);
    var ranked := SortBy(gs, GroupRank, RankLe);
    VendorGroupsFacts(devices);
    DistinctPermutation(gs, ranked);
    RankLeIsOrder();
    SortBySorted(gs, GroupRank, RankLe);
    forall g ensures g in ranked <==> g in gs {
      assert g in ranked <==> g in multiset(ranked);
      assert g in gs <==> g in multiset(gs);
    }
  }

  /** Every kept device appears in the group of its manufacturer. */
  lemma GroupsCover(devices: seq<Device>)
    ensures forall d :: d in devices ==>
      exists g :: g in SortedGroups(devices) && g.vendor == VendorName(d) && d in g.devices
  {
    var ranked := SortBy(VendorGroups(devices), GroupRank, RankLe);
    var result := SortedGroups(devices);
    VendorGroupsFacts(devices);
    RankedGroupsFacts(devices);
    forall d | d in devices
      ensures exists g :: g in result && g.vendor == VendorName(d) && d in g.devices
    {
      var n := VendorName(d);
      var h := Group(n, WithKey(devices, VendorName, n));
      assert h in ranked;
      var k :| 0 <= k < |ranked| && ranked[k] == h;
      WithKeyHas(devices, d);
      var g := result[k];
      assert g.devices == SortBy(h.devices, RssiKey, AtLeast);
      assert d in multiset(h.devices);
      assert d in g.devices;
    }
  }

  lemma {:induction false} WithKeyHas(devices: seq<Device>, d: Device)
    requires d in devices
    ensures d in WithKey(devices, VendorName, VendorName(d))
    decreases |devices|
  {
    if devices[0] != d {
      WithKeyHas(devices[1..], d);
    }
  }

  /** Each group holds exactly its manufacturer's kept devices, strongest first, with equal
      readings in scan order. */
  lemma GroupMembers(devices: seq<Device>, g: Group)
    requires g in SortedGroups(devices)
    ensures multiset(g.devices) == multiset(WithKey(devices, VendorName, g.vendor))
    ensures SortedBy(g.devices, RssiKey, AtLeast)
    ensures forall k :: WithKey(g.devices, RssiKey, k) == WithKey(WithKey(devices, VendorName, g.vendor), RssiKey, k)
  {
    var ranked := SortBy(VendorGroups(devices), GroupRank, RankLe);
    var result := SortedGroups(devices);
    VendorGroupsFacts(devices);
    RankedGroupsFacts(devices);
    var i :| 0 <= i < |result| && result[i] == g;
    var h := ranked[i];
    assert h in VendorGroups(devices);
    assert g.devices == SortBy(h.devices, RssiKey, AtLeast);
    AtLeastIsOrder();
    SortBySorted(h.devices, RssiKey, AtLeast);
    forall k ensures WithKey(g.devices, RssiKey, k) == WithKey(h.devices, RssiKey, k) {
      SortByStable(h.devices, RssiKey, AtLeast, k);
    }
  }

  /** No manufacturer has two groups, the groups ascend by `(name == "Unknown", name)`,
      and a group named "Unknown" comes last. */
  lemma GroupsOrder(devices: seq<Device>)
    ensures var gs := SortedGroups(devices);
      (forall i, j :: 0 <= i < j < |gs| ==> gs[i].vendor != gs[j].vendor)
      && SortedBy(gs, GroupRank, RankLe)
      && (forall i :: 0 <= i < |gs| && gs[i].vendor == "Unknown" ==> i == |gs| - 1)
  {
    var ranked := SortBy(VendorGroups(devices), GroupRank, RankLe);
    var gs := SortedGroups(devices);
    VendorGroupsFacts(devices);
    RankedGroupsFacts(devices);
    forall i, j | 0 <= i < j < |gs|
      ensures gs[i].vendor != gs[j].vendor
    {
      assert ranked[i] in VendorGroups(devices) && ranked[j] in VendorGroups(devices);
      assert ranked[i] != ranked[j];
    }
    forall i, j | 0 <= i < j < |gs|
      ensures RankLe(GroupRank(gs[i]), GroupRank(gs[j]))
    {
      assert GroupRank(gs[i]) == GroupRank(ranked[i]) && GroupRank(gs[j]) == GroupRank(ranked[j]);
    }
    forall i | 0 <= i < |gs| && gs[i].vendor == "Unknown"
      ensures i == |gs| - 1
    {
      var last := |gs| - 1;
      assert i < last ==> RankLe(GroupRank(gs[i]), GroupRank(gs[last]));
    }
  }

  // ---- The imperative block of `scan_devices` ----

  /** One step of the `defaultdict` loop keeps the dictionary equal to the grouping of
      the devices seen so far. */
  lemma CollectStep(seen: seq<Device>, d: Device, byVendor: map<string, seq<Device>>, order: seq<string>)
    requires order == VendorOrder(seen)
    requires forall n :: n in byVendor <==> n in order
    requires forall n :: n in byVendor ==> byVendor[n] == WithKey(seen, VendorName, n)
    ensures var name := VendorName(d);
      var base := if name in byVendor then byVendor else byVendor[name := []];
      var next := base[name := base[name] + [d]];
      var nextOrder := if name in byVendor then order else order + [name];
      nextOrder == VendorOrder(seen + [d])
      && (forall n :: n in next <==> n in nextOrder)
      && (forall n :: n in next ==> next[n] == WithKey(seen + [d], VendorName, n))
  {
    var name := VendorName(d);
    assert (seen + [d])[..|seen|] == seen;
    forall n ensures WithKey(seen + [d], VendorName, n)
        == WithKey(seen, VendorName, n) + (if name == n then [d] else [])
    {
      WithKeySnoc(seen, d, VendorName, n);
    }
    if name !in byVendor {
      WithKeyAbsent(seen, name);
    }
  }

  /** The `defaultdict` loop: each device is appended to the list of its manufacturer;
      the keys keep their first-appearance order. */
  method CollectByVendor(deviceList: seq<Device>) returns (byVendor: map<string, seq<Device>>, order: seq<string>)
    ensures order == VendorOrder(deviceList)
    ensures forall n :: n in byVendor <==> n in order
    ensures forall n :: n in byVendor ==> byVendor[n] == WithKey(deviceList, VendorName, n)
  {
    byVendor := map[];
    order := [];
    var i := 0;
    while i < |deviceList|
      invariant 0 <= i <= |deviceList|
      invariant order == VendorOrder(deviceList[..i])
      invariant forall n :: n in byVendor <==> n in order
      invariant forall n :: n in byVendor ==> byVendor[n] == WithKey(deviceList[..i], VendorName, n)
    {
      var d := deviceList[i];
      var name := DeviceManufacturer(d.manufacturerData).1;
      TakeSnoc(deviceList, i);
      CollectStep(deviceList[..i], d, byVendor, order);
      if name !in byVendor {
        byVendor := byVendor[name := []];
        order := order + [name];
      }
      byVendor := byVendor[name := byVendor[name] + [d]];
      i := i + 1;
    }
    assert deviceList[..i] == deviceList;
  }

  /** The dictionary's items, in key order, are the manufacturer groups. */
  lemma ItemsAreGroups(deviceList: seq<Device>, byVendor: map<string, seq<Device>>, order: seq<string>)
    requires order == VendorOrder(deviceList)
    requires forall n :: n in byVendor <==> n in order
    requires forall n :: n in byVendor ==> byVendor[n] == WithKey(deviceList, VendorName, n)
    ensures seq(|order|, k requires 0 <= k < |order| && order[k] in byVendor => Group(order[k], byVendor[order[k]]))
      == VendorGroups(deviceList)
  {
  }

  /** The last loop of the grouping branch yields the groups with their devices sorted. */
  lemma GroupsSorted(deviceList: seq<Device>, ranked: seq<Group>, groups: seq<Group>)
    requires ranked == SortBy(VendorGroups(deviceList), GroupRank, RankLe)
    requires |groups| == |ranked|
    requires forall k :: 0 <= k < |ranked| ==> groups[k] == StrongestFirst(ranked[k])
    ensures groups == SortedGroups(deviceList)
  {
  }
  /** The loop over the ranked groups: each group's devices are sorted strongest first. */
  method SortEachGroup(ranked: seq<Group>) returns (groups: seq<Group>)
    ensures |groups| == |ranked|
    ensures forall k :: 0 <= k < |ranked| ==> groups[k] == StrongestFirst(ranked[k])
  {
    groups := [];
    var j := 0;
    while j < |ranked|
      invariant 0 <= j <= |ranked|
      invariant |groups| == j
      invariant forall k :: 0 <= k < j ==> groups[k] == StrongestFirst(ranked[k])
    {
      groups := groups + [StrongestFirst(ranked[j])];
      j := j + 1;
    }
  }

  /** The grouping branch: the dictionary's items sorted by rank, and each group's list
      sorted by rssi. */
  method GroupDevices(deviceList: seq<Device>) returns (groups: seq<Group>)
    ensures groups == SortedGroups(deviceList)
  {
    var byVendor, order := CollectByVendor(deviceList);
    var items := seq(|order|, k requires 0 <= k < |order| && order[k] in byVendor => Group(order[k], byVendor[order[k]]));
    ItemsAreGroups(deviceList, byVendor, order);
    var ranked := SortBy(items, GroupRank, RankLe);
    groups := SortEachGroup(ranked);
    GroupsSorted(deviceList, ranked, groups);
  }

  /** The catalog block of `scan_devices` on the scan result. */
  method ScanCatalog(devices: seq<Device>, filter: Option<string>, sortBy: string, byVendor: bool)
    returns (report: Report)
    ensures report == Catalog(devices, filter, sortBy, byVendor)
  {
    var deviceList := FilterDevices(devices, filter);
    if byVendor {
      var groups := GroupDevices(deviceList);
      report := Grouped(groups);
    } else {
      report := Listing(SortListing(deviceList, sortBy));
    }
  }
}
