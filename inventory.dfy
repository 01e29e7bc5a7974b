/**
 * The device inventory: hostname -> device record, site id -> the site's devices by role, and
 * region -> site ids, with the lookups the path walker and the API use, plus the extraction of
 * site numbers from group names and hostnames.
 */
module Inventory {
  import opened Wrappers
  import opened Text
  import opened OrderedMap
  import opened YamlTree
  import Seqs

  /**
   * One device. Fields read from the inventory tree keep the YAML value they were given
   * (normally a string or an integer, null when absent).
   */
  datatype DeviceInfo = DeviceInfo(
    hostname: string,
    ip: Yaml,
    role: Yaml,
    domain: Yaml,
    site: string,
    siteNumber: Option<nat>,
    tier: Yaml,
    platform: Yaml,
    region: Option<string>,
    rrRole: Yaml,
    asn: Yaml,
    carrier: Yaml,
    generation: Yaml,
    extra: seq<(string, Yaml)>)

  /** The seven roles a site keeps a host list for. */
  datatype Role = Dcpe | Spe | Agg | Ipe | PNode | CoreRr | WanPeEdge {
    /** The `device_role` value naming this role. */
    function Name(): string {
      match this
      case Dcpe => "dcpe"
      case Spe => "spe"
      case Agg => "agg"
      case Ipe => "ipe"
      case PNode => "p_node"
      case CoreRr => "core_rr"
      case WanPeEdge => "wan_pe_edge"
    }
  }

  /** The role a `device_role` string names, if it is one of the seven. */
  function RoleNamed(s: string): (r: Option<Role>)
    ensures r.Some? ==> r.value.Name() == s
  {
    if s == "dcpe" then Some(Dcpe)
    else if s == "spe" then Some(Spe)
    else if s == "agg" then Some(Agg)
    else if s == "ipe" then Some(Ipe)
    else if s == "p_node" then Some(PNode)
    else if s == "core_rr" then Some(CoreRr)
    else if s == "wan_pe_edge" then Some(WanPeEdge)
    else None
  }

  /** Every role's name leads back to the role. */
  lemma RoleNamedName(r: Role)
    ensures RoleNamed(r.Name()) == Some(r)
  {
    match r
    case Dcpe =>
    case Spe =>
    case Agg =>
    case Ipe =>
    case PNode => assert "p_node"[1] != "spe"[1];
    case CoreRr =>
    case WanPeEdge =>
  }

  /** All devices at a site, by role, plus every host in the order it was added. */
  datatype SiteInfo = SiteInfo(
    siteId: string,
    siteNumber: nat,
    region: string,
    dcpe: seq<string>,
    spe: seq<string>,
    agg: seq<string>,
    ipe: seq<string>,
    pNodes: seq<string>,
    coreRr: seq<string>,
    wee: seq<string>,
    allDevices: seq<string>)
  {
    function RoleList(r: Role): seq<string> {
      match r
      case Dcpe => dcpe
      case Spe => spe
      case Agg => agg
      case Ipe => ipe
      case PNode => pNodes
      case CoreRr => coreRr
      case WanPeEdge => wee
    }

    /** `target_list.append(h)` on the list of role `r`. */
    function AppendToRole(r: Role, h: string): (s: SiteInfo)
      ensures s.RoleList(r) == RoleList(r) + [h]
      ensures forall q :: q != r ==> s.RoleList(q) == RoleList(q)
      ensures s.siteId == siteId && s.siteNumber == siteNumber && s.region == region
      ensures s.allDevices == allDevices
    {
      match r
      case Dcpe => this.(dcpe := dcpe + [h])
      case Spe => this.(spe := spe + [h])
      case Agg => this.(agg := agg + [h])
      case Ipe => this.(ipe := ipe + [h])
      case PNode => this.(pNodes := pNodes + [h])
      case CoreRr => this.(coreRr := coreRr + [h])
      case WanPeEdge => this.(wee := wee + [h])
    }
  }

  /** A site with no devices yet. */
  function NewSite(siteId: string, siteNumber: nat, region: string): (s: SiteInfo)
    ensures s.siteId == siteId && s.siteNumber == siteNumber && s.region == region
    ensures s.allDevices == [] && forall r :: s.RoleList(r) == []
  {
    SiteInfo(siteId, siteNumber, region, [], [], [], [], [], [], [], [])
  }

  predicate IsAggDevice(d: DeviceInfo) {
    d.role == YStr("agg")
  }

  predicate IsRouteReflector(d: DeviceInfo) {
    d.rrRole == YStr("route_reflector")
  }

  /** Python truthiness of an optional string. */
  predicate Given(s: Option<string>) {
    s.Some? && s.value != ""
  }

  datatype Inventory = Inventory(
    devices: Dict<DeviceInfo>,
    sites: Dict<SiteInfo>,
    regions: Dict<seq<string>>)
  {
    /** A site's lists only name hosts of the site, and the site's hosts are all devices. */
    ghost predicate SiteConsistent(sid: string, si: SiteInfo) {
      && si.siteId == sid
      && (forall h :: h in si.allDevices ==> h in devices.entries)
      && (forall r: Role, h :: h in si.RoleList(r) ==> h in si.allDevices)
    }

    /** A region's list names known sites, each once. */
    ghost predicate RegionConsistent(ids: seq<string>) {
      && Seqs.Distinct(ids)
      && (forall s :: s in ids ==> s in sites.entries)
    }

    /** What the loader maintains. */
    ghost predicate Valid() {
      && devices.Valid() && sites.Valid() && regions.Valid()
      && (forall h :: h in devices.entries ==> devices.entries[h].hostname == h)
      && (forall sid :: sid in sites.entries ==> SiteConsistent(sid, sites.entries[sid]))
      && (forall rg :: rg in regions.entries ==> RegionConsistent(regions.entries[rg]))
    }

    function GetDevice(hostname: string): (r: Option<DeviceInfo>)
      ensures r.Some? <==> hostname in devices.entries
      ensures r.Some? ==> r.value == devices.entries[hostname]
    {
      devices.Get(hostname)
    }

    function GetSite(siteId: string): (r: Option<SiteInfo>)
      ensures r.Some? <==> siteId in sites.entries
      ensures r.Some? ==> r.value == sites.entries[siteId]
    {
      sites.Get(siteId)
    }

    /** The names among `names` that are known devices, in order. */
    function Known(names: seq<string>): seq<string> {
      Seqs.Filter(names, h => h in devices.entries)
    }

    /** `[self.devices[h] for h in names if h in self.devices]`. */
    function DevicesOf(names: seq<string>): (r: seq<DeviceInfo>)
      ensures |r| == |Known(names)| <= |names|
      ensures forall i :: 0 <= i < |r| ==>
        Known(names)[i] in names && Known(names)[i] in devices.entries
        && r[i] == devices.entries[Known(names)[i]]
    {
      var ks := Known(names);
      seq(|ks|, i requires 0 <= i < |ks| => devices.entries[ks[i]])
    }

    /**
     * With a site id: the site's AGG hosts that are known devices ([] for an unknown site);
     * without one (or with ""): every device whose role is "agg", in insertion order.
     */
    function GetAggRouters(siteId: Option<string>): (r: seq<DeviceInfo>)
      requires devices.Valid()
      ensures Given(siteId) && siteId.value !in sites.entries ==> r == []
      ensures Given(siteId) && siteId.value in sites.entries ==>
        r == DevicesOf(sites.entries[siteId.value].agg)
      ensures !Given(siteId) ==> r == Seqs.Filter(devices.Values(), IsAggDevice)
      ensures !Given(siteId) ==> forall d :: d in r <==> d in devices.Values() && IsAggDevice(d)
    {
      if Given(siteId) then
        match sites.Get(siteId.value)
        case Some(site) => DevicesOf(site.agg)
        case None => []
      else Seqs.Filter(devices.Values(), IsAggDevice)
    }

    /** The route reflectors among `GetAggRouters(siteId)`, in the same order. */
    function GetRrRouters(siteId: Option<string>): (r: seq<DeviceInfo>)
      requires devices.Valid()
      ensures |r| <= |GetAggRouters(siteId)|
      ensures forall d :: d in r <==> d in GetAggRouters(siteId) && IsRouteReflector(d)
    {
      Seqs.Filter(GetAggRouters(siteId), IsRouteReflector)
    }

    /** The site's DCPE hosts that are known devices; [] for an unknown site. */
    function GetDcpeForSite(siteId: string): (r: seq<DeviceInfo>)
      ensures siteId !in sites.entries ==> r == []
      ensures siteId in sites.entries ==> r == DevicesOf(sites.entries[siteId].dcpe)
    {
      match sites.Get(siteId)
      case None => []
      case Some(site) => DevicesOf(site.dcpe)
    }

    /** The site's SPE hosts that are known devices; [] for an unknown site. */
    function GetSpeForSite(siteId: string): (r: seq<DeviceInfo>)
      ensures siteId !in sites.entries ==> r == []
      ensures siteId in sites.entries ==> r == DevicesOf(sites.entries[siteId].spe)
    {
      match sites.Get(siteId)
      case None => []
      case Some(site) => DevicesOf(site.spe)
    }

    /** The first of `ids` naming a site numbered `num`. */
    function FirstNumbered(ids: seq<string>, num: int): (r: Option<nat>)
      ensures r.Some? ==>
        r.value < |ids| && ids[r.value] in sites.entries && sites.entries[ids[r.value]].siteNumber == num
      ensures forall k :: 0 <= k < |ids| && (r.None? || k < r.value) ==>
        ids[k] !in sites.entries || sites.entries[ids[k]].siteNumber != num
    {
      if ids == [] then None
      else if ids[0] in sites.entries && sites.entries[ids[0]].siteNumber == num then Some(0)
      else match FirstNumbered(ids[1..], num)
        case None => None
        case Some(k) => Some(k + 1)
    }

    /** The first site, in insertion order, with number `num`. */
    function SiteIdFromNumber(num: int): (r: Option<string>)
      requires sites.Valid()
      ensures r.Some? ==> r.value in sites.entries && sites.entries[r.value].siteNumber == num
      ensures r.Some? ==> exists i :: (0 <= i < |sites.keys| && sites.keys[i] == r.value &&
        forall k :: 0 <= k < i ==> sites.entries[sites.keys[k]].siteNumber != num)
      ensures r.None? ==> forall sid :: sid in sites.entries ==> sites.entries[sid].siteNumber != num
    {
      match FirstNumbered(sites.keys, num)
      case None => None
      case Some(i) => Some(sites.keys[i])
    }

    /** `[self.sites[s] for s in self.regions.get(region, []) if s in self.sites]`. */
    function GetSitesInRegion(region: string): (r: seq<SiteInfo>)
      ensures region !in regions.entries ==> r == []
      ensures var ks := Seqs.Filter(regions.Get(region).GetOr([]), s => s in sites.entries);
        |r| == |ks| && forall i :: 0 <= i < |r| ==> ks[i] in sites.entries && r[i] == sites.entries[ks[i]]
    {
      var ks := Seqs.Filter(regions.Get(region).GetOr([]), s => s in sites.entries);
      seq(|ks|, i requires 0 <= i < |ks| => sites.entries[ks[i]])
    }
  }

  /** Selecting with a condition every element meets keeps the sequence. */
  lemma {:induction false} FilterKeepsAll<T>(xs: seq<T>, p: T -> bool)
    requires forall x :: x in xs ==> p(x)
    ensures Seqs.Filter(xs, p) == xs
  {
    if xs != [] {
      FilterKeepsAll(xs[1..], p);
    }
  }

  /** In a loaded inventory no site a region lists is dropped by `GetSitesInRegion`. */
  lemma SitesInRegionComplete(inv: Inventory, region: string)
    requires inv.Valid() && region in inv.regions.entries
    ensures Seqs.Filter(inv.regions.entries[region], s => s in inv.sites.entries) == inv.regions.entries[region]
    ensures |inv.GetSitesInRegion(region)| == |inv.regions.entries[region]|
  {
    var ids := inv.regions.entries[region];
    assert inv.RegionConsistent(ids);
    FilterKeepsAll(ids, s => s in inv.sites.entries);
  }

  /** In a loaded inventory no AGG host of a site is dropped by `GetAggRouters`. */
  lemma SiteAggRoutersComplete(inv: Inventory, siteId: string)
    requires inv.Valid() && siteId in inv.sites.entries
    ensures inv.Known(inv.sites.entries[siteId].agg) == inv.sites.entries[siteId].agg
    ensures siteId != "" ==> |inv.GetAggRouters(Some(siteId))| == |inv.sites.entries[siteId].agg|
  {
    var si := inv.sites.entries[siteId];
    assert inv.SiteConsistent(siteId, si);
    forall h | h in si.agg ensures h in inv.devices.entries {
      assert h in si.RoleList(Agg);
    }
    FilterKeepsAll(si.agg, h => h in inv.devices.entries);
  }

  // ---------------------------------------------------------------------------------------
  // Site numbers in names

  /** "site" followed by a digit starts at `k`. */
  predicate SiteTagAt(name: string, k: nat) {
    OccursAt(name, "site", k) && k + 4 < |name| && IsDigit(name[k + 4])
  }

  /** The leftmost `site\d` at or after `i`. */
  function FindSiteTag(name: string, i: nat): (r: Option<nat>)
    requires i <= |name|
    ensures r.Some? ==> i <= r.value && SiteTagAt(name, r.value)
    ensures forall k :: i <= k && (r.None? || k < r.value) ==> !SiteTagAt(name, k)
    decreases |name| - i
  {
    if i + 4 >= |name| then None
    else if SiteTagAt(name, i) then Some(i)
    else FindSiteTag(name, i + 1)
  }

  /** The leftmost "site" followed by a digit starts at `k`. */
  predicate FirstSiteTag(name: string, k: nat) {
    SiteTagAt(name, k) && forall j: nat :: j < k ==> !SiteTagAt(name, j)
  }

  /** The value of the digits starting at `i` (`int(m.group(1))`). */
  function NumberAt(name: string, i: nat): nat
    requires i <= |name|
  {
    DecimalValue(name[i..i + DigitRun(name, i)])
  }

  /** The name starts with "s", digits and "-". */
  predicate HostTagged(name: string) {
    |name| >= 1 && name[0] == 's' && DigitRun(name, 1) > 0
    && 1 + DigitRun(name, 1) < |name| && name[1 + DigitRun(name, 1)] == '-'
  }

  /**
   * The number in the first "site<digits>" of the name; failing that, the number in a leading
   * "s<digits>-"; failing that, none.
   */
  function ExtractSiteNumber(name: string): (r: Option<nat>)
    ensures r.Some? <==> (exists k :: SiteTagAt(name, k)) || HostTagged(name)
    ensures forall k: nat :: FirstSiteTag(name, k) ==> r == Some(NumberAt(name, k + 4))
    ensures (forall k: nat :: !SiteTagAt(name, k)) && HostTagged(name) ==> r == Some(NumberAt(name, 1))
  {
    match FindSiteTag(name, 0)
    case Some(k) =>
      assert forall k': nat :: FirstSiteTag(name, k') ==> k' == k;
      Some(NumberAt(name, k + 4))
    case None =>
      if HostTagged(name) then Some(NumberAt(name, 1)) else None
  }

  /** A "site<N>" later in the name wins over a leading "s<N>-". */
  lemma SiteTagBeatsHostPrefix()
    ensures ExtractSiteNumber("s1-site2") == Some(2)
  {
    var name := "s1-site2";
    assert SiteTagAt(name, 3);
    forall j: nat | j < 3 ensures !SiteTagAt(name, j) {
      assert name[j] != 's' || name[j + 1] != 'i';
    }
    assert FirstSiteTag(name, 3);
    assert DigitRun(name, 7) == 1;
    assert name[7..8] == "2";
  }

  /** `f"site{n}"`. */
  function SiteId(n: nat): string {
    "site" + NatToString(n)
  }

  /** The number is read back from a site id. */
  lemma SiteIdNumber(n: nat)
    ensures ExtractSiteNumber(SiteId(n)) == Some(n)
  {
    var name := SiteId(n);
    var digits := NatToString(n);
    assert SiteTagAt(name, 0);
    assert FindSiteTag(name, 0) == Some(0);
    DigitRunFrom(name, 4, |digits|);
    assert name[4..4 + |digits|] == digits;
    NatToStringRoundTrip(n);
  }

  /** The characters of "s<n>-<rest>". */
  lemma HostNameShape(n: nat, rest: string, name: string)
    requires name == "s" + NatToString(n) + "-" + rest
    ensures var m := |NatToString(n)|;
      && name[0] == 's' && name[m + 1] == '-' && name[m + 2..] == rest
      && name[1..m + 1] == NatToString(n)
      && forall i :: 1 <= i <= m ==> IsDigit(name[i])
  {
    var digits := NatToString(n);
    forall i | 1 <= i <= |digits| ensures IsDigit(name[i]) {
      assert name[i] == digits[i - 1];
    }
  }

  /** No "site<digit>" starts inside the "s<n>-" prefix, nor (by assumption) in the rest. */
  lemma HostNameHasNoSiteTag(n: nat, rest: string, name: string)
    requires name == "s" + NatToString(n) + "-" + rest
    requires forall k :: !OccursAt(rest, "site", k)
    ensures forall k :: !SiteTagAt(name, k)
  {
    forall k: nat | k + 4 <= |name| ensures !OccursAt(name, "site", k) {
      NoSiteAt(n, rest, name, k);
    }
  }

  /** The case of one position `k` of `HostNameHasNoSiteTag`. */
  lemma NoSiteAt(n: nat, rest: string, name: string, k: nat)
    requires name == "s" + NatToString(n) + "-" + rest
    requires forall k :: !OccursAt(rest, "site", k)
    requires k + 4 <= |name|
    ensures !OccursAt(name, "site", k)
  {
    var m := |NatToString(n)|;
    HostNameShape(n, rest, name);
    if k == 0 {
      assert IsDigit(name[1]);
      MismatchNotOccurs(name, "site", k, 1);
    } else if k <= m {
      assert IsDigit(name[k]);
      MismatchNotOccurs(name, "site", k, 0);
    } else if k == m + 1 {
      MismatchNotOccurs(name, "site", k, 0);
    } else {
      assert name[k..k + 4] == rest[k - m - 2..k - m + 2];
      assert !OccursAt(rest, "site", k - m - 2);
    }
  }

  /** The number is read back from a hostname "s<n>-<rest>" when "site" does not follow. */
  lemma HostNameNumber(n: nat, rest: string)
    requires forall k :: !OccursAt(rest, "site", k)
    ensures ExtractSiteNumber("s" + NatToString(n) + "-" + rest) == Some(n)
  {
    var digits := NatToString(n);
    var name := "s" + digits + "-" + rest;
    HostNameHasNoSiteTag(n, rest, name);
    HostNameShape(n, rest, name);
    assert FindSiteTag(name, 0).None?;
    DigitRunFrom(name, 1, |digits|);
    NatToStringRoundTrip(n);
  }
}
