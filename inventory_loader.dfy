/**
 * Building the inventory from an Ansible inventory tree:
 *   all -> children -> <region> -> children -> site<N> -> children -> <role group> -> hosts,
 * with groups that are not regions (firewalls, route servers, ...) walked as flat groups.
 *
 * Each level is specified by a function over the remaining entries (`...From(inv, xs, i)`
 * continues the walk at entry `i`); a Python exception raised part-way becomes `Err` and
 * discards the partial inventory. The methods walk the tree with loops and are proved to
 * compute these functions; every level keeps `Inventory.Valid()`.
 */
module InventoryLoader {
  import opened Wrappers
  import opened Text
  import opened OrderedMap
  import opened YamlTree
  import opened Inventory

  function EmptyInventory(): (inv: Inventory)
    ensures inv.Valid()
    ensures inv.devices.keys == [] && inv.sites.keys == [] && inv.regions.keys == []
  {
    Inventory(Empty(), Empty(), Empty())
  }

  /** The region groups the loader recognises. */
  function NormalizeRegion(name: string): (r: Option<string>)
    ensures r.Some? <==> name == "americas" || name == "emea" || name == "apac"
    ensures r.Some? ==> r.value == name
  {
    if name == "americas" || name == "emea" || name == "apac" then Some(name) else None
  }

  /** `host_data or {}`. */
  function OrEmpty(y: Yaml): Yaml {
    if y.Truthy() then y else YMap([])
  }

  // ---------------------------------------------------------------------------------------
  // Role groups

  /** A group-name suffix and the role, domain and tier it implies. */
  datatype RolePattern = RolePattern(suffix: string, role: Role, domain: string, tier: Yaml)

  /** The suffixes, in the order they are tried. */
  function RolePatterns(): seq<RolePattern> {
    [ RolePattern("_dcpe", Dcpe, "pe_zone", YInt(1)),
      RolePattern("_spe", Spe, "pe_zone", YInt(2)),
      RolePattern("_agg", Agg, "backbone", YInt(4)),
      RolePattern("_ipe", Ipe, "inet_edge", YInt(7)),
      RolePattern("_p_nodes", PNode, "backbone", YNull),
      RolePattern("_core_rr", CoreRr, "backbone", YNull),
      RolePattern("_wee", WanPeEdge, "carrier_vrf", YNull) ]
  }

  /** The first pattern of `ps` whose suffix ends `name`. */
  function FirstSuffix(name: string, ps: seq<RolePattern>): (r: Option<nat>)
    ensures r.Some? ==> r.value < |ps| && EndsWith(name, ps[r.value].suffix)
    ensures forall j :: 0 <= j < |ps| && (r.None? || j < r.value) ==> !EndsWith(name, ps[j].suffix)
  {
    if ps == [] then None
    else if EndsWith(name, ps[0].suffix) then Some(0)
    else match FirstSuffix(name, ps[1..])
      case None => None
      case Some(j) => Some(j + 1)
  }

  /** The pattern of the first suffix in table order that ends `name`. */
  function SuffixRole(name: string): (r: Option<RolePattern>)
    ensures r.Some? ==>
              exists j :: 0 <= j < |RolePatterns()| && RolePatterns()[j] == r.value && EndsWith(name, r.value.suffix)
                && forall i :: 0 <= i < j ==> !EndsWith(name, RolePatterns()[i].suffix)
    ensures r.None? <==> forall j :: 0 <= j < |RolePatterns()| ==> !EndsWith(name, RolePatterns()[j].suffix)
  {
    match FirstSuffix(name, RolePatterns())
    case None => None
    case Some(j) => Some(RolePatterns()[j])
  }

  /** Where a site's host goes: the site, and the group's role, domain, tier and AS number. */
  datatype SiteContext = SiteContext(siteId: string, siteNumber: nat, region: Option<string>)
  datatype GroupContext = GroupContext(site: SiteContext, role: Yaml, domain: Yaml, tier: Yaml, asn: Yaml)

  /**
   * The role group's settings from its `vars`; a missing or empty `device_role` is replaced by
   * the role of the first matching name suffix, which also fills an empty domain and tier.
   */
  function ResolveGroup(s: SiteContext, roleGroup: string, vars: seq<(string, Yaml)>): (g: GroupContext)
    ensures g.site == s && g.asn == GetOr(vars, "asn", YNull)
    ensures GetOr(vars, "device_role", YStr("")).Truthy() ==>
      g.role == GetOr(vars, "device_role", YStr("")) && g.domain == GetOr(vars, "domain", YStr(""))
    ensures !GetOr(vars, "device_role", YStr("")).Truthy() && SuffixRole(roleGroup).Some? ==>
      EndsWith(roleGroup, SuffixRole(roleGroup).value.suffix)
      && g.role == YStr(SuffixRole(roleGroup).value.role.Name()) && g.domain.Truthy()
    ensures !GetOr(vars, "device_role", YStr("")).Truthy() && SuffixRole(roleGroup).None? ==> !g.role.Truthy()
  {
    var role := GetOr(vars, "device_role", YStr(""));
    var domain := GetOr(vars, "domain", YStr(""));
    var tier := GetOr(vars, "tier", YNull);
    var asn := GetOr(vars, "asn", YNull);
    if role.Truthy() then GroupContext(s, role, domain, tier, asn)
    else match SuffixRole(roleGroup)
      case None => GroupContext(s, role, domain, tier, asn)
      case Some(p) =>
        GroupContext(s, YStr(p.role.Name()),
          if domain.Truthy() then domain else YStr(p.domain),
          if tier.Truthy() then tier else p.tier,
          asn)
  }

  /** `role_list_map.get(role)`: a list or mapping is unhashable and raises a TypeError. */
  function RoleKey(role: Yaml): (r: Result<Option<Role>>)
    ensures r.Err? <==> role.YList? || role.YMap?
    ensures r.Ok? ==> forall q: Role :: r.value == Some(q) <==> role == YStr(q.Name())
  {
    match role
    case YList(_) => Err("TypeError: unhashable type")
    case YMap(_) => Err("TypeError: unhashable type")
    case YStr(s) =>
      var k := RoleNamed(s);
      assert forall q: Role :: role == YStr(q.Name()) ==> k == Some(q) by {
        forall q: Role | role == YStr(q.Name()) ensures k == Some(q) {
          RoleNamedName(q);
        }
      }
      Ok(k)
    case _ => Ok(None)
  }

  /** The record of a host listed under a site's role group. */
  function SiteHost(g: GroupContext, hostname: string, hd: seq<(string, Yaml)>): DeviceInfo {
    DeviceInfo(hostname, GetOr(hd, "ansible_host", YNull), g.role, g.domain, g.site.siteId,
      Some(g.site.siteNumber), g.tier, GetOr(hd, "platform", YNull), g.site.region,
      GetOr(hd, "rr_role", YNull), g.asn, GetOr(hd, "carrier", YNull), GetOr(hd, "generation", YNull), [])
  }

  /** Storing a device under its own hostname keeps the inventory valid. */
  lemma PutDeviceValid(inv: Inventory, hostname: string, d: DeviceInfo)
    requires inv.Valid() && d.hostname == hostname
    ensures inv.(devices := inv.devices.Put(hostname, d)).Valid()
  {
    var inv' := inv.(devices := inv.devices.Put(hostname, d));
    forall x | x in inv'.sites.entries ensures inv'.SiteConsistent(x, inv'.sites.entries[x]) {
      assert inv.SiteConsistent(x, inv.sites.entries[x]);
    }
    forall rg | rg in inv'.regions.entries ensures inv'.RegionConsistent(inv'.regions.entries[rg]) {
      assert inv.RegionConsistent(inv.regions.entries[rg]);
    }
  }

  /** Replacing a known site by a consistent record keeps the inventory valid. */
  lemma PutSiteValid(inv: Inventory, sid: string, si: SiteInfo)
    requires inv.Valid() && sid in inv.sites.entries && inv.SiteConsistent(sid, si)
    ensures inv.(sites := inv.sites.Put(sid, si)).Valid()
  {
    var inv' := inv.(sites := inv.sites.Put(sid, si));
    forall x | x in inv'.sites.entries && x != sid ensures inv'.SiteConsistent(x, inv'.sites.entries[x]) {
      assert inv.SiteConsistent(x, inv.sites.entries[x]);
    }
    forall rg | rg in inv'.regions.entries ensures inv'.RegionConsistent(inv'.regions.entries[rg]) {
      assert inv.RegionConsistent(inv.regions.entries[rg]);
    }
  }

  /** The site record with `hostname` appended to its hosts and, for a known role, its role list. */
  function SiteWithHost(site: SiteInfo, hostname: string, k: Option<Role>): (s: SiteInfo)
    ensures s.allDevices == site.allDevices + [hostname]
    ensures s.siteId == site.siteId && s.siteNumber == site.siteNumber && s.region == site.region
    ensures forall q: Role :: s.RoleList(q) == if k == Some(q) then site.RoleList(q) + [hostname] else site.RoleList(q)
  {
    var listed := site.(allDevices := site.allDevices + [hostname]);
    if k.Some? then listed.AppendToRole(k.value, hostname) else listed
  }

  /**
   * One host of a site's role group: the device is stored under its hostname, the host is
   * appended to the site's `all_devices`, and to the list of its role when the role is one of
   * the seven. Fails when the host's data is not a mapping or the role is unhashable.
   */
  function AddSiteHost(inv: Inventory, g: GroupContext, hostname: string, hostData: Yaml): (r: Result<Inventory>)
    requires inv.Valid() && g.site.siteId in inv.sites.entries
    ensures r.Ok? <==> OrEmpty(hostData).YMap? && !(g.role.YList? || g.role.YMap?)
    ensures r.Ok? ==> r.value.Valid() && r.value.regions == inv.regions
    ensures r.Ok? ==>
      r.value.devices.entries == inv.devices.entries[hostname := SiteHost(g, hostname, OrEmpty(hostData).entries)]
    ensures r.Ok? ==>
      r.value.sites.entries == inv.sites.entries[g.site.siteId := SiteWithHost(inv.sites.entries[g.site.siteId], hostname, RoleKey(g.role).value)]
  {
    var hd := OrEmpty(hostData);
    if !hd.YMap? then Err("AttributeError: not a mapping")
    else match RoleKey(g.role)
      case Err(e) => Err(e)
      case Ok(k) =>
        var sid := g.site.siteId;
        var d := SiteHost(g, hostname, hd.entries);
        PutDeviceValid(inv, hostname, d);
        var inv1 := inv.(devices := inv.devices.Put(hostname, d));
        var site := SiteWithHost(inv.sites.entries[sid], hostname, k);
        assert inv1.SiteConsistent(sid, site) by {
          assert inv.SiteConsistent(sid, inv.sites.entries[sid]);
        }
        PutSiteValid(inv1, sid, site);
        Ok(inv1.(sites := inv1.sites.Put(sid, site)))
  }

  /**
   * A stored site host is appended to the site's `all_devices`, and to the list of the role
   * its `device_role` names, if any; no other list changes.
   */
  lemma SiteHostListed(inv: Inventory, g: GroupContext, hostname: string, hostData: Yaml)
    requires inv.Valid() && g.site.siteId in inv.sites.entries
    requires AddSiteHost(inv, g, hostname, hostData).Ok?
    ensures var before := inv.sites.entries[g.site.siteId];
      var after := AddSiteHost(inv, g, hostname, hostData).value.sites.entries[g.site.siteId];
      && after.allDevices == before.allDevices + [hostname]
      && after.siteId == before.siteId && after.siteNumber == before.siteNumber && after.region == before.region
      && forall q: Role :: after.RoleList(q) ==
           if g.role == YStr(q.Name()) then before.RoleList(q) + [hostname] else before.RoleList(q)
  {
  }

  /** The site's hosts from entry `i` on. */
  function AddSiteHostsFrom(inv: Inventory, g: GroupContext, hosts: seq<(string, Yaml)>, i: nat): (r: Result<Inventory>)
    requires i <= |hosts|
    requires inv.Valid() && g.site.siteId in inv.sites.entries
    ensures r.Ok? ==> r.value.Valid() && r.value.regions == inv.regions
    ensures r.Ok? ==> forall s :: s in r.value.sites.entries <==> s in inv.sites.entries
    decreases |hosts| - i
  {
    if i == |hosts| then Ok(inv)
    else match AddSiteHost(inv, g, hosts[i].0, hosts[i].1)
      case Err(e) => Err(e)
      case Ok(inv') => AddSiteHostsFrom(inv', g, hosts, i + 1)
  }

  /** One role group of a site: groups that are not mappings, or have no hosts, add nothing. */
  function RoleGroupStep(inv: Inventory, s: SiteContext, roleGroup: string, roleData: Yaml): (r: Result<Inventory>)
    requires inv.Valid() && s.siteId in inv.sites.entries
    ensures r.Ok? ==> r.value.Valid() && r.value.regions == inv.regions
    ensures r.Ok? ==> forall x :: x in r.value.sites.entries <==> x in inv.sites.entries
    ensures !roleData.YMap? ==> r == Ok(inv)
  {
    if !roleData.YMap? then Ok(inv)
    else match Items(GetOr(roleData.entries, "vars", YMap([])))
      case Err(e) => Err(e)
      case Ok(vars) =>
        var g := ResolveGroup(s, roleGroup, vars);
        var hosts := GetOr(roleData.entries, "hosts", YMap([]));
        if !hosts.Truthy() then Ok(inv)
        else match Items(hosts)
          case Err(e) => Err(e)
          case Ok(hs) => AddSiteHostsFrom(inv, g, hs, 0)
  }

  function RoleGroupsFrom(inv: Inventory, s: SiteContext, groups: seq<(string, Yaml)>, i: nat): (r: Result<Inventory>)
    requires i <= |groups|
    requires inv.Valid() && s.siteId in inv.sites.entries
    ensures r.Ok? ==> r.value.Valid() && r.value.regions == inv.regions
    ensures r.Ok? ==> forall x :: x in r.value.sites.entries <==> x in inv.sites.entries
    decreases |groups| - i
  {
    if i == |groups| then Ok(inv)
    else match RoleGroupStep(inv, s, groups[i].0, groups[i].1)
      case Err(e) => Err(e)
      case Ok(inv') => RoleGroupsFrom(inv', s, groups, i + 1)
  }

  // ---------------------------------------------------------------------------------------
  // Sites and regions

  /** `ids.append(sid)` unless `sid in ids`. */
  function AppendNew(ids: seq<string>, sid: string): (r: seq<string>)
    ensures forall x :: x in r <==> x in ids || x == sid
    ensures Seqs.Distinct(ids) ==> Seqs.Distinct(r)
    ensures sid in ids ==> r == ids
  {
    if sid in ids then ids else ids + [sid]
  }

  /** Appends `sid` to the region's site list unless it is already there. */
  function ListSite(inv: Inventory, region: string, sid: string): (r: Inventory)
    requires inv.regions.Valid()
    ensures r.regions.Valid() && r.devices == inv.devices && r.sites == inv.sites
    ensures r.regions.entries == inv.regions.entries[region := AppendNew(inv.regions.Get(region).GetOr([]), sid)]
  {
    inv.(regions := inv.regions.Put(region, AppendNew(inv.regions.Get(region).GetOr([]), sid)))
  }

  /** Listing a known site in a region keeps the inventory valid. */
  lemma ListSiteValid(inv: Inventory, region: string, sid: string)
    requires inv.Valid() && sid in inv.sites.entries
    ensures ListSite(inv, region, sid).Valid()
  {
    var inv' := ListSite(inv, region, sid);
    forall rg | rg in inv'.regions.entries ensures inv'.RegionConsistent(inv'.regions.entries[rg]) {
      if rg in inv.regions.entries {
        assert inv.RegionConsistent(inv.regions.entries[rg]);
      }
    }
  }

  /** Creating the record of a new site keeps the inventory valid. */
  lemma NewSiteValid(inv: Inventory, sid: string, n: nat, region: string)
    requires inv.Valid() && sid !in inv.sites.entries
    ensures inv.(sites := inv.sites.Put(sid, NewSite(sid, n, region))).Valid()
  {
    var inv' := inv.(sites := inv.sites.Put(sid, NewSite(sid, n, region)));
    forall x | x in inv'.sites.entries && x != sid ensures inv'.SiteConsistent(x, inv'.sites.entries[x]) {
      assert inv.SiteConsistent(x, inv.sites.entries[x]);
    }
    forall rg | rg in inv'.regions.entries ensures inv'.RegionConsistent(inv'.regions.entries[rg]) {
      assert inv.RegionConsistent(inv.regions.entries[rg]);
    }
  }

  /** `inv.sites[sid] = SiteInfo(...)` for a site not yet known. */
  function CreateSite(inv: Inventory, sid: string, n: nat, region: string): (r: Inventory)
    requires inv.Valid() && sid !in inv.sites.entries
    ensures r.Valid() && r.devices == inv.devices && r.regions == inv.regions
    ensures r.sites.entries == inv.sites.entries[sid := NewSite(sid, n, region)]
  {
    NewSiteValid(inv, sid, n, region);
    inv.(sites := inv.sites.Put(sid, NewSite(sid, n, region)))
  }

  /**
   * Lists site `sid` in `region` (if any) unless it is listed already, and creates its record
   * unless it exists.
   */
  function OpenSite(inv: Inventory, region: Option<string>, sid: string, n: nat): (r: Inventory)
    requires inv.Valid()
    ensures r.Valid() && sid in r.sites.entries && r.devices == inv.devices
    ensures region.Some? ==> region.value in r.regions.entries && sid in r.regions.entries[region.value]
    ensures sid in inv.sites.entries ==> r.sites == inv.sites
    ensures sid !in inv.sites.entries ==> r.sites.entries[sid] == NewSite(sid, n, region.GetOr("unknown"))
  {
    var inv1 := if sid in inv.sites.entries then inv else CreateSite(inv, sid, n, region.GetOr("unknown"));
    if region.Some? then
      ListSiteValid(inv1, region.value, sid);
      ListSite(inv1, region.value, sid)
    else inv1
  }

  /**
   * One group under a region: ignored unless its name carries a site number; otherwise the site
   * is registered and, when the group has children, its role groups are walked.
   */
  function SiteStep(inv: Inventory, region: Option<string>, siteName: string, siteData: Yaml): (r: Result<Inventory>)
    requires inv.Valid()
    ensures r.Ok? ==> r.value.Valid()
    ensures ExtractSiteNumber(siteName).None? ==> r == Ok(inv)
    ensures r.Ok? && ExtractSiteNumber(siteName).Some? ==>
      var sid := SiteId(ExtractSiteNumber(siteName).value);
      sid in r.value.sites.entries
      && (region.Some? ==> region.value in r.value.regions.entries && sid in r.value.regions.entries[region.value])
  {
    match ExtractSiteNumber(siteName)
    case None => Ok(inv)
    case Some(n) =>
      var sid := SiteId(n);
      var inv1 := OpenSite(inv, region, sid, n);
      if !siteData.YMap? || Lookup(siteData.entries, "children").None? then Ok(inv1)
      else match Items(GetOr(siteData.entries, "children", YMap([])))
        case Err(e) => Err(e)
        case Ok(groups) => RoleGroupsFrom(inv1, SiteContext(sid, n, region), groups, 0)
  }

  function SitesFrom(inv: Inventory, region: Option<string>, sites: seq<(string, Yaml)>, i: nat): (r: Result<Inventory>)
    requires i <= |sites|
    requires inv.Valid()
    ensures r.Ok? ==> r.value.Valid()
    decreases |sites| - i
  {
    if i == |sites| then Ok(inv)
    else match SiteStep(inv, region, sites[i].0, sites[i].1)
      case Err(e) => Err(e)
      case Ok(inv') => SitesFrom(inv', region, sites, i + 1)
  }

  /** `inv.regions.setdefault(region, [])`. */
  function SetDefaultRegion(inv: Inventory, region: string): (r: Inventory)
    requires inv.Valid()
    ensures r.Valid() && region in r.regions.entries
    ensures r.devices == inv.devices && r.sites == inv.sites
  {
    if region in inv.regions.entries then inv
    else
      var r := inv.(regions := inv.regions.Put(region, []));
      assert forall rg :: rg in r.regions.entries ==> r.RegionConsistent(r.regions.entries[rg]) by {
        forall rg | rg in r.regions.entries ensures r.RegionConsistent(r.regions.entries[rg]) {
          if rg != region {
            assert inv.RegionConsistent(inv.regions.entries[rg]);
          }
        }
      }
      r
  }

  /**
   * One group under `all`: a mapping with children is a region whose children are sites;
   * anything else is walked as a flat group.
   */
  function RegionStep(inv: Inventory, name: string, data: Yaml): (r: Result<Inventory>)
    requires inv.Valid()
    ensures r.Ok? ==> r.value.Valid()
  {
    if !data.YMap? || Lookup(data.entries, "children").None? then FlatGroup(inv, name, data)
    else
      var region := NormalizeRegion(name);
      var inv1 := if region.Some? then SetDefaultRegion(inv, region.value) else inv;
      match Items(GetOr(data.entries, "children", YMap([])))
      case Err(e) => Err(e)
      case Ok(sites) => SitesFrom(inv1, region, sites, 0)
  }

  function RegionsFrom(inv: Inventory, groups: seq<(string, Yaml)>, i: nat): (r: Result<Inventory>)
    requires i <= |groups|
    requires inv.Valid()
    ensures r.Ok? ==> r.value.Valid()
    decreases |groups| - i
  {
    if i == |groups| then Ok(inv)
    else match RegionStep(inv, groups[i].0, groups[i].1)
      case Err(e) => Err(e)
      case Ok(inv') => RegionsFrom(inv', groups, i + 1)
  }

  // ---------------------------------------------------------------------------------------
  // Flat groups

  /** The record of a host of a flat group: its role is the `device_role` var or the group name. */
  function FlatHost(groupName: string, vars: seq<(string, Yaml)>, hostname: string, hd: seq<(string, Yaml)>): (d: DeviceInfo)
    ensures d.hostname == hostname && d.ip == GetOr(hd, "ansible_host", YNull)
    ensures d.role == GetOr(vars, "device_role", YStr(groupName))
    ensures d.domain == GetOr(vars, "domain", YStr(""))
    ensures forall i :: 0 <= i < |d.extra| ==> d.extra[i].0 != "ansible_host" && d.extra[i] in hd
    ensures forall i :: 0 <= i < |hd| && hd[i].0 != "ansible_host" ==> hd[i] in d.extra
    ensures d.site == "" && d.siteNumber.None? && d.region.None?
  {
    DeviceInfo(hostname, GetOr(hd, "ansible_host", YNull), GetOr(vars, "device_role", YStr(groupName)),
      GetOr(vars, "domain", YStr("")), "", None, YNull, YNull, None, YNull, YNull, YNull, YNull,
      Without(hd, "ansible_host"))
  }

  /** One host of a flat group; fails when its data or the group's vars are not mappings. */
  function AddFlatHost(inv: Inventory, groupName: string, vars: Yaml, hostname: string, hostData: Yaml): (r: Result<Inventory>)
    requires inv.Valid()
    ensures r.Ok? <==> OrEmpty(hostData).YMap? && vars.YMap?
    ensures r.Ok? ==> r.value.Valid() && r.value.sites == inv.sites && r.value.regions == inv.regions
    ensures r.Ok? ==> r.value.devices.entries == inv.devices.entries[hostname := FlatHost(groupName, vars.entries, hostname, OrEmpty(hostData).entries)]
  {
    var hd := OrEmpty(hostData);
    if !hd.YMap? || !vars.YMap? then Err("AttributeError: not a mapping")
    else
      PutDeviceValid(inv, hostname, FlatHost(groupName, vars.entries, hostname, hd.entries));
      Ok(inv.(devices := inv.devices.Put(hostname, FlatHost(groupName, vars.entries, hostname, hd.entries))))
  }

  function FlatHostsFrom(inv: Inventory, groupName: string, vars: Yaml, hosts: seq<(string, Yaml)>, i: nat): (r: Result<Inventory>)
    requires i <= |hosts|
    requires inv.Valid()
    ensures r.Ok? ==> r.value.Valid() && r.value.sites == inv.sites && r.value.regions == inv.regions
    decreases |hosts| - i
  {
    if i == |hosts| then Ok(inv)
    else match AddFlatHost(inv, groupName, vars, hosts[i].0, hosts[i].1)
      case Err(e) => Err(e)
      case Ok(inv') => FlatHostsFrom(inv', groupName, vars, hosts, i + 1)
  }

  /**
   * A group outside the region/site structure: its mapping children are walked first, then
   * its own hosts are stored. Anything but a mapping adds nothing.
   */
  function FlatGroup(inv: Inventory, name: string, data: Yaml): (r: Result<Inventory>)
    requires inv.Valid()
    ensures r.Ok? ==> r.value.Valid() && r.value.sites == inv.sites && r.value.regions == inv.regions
    ensures !data.YMap? ==> r == Ok(inv)
    decreases data, 0
  {
    if !data.YMap? then Ok(inv)
    else
      var walked := match Lookup(data.entries, "children")
        case None => Ok(inv)
        case Some(children) =>
          if !children.YMap? then Err("AttributeError: not a mapping") else FlatChildrenFrom(inv, children, 0);
      match walked
        case Err(e) => Err(e)
        case Ok(inv1) =>
          var vars := GetOr(data.entries, "vars", YMap([]));
          var hosts := GetOr(data.entries, "hosts", YMap([]));
          if !hosts.Truthy() then Ok(inv1)
          else match Items(hosts)
            case Err(e) => Err(e)
            case Ok(hs) => FlatHostsFrom(inv1, name, vars, hs, 0)
  }

  /** The entries of a flat group's `children` from entry `i` on; those that are not mappings are skipped. */
  function FlatChildrenFrom(inv: Inventory, children: Yaml, i: nat): (r: Result<Inventory>)
    requires children.YMap? && i <= |children.entries|
    requires inv.Valid()
    ensures r.Ok? ==> r.value.Valid() && r.value.sites == inv.sites && r.value.regions == inv.regions
    decreases children, |children.entries| - i
  {
    if i == |children.entries| then Ok(inv)
    else
      var (childName, childData) := children.entries[i];
      assert childData < children by {
        assert children.entries[i] in children.entries;
      }
      var step := if childData.YMap? then FlatGroup(inv, childName, childData) else Ok(inv);
      match step
      case Err(e) => Err(e)
      case Ok(inv') => FlatChildrenFrom(inv', children, i + 1)
  }

  // ---------------------------------------------------------------------------------------
  // The whole tree

  /**
   * `not raw or "all" not in raw`, then `raw["all"]`: None when there is nothing to load;
   * raises when `raw` is truthy, not a mapping, and "all" is found in it (or it cannot be
   * searched at all).
   */
  function AllSection(raw: Yaml): (r: Result<Option<Yaml>>)
    ensures !raw.Truthy() ==> r == Ok(None)
    ensures raw.YMap? ==> r == Ok(Lookup(raw.entries, "all"))
    ensures (raw.YInt? || raw.YBool?) && raw.Truthy() ==> r.Err?
  {
    if !raw.Truthy() then Ok(None)
    else match raw
      case YMap(es) => Ok(Lookup(es, "all"))
      case YList(xs) => if YStr("all") in xs then Err("TypeError: list indices must be integers") else Ok(None)
      case YStr(s) => if Contains(s, "all") then Err("TypeError: string indices must be integers") else Ok(None)
      case _ => Err("TypeError: argument is not iterable")
  }

  /**
   * The inventory described by `raw`. A tree that is empty or has no top-level "all" gives the
   * empty inventory; an "all" that is not a mapping raises.
   */
  function Load(raw: Yaml): (r: Result<Inventory>)
    ensures r.Ok? ==> r.value.Valid()
    ensures !raw.Truthy() ==> r == Ok(EmptyInventory())
    ensures raw.YMap? && Lookup(raw.entries, "all").None? ==> r == Ok(EmptyInventory())
    ensures raw.YMap? && Lookup(raw.entries, "all").Some? && !Lookup(raw.entries, "all").value.YMap? ==> r.Err?
  {
    match AllSection(raw)
    case Err(e) => Err(e)
    case Ok(None) => Ok(EmptyInventory())
    case Ok(Some(all)) =>
      if !all.YMap? then Err("AttributeError: not a mapping")
      else match Items(GetOr(all.entries, "children", YMap([])))
        case Err(e) => Err(e)
        case Ok(groups) => RegionsFrom(EmptyInventory(), groups, 0)
  }

  // ---------------------------------------------------------------------------------------
  // The walk

  /** `load_ansible_inventory` on an already-parsed tree. */
  method LoadAnsibleInventory(raw: Yaml) returns (r: Result<Inventory>)
    ensures r == Load(raw)
  {
    var all := AllSection(raw);
    if all.Err? {
      return Err(all.message);
    }
    if all.value.None? {
      return Ok(EmptyInventory());
    }
    var section := all.value.value;
    if !section.YMap? {
      return Err("AttributeError: not a mapping");
    }
    var children := GetOr(section.entries, "children", YMap([]));
    if !children.YMap? {
      return Err("AttributeError: not a mapping");
    }
    r := ProcessRegions(EmptyInventory(), children.entries);
  }

  /** The groups under `all`, in order. */
  method ProcessRegions(inv: Inventory, groups: seq<(string, Yaml)>) returns (r: Result<Inventory>)
    requires inv.Valid()
    ensures r == RegionsFrom(inv, groups, 0)
  {
    var cur := inv;
    var i := 0;
    while i < |groups|
      invariant i <= |groups| && cur.Valid()
      invariant RegionsFrom(inv, groups, 0) == RegionsFrom(cur, groups, i)
    {
      var step := ProcessRegion(cur, groups[i].0, groups[i].1);
      if step.Err? {
        return step;
      }
      cur := step.value;
      i := i + 1;
    }
    return Ok(cur);
  }

  /** One group under `all`: a region's sites, or a flat group. */
  method ProcessRegion(inv: Inventory, name: string, data: Yaml) returns (r: Result<Inventory>)
    requires inv.Valid()
    ensures r == RegionStep(inv, name, data)
  {
    if !data.YMap? || Lookup(data.entries, "children").None? {
      r := ProcessFlatGroup(inv, name, data);
      return;
    }
    var region := NormalizeRegion(name);
    var cur := inv;
    if region.Some? {
      cur := SetDefaultRegion(cur, region.value);
    }
    var sites := GetOr(data.entries, "children", YMap([]));
    if !sites.YMap? {
      return Err("AttributeError: not a mapping");
    }
    r := ProcessSites(cur, region, sites.entries);
  }

  /** The site groups of one region. */
  method ProcessSites(inv: Inventory, region: Option<string>, sites: seq<(string, Yaml)>) returns (r: Result<Inventory>)
    requires inv.Valid()
    ensures r == SitesFrom(inv, region, sites, 0)
  {
    var cur := inv;
    var i := 0;
    while i < |sites|
      invariant i <= |sites| && cur.Valid()
      invariant SitesFrom(inv, region, sites, 0) == SitesFrom(cur, region, sites, i)
    {
      var step := ProcessSite(cur, region, sites[i].0, sites[i].1);
      if step.Err? {
        return step;
      }
      cur := step.value;
      i := i + 1;
    }
    return Ok(cur);
  }

  /** One site group: register the site, then walk its role groups. */
  method ProcessSite(inv: Inventory, region: Option<string>, siteName: string, siteData: Yaml) returns (r: Result<Inventory>)
    requires inv.Valid()
    ensures r == SiteStep(inv, region, siteName, siteData)
  {
    var num := ExtractSiteNumber(siteName);
    if num.None? {
      return Ok(inv);
    }
    var sid := SiteId(num.value);
    var cur := OpenSite(inv, region, sid, num.value);
    if !siteData.YMap? || Lookup(siteData.entries, "children").None? {
      return Ok(cur);
    }
    var groups := GetOr(siteData.entries, "children", YMap([]));
    if !groups.YMap? {
      return Err("AttributeError: not a mapping");
    }
    r := ProcessRoleGroups(cur, SiteContext(sid, num.value, region), groups.entries);
  }

  /** The role groups of one site. */
  method ProcessRoleGroups(inv: Inventory, s: SiteContext, groups: seq<(string, Yaml)>) returns (r: Result<Inventory>)
    requires inv.Valid() && s.siteId in inv.sites.entries
    ensures r == RoleGroupsFrom(inv, s, groups, 0)
  {
    var cur := inv;
    var i := 0;
    while i < |groups|
      invariant i <= |groups| && cur.Valid() && s.siteId in cur.sites.entries
      invariant RoleGroupsFrom(inv, s, groups, 0) == RoleGroupsFrom(cur, s, groups, i)
    {
      var step := ProcessRoleGroup(cur, s, groups[i].0, groups[i].1);
      if step.Err? {
        return step;
      }
      cur := step.value;
      i := i + 1;
    }
    return Ok(cur);
  }

  /** One role group: resolve its role, then store its hosts. */
  method ProcessRoleGroup(inv: Inventory, s: SiteContext, roleGroup: string, roleData: Yaml) returns (r: Result<Inventory>)
    requires inv.Valid() && s.siteId in inv.sites.entries
    ensures r == RoleGroupStep(inv, s, roleGroup, roleData)
  {
    if !roleData.YMap? {
      return Ok(inv);
    }
    var vars := GetOr(roleData.entries, "vars", YMap([]));
    if !vars.YMap? {
      return Err("AttributeError: not a mapping");
    }
    var g := ResolveGroup(s, roleGroup, vars.entries);
    var hosts := GetOr(roleData.entries, "hosts", YMap([]));
    if !hosts.Truthy() {
      return Ok(inv);
    }
    if !hosts.YMap? {
      return Err("AttributeError: not a mapping");
    }
    r := AddSiteHosts(inv, g, hosts.entries);
  }

  /** The hosts of one role group: each is stored and appended to its site's lists. */
  method AddSiteHosts(inv: Inventory, g: GroupContext, hosts: seq<(string, Yaml)>) returns (r: Result<Inventory>)
    requires inv.Valid() && g.site.siteId in inv.sites.entries
    ensures r == AddSiteHostsFrom(inv, g, hosts, 0)
  {
    var sid := g.site.siteId;
    var cur := inv;
    var i := 0;
    while i < |hosts|
      invariant i <= |hosts| && cur.Valid() && sid in cur.sites.entries
      invariant AddSiteHostsFrom(inv, g, hosts, 0) == AddSiteHostsFrom(cur, g, hosts, i)
    {
      var (hostname, hostData) := hosts[i];
      var hd := OrEmpty(hostData);
      if !hd.YMap? {
        return Err("AttributeError: not a mapping");
      }
      var target := RoleKey(g.role);
      if target.Err? {
        return Err(target.message);
      }
      var device := SiteHost(g, hostname, hd.entries);
      var site := SiteWithHost(cur.sites.entries[sid], hostname, target.value);
      assert AddSiteHost(cur, g, hostname, hostData).Ok?;
      cur := Inventory(cur.devices.Put(hostname, device), cur.sites.Put(sid, site), cur.regions);
      i := i + 1;
    }
    return Ok(cur);
  }

  /** `_process_flat_group`: children first, then the group's own hosts. */
  method ProcessFlatGroup(inv: Inventory, name: string, data: Yaml) returns (r: Result<Inventory>)
    requires inv.Valid()
    ensures r == FlatGroup(inv, name, data)
    decreases data
  {
    if !data.YMap? {
      return Ok(inv);
    }
    var cur := inv;
    var children := Lookup(data.entries, "children");
    if children.Some? {
      var c := children.value;
      if !c.YMap? {
        return Err("AttributeError: not a mapping");
      }
      var j := 0;
      while j < |c.entries|
        invariant j <= |c.entries| && cur.Valid()
        invariant FlatChildrenFrom(inv, c, 0) == FlatChildrenFrom(cur, c, j)
      {
        var (childName, childData) := c.entries[j];
        if childData.YMap? {
          assert c.entries[j] in c.entries;
          var step := ProcessFlatGroup(cur, childName, childData);
          if step.Err? {
            return step;
          }
          cur := step.value;
        }
        j := j + 1;
      }
    }
    var vars := GetOr(data.entries, "vars", YMap([]));
    var hosts := GetOr(data.entries, "hosts", YMap([]));
    if !hosts.Truthy() {
      return Ok(cur);
    }
    if !hosts.YMap? {
      return Err("AttributeError: not a mapping");
    }
    r := AddFlatHosts(cur, name, vars, hosts.entries);
  }

  /** The loop over a flat group's hosts: each host, in order, is added or the walk fails. */
  method AddFlatHosts(inv: Inventory, name: string, vars: Yaml, hosts: seq<(string, Yaml)>) returns (r: Result<Inventory>)
    requires inv.Valid()
    ensures r == FlatHostsFrom(inv, name, vars, hosts, 0)
  {
    var cur := inv;
    var k := 0;
    while k < |hosts|
      invariant k <= |hosts| && cur.Valid()
      invariant FlatHostsFrom(inv, name, vars, hosts, 0) == FlatHostsFrom(cur, name, vars, hosts, k)
    {
      var (hostname, hostData) := hosts[k];
      var hd := OrEmpty(hostData);
      if !hd.YMap? || !vars.YMap? {
        return Err("AttributeError: not a mapping");
      }
      assert AddFlatHost(cur, name, vars, hostname, hostData).Ok?;
      cur := cur.(devices := cur.devices.Put(hostname, FlatHost(name, vars.entries, hostname, hd.entries)));
      k := k + 1;
    }
    return Ok(cur);
  }
}
