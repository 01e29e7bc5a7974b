/**
 * The AGG-first path walker (backend/path_walker.py, `PathWalkerV2`): every BGP path seen
 * on the aggregation router is decoded into a derived path whose hop list runs
 * DCPE, SPE, T2 firewall, AGG; the derived paths are then sorted by preference.
 */
module PathWalker {
  import opened Wrappers
  import opened Text
  import opened CommunityDecoder
  import Inventory
  import BgpCollector
  import StableSort
  import Seqs

  /** The walker's input record: a BGP path together with the `active` flag the walker reads. */
  datatype InputPath = InputPath(bgp: BgpCollector.BgpPath, active: bool)

  /** The roles a derived hop can have, south to north. */
  datatype HopRole = DcpeHop | SpeHop | T2FwHop | AggHop {
    function Name(): string {
      match this
      case DcpeHop => "dcpe"
      case SpeHop => "spe"
      case T2FwHop => "t2_fw"
      case AggHop => "agg"
    }

    /** Position in the south-to-north order. */
    function Rank(): nat {
      match this
      case DcpeHop => 0
      case SpeHop => 1
      case T2FwHop => 2
      case AggHop => 3
    }
  }

  /** PathHopV2. */
  datatype Hop = Hop(
    device: string,
    role: HopRole,
    domain: string,
    site: Option<string>,
    vrf: Option<string>,
    nextHop: Option<string>,
    iface: Option<string>,
    labelText: Option<string>)

  /** DerivedPath. */
  datatype DerivedPath = DerivedPath(
    pathId: string,
    preference: Preference,
    localPref: int,
    originSite: Option<string>,
    advertisingSite: Option<string>,
    region: Option<Region>,
    hops: seq<Hop>,
    communities: seq<string>,
    asPath: string,
    nextHop: string,
    firewall: Option<FirewallIdentity>,
    decoded: Decoded,
    active: bool,
    description: string)

  /** TraceResult. */
  datatype TraceResult = TraceResult(
    prefix: string,
    queryDevice: string,
    paths: seq<DerivedPath>,
    primaryPath: Option<DerivedPath>,
    warnings: seq<string>,
    rawPathCount: nat)

  /** The inventory the walker was built with, if any: its dictionaries are well formed. */
  ghost predicate Usable(inv: Option<Inventory.Inventory>) {
    inv.Some? ==> inv.value.devices.Valid() && inv.value.sites.Valid()
  }

  /** `s or fallback` for an optional string. */
  function OrElse(s: Option<string>, fallback: string): (r: string)
    ensures Inventory.Given(s) ==> r == s.value
    ensures !Inventory.Given(s) ==> r == fallback
  {
    if Inventory.Given(s) then s.value else fallback
  }

  /** `site_id_from_number(n)` when there is an inventory and a number. */
  function SiteOfNumber(inv: Option<Inventory.Inventory>, n: Option<nat>): Option<string>
    requires Usable(inv)
  {
    if n.Some? && inv.Some? then inv.value.SiteIdFromNumber(n.value) else None
  }

  // ----- The hop list -----

  /** Step 1: the origin DCPE. */
  function DcpeStep(inv: Option<Inventory.Inventory>, d: Decoded, originSiteId: Option<string>): (r: Option<Hop>)
    ensures r.Some? ==> r.value.role == DcpeHop && r.value.domain == "pe_zone"
    ensures r.Some? <==> (Inventory.Given(originSiteId) && inv.Some?) || d.oid.Some?
  {
    if Inventory.Given(originSiteId) && inv.Some? then
      var dcpes := inv.value.GetDcpeForSite(originSiteId.value);
      if dcpes != [] then
        Some(Hop(dcpes[0].hostname, DcpeHop, "pe_zone", originSiteId, None, None, None,
          Some("Origin DCPE at " + OrElse(d.originSite, originSiteId.value))))
      else
        Some(Hop("dcpe-" + OrElse(d.originSite, "unknown"), DcpeHop, "pe_zone", originSiteId, None, None, None,
          Some("Origin DCPE at " + OrElse(d.originSite, "unknown"))))
    else if d.oid.Some? then
      Some(Hop("dcpe-site-" + NatToString(d.oid.value), DcpeHop, "pe_zone", None, None, None, None,
        Some("Origin DCPE at Site-" + NatToString(d.oid.value))))
    else None
  }

  /** Step 2: the SPE. */
  function SpeStep(inv: Option<Inventory.Inventory>, d: Decoded, originSiteId: Option<string>): (r: Option<Hop>)
    ensures r.Some? ==> r.value.role == SpeHop && r.value.domain == "pe_zone"
  {
    if Inventory.Given(originSiteId) && inv.Some? then
      var spes := inv.value.GetSpeForSite(originSiteId.value);
      if spes != [] then
        Some(Hop(spes[0].hostname, SpeHop, "pe_zone", originSiteId, None, None, None,
          Some("SPE at " + OrElse(d.originSite, originSiteId.value))))
      else None
    else if d.oid.Some? then
      Some(Hop("spe-site-" + NatToString(d.oid.value), SpeHop, "pe_zone", None, None, None, None,
        Some("SPE at Site-" + NatToString(d.oid.value))))
    else None
  }

  /** The T2 firewall named by a next-hop-derived identity. */
  function FirewallHop(fw: FirewallIdentity): Hop {
    Hop("t2fw-" + fw.region.Name() + "-vrf" + NatToString(fw.vrfId), T2FwHop, "boundary", None, None,
      Some(fw.nextHop), None,
      Some("T2 FW (" + ToUpper(fw.region.Name()) + ", VRF " + NatToString(fw.vrfId) + ")"))
  }

  /** Step 3: the T2 firewall, from the next hop, else from the advertising site. */
  function FirewallStep(d: Decoded, fw: Option<FirewallIdentity>): (r: Option<Hop>)
    ensures r.Some? ==> r.value.role == T2FwHop && r.value.domain == "boundary"
    ensures r.Some? <==> fw.Some? || d.aid.Some?
  {
    if fw.Some? then Some(FirewallHop(fw.value))
    else if d.aid.Some? then
      var adSite := OrElse(d.advertisingSite, "Site-" + NatToString(d.aid.value));
      Some(Hop("t2fw-" + adSite, T2FwHop, "boundary", None, None, None, None, Some("T2 FW at " + adSite)))
    else None
  }

  /** The AGG router named for a site: its first route reflector, else its first AGG. */
  function AggName(inv: Inventory.Inventory, aggSite: string): string
    requires inv.devices.Valid()
  {
    var aggs := inv.GetAggRouters(Some(aggSite));
    var rrs := inv.GetRrRouters(Some(aggSite));
    if rrs != [] then rrs[0].hostname else if aggs != [] then aggs[0].hostname else "agg-" + aggSite
  }

  /** Step 4: the AGG that was queried. */
  function AggStep(inv: Option<Inventory.Inventory>, d: Decoded): (r: Hop)
    requires Usable(inv)
    ensures r.role == AggHop && r.domain == "backbone"
  {
    var aggSite := SiteOfNumber(inv, d.aid);
    if Inventory.Given(aggSite) && inv.Some? then
      Hop(AggName(inv.value, aggSite.value), AggHop, "backbone", aggSite, None, None, None,
        Some("AGG RR at " + OrElse(d.advertisingSite, aggSite.value)))
    else
      Hop("agg", AggHop, "backbone", None, None, None, None, Some("AGG (queried)"))
  }

  function AsList(h: Option<Hop>): seq<Hop> {
    if h.Some? then [h.value] else []
  }

  /** What `_build_hop_list` returns. */
  function HopList(inv: Option<Inventory.Inventory>, d: Decoded, fw: Option<FirewallIdentity>): (r: seq<Hop>)
    requires Usable(inv)
    ensures 1 <= |r| <= 4
    ensures r[|r| - 1].role == AggHop && r[|r| - 1].domain == "backbone"
  {
    var origin := SiteOfNumber(inv, d.oid);
    AsList(DcpeStep(inv, d, origin)) + AsList(SpeStep(inv, d, origin)) + AsList(FirewallStep(d, fw))
      + [AggStep(inv, d)]
  }

  /** `_build_hop_list`: appends the hops it can derive, south to north. */
  method BuildHopList(inv: Option<Inventory.Inventory>, d: Decoded, fw: Option<FirewallIdentity>)
    returns (hops: seq<Hop>)
    requires Usable(inv)
    ensures hops == HopList(inv, d, fw)
  {
    hops := [];
    var originSiteId: Option<string> := None;
    if d.oid.Some? && inv.Some? {
      originSiteId := inv.value.SiteIdFromNumber(d.oid.value);
    }
    hops := AppendDcpe(hops, inv, d, originSiteId);
    assert hops == AsList(DcpeStep(inv, d, originSiteId));
    hops := AppendSpe(hops, inv, d, originSiteId);
    hops := AppendFirewall(hops, d, fw);
    hops := AppendAgg(hops, inv, d);
  }

  /** Step 1 of `_build_hop_list`: the first of the site's DCPEs, else a placeholder. */
  method AppendDcpe(hops: seq<Hop>, inv: Option<Inventory.Inventory>, d: Decoded, originSiteId: Option<string>)
    returns (hops': seq<Hop>)
    ensures hops' == hops + AsList(DcpeStep(inv, d, originSiteId))
  {
    hops' := hops;
    if Inventory.Given(originSiteId) && inv.Some? {
      var dcpes := inv.value.GetDcpeForSite(originSiteId.value);
      if dcpes != [] {
        // The loop over the DCPEs breaks after the first one.
        hops' := hops' + [Hop(dcpes[0].hostname, DcpeHop, "pe_zone", originSiteId, None, None, None,
          Some("Origin DCPE at " + OrElse(d.originSite, originSiteId.value)))];
      } else {
        hops' := hops' + [Hop("dcpe-" + OrElse(d.originSite, "unknown"), DcpeHop, "pe_zone", originSiteId,
          None, None, None, Some("Origin DCPE at " + OrElse(d.originSite, "unknown")))];
      }
    } else if d.oid.Some? {
      hops' := hops' + [Hop("dcpe-site-" + NatToString(d.oid.value), DcpeHop, "pe_zone", None, None, None, None,
        Some("Origin DCPE at Site-" + NatToString(d.oid.value)))];
    }
  }

  /** Step 2 of `_build_hop_list`: the site's first SPE, or a placeholder without a site. */
  method AppendSpe(hops: seq<Hop>, inv: Option<Inventory.Inventory>, d: Decoded, originSiteId: Option<string>)
    returns (hops': seq<Hop>)
    ensures hops' == hops + AsList(SpeStep(inv, d, originSiteId))
  {
    hops' := hops;
    if Inventory.Given(originSiteId) && inv.Some? {
      var spes := inv.value.GetSpeForSite(originSiteId.value);
      if spes != [] {
        hops' := hops' + [Hop(spes[0].hostname, SpeHop, "pe_zone", originSiteId, None, None, None,
          Some("SPE at " + OrElse(d.originSite, originSiteId.value)))];
      }
    } else if d.oid.Some? {
      hops' := hops' + [Hop("spe-site-" + NatToString(d.oid.value), SpeHop, "pe_zone", None, None, None, None,
        Some("SPE at Site-" + NatToString(d.oid.value)))];
    }
  }

  /** Step 3 of `_build_hop_list`: the T2 firewall. */
  method AppendFirewall(hops: seq<Hop>, d: Decoded, fw: Option<FirewallIdentity>) returns (hops': seq<Hop>)
    ensures hops' == hops + AsList(FirewallStep(d, fw))
  {
    hops' := hops;
    if fw.Some? {
      hops' := hops' + [FirewallHop(fw.value)];
    } else if d.aid.Some? {
      var adSite := OrElse(d.advertisingSite, "Site-" + NatToString(d.aid.value));
      hops' := hops' + [Hop("t2fw-" + adSite, T2FwHop, "boundary", None, None, None, None, Some("T2 FW at " + adSite))];
    }
  }

  /** Step 4 of `_build_hop_list`: the AGG. */
  method AppendAgg(hops: seq<Hop>, inv: Option<Inventory.Inventory>, d: Decoded) returns (hops': seq<Hop>)
    requires Usable(inv)
    ensures hops' == hops + [AggStep(inv, d)]
  {
    var aggSite: Option<string> := None;
    if d.aid.Some? && inv.Some? {
      aggSite := inv.value.SiteIdFromNumber(d.aid.value);
    }
    if Inventory.Given(aggSite) && inv.Some? {
      var aggs := inv.value.GetAggRouters(aggSite);
      var rrs := Seqs.Filter(aggs, Inventory.IsRouteReflector);
      var aggName := if rrs != [] then rrs[0].hostname else if aggs != [] then aggs[0].hostname else "agg-" + aggSite.value;
      hops' := hops + [Hop(aggName, AggHop, "backbone", aggSite, None, None, None,
        Some("AGG RR at " + OrElse(d.advertisingSite, aggSite.value)))];
    } else {
      hops' := hops + [Hop("agg", AggHop, "backbone", None, None, None, None, Some("AGG (queried)"))];
    }
  }

  // ----- Properties of the hop list -----

  /** The first hop with role `role`. */
  function HopOfRole(hops: seq<Hop>, role: HopRole): (r: Option<Hop>)
    ensures r.Some? ==> r.value in hops && r.value.role == role
    ensures r.None? ==> forall k :: 0 <= k < |hops| ==> hops[k].role != role
  {
    if hops == [] then None
    else if hops[0].role == role then Some(hops[0])
    else HopOfRole(hops[1..], role)
  }

  lemma {:induction false} HopOfRoleConcat(a: seq<Hop>, b: seq<Hop>, role: HopRole)
    ensures HopOfRole(a + b, role) == if HopOfRole(a, role).Some? then HopOfRole(a, role) else HopOfRole(b, role)
  {
    if a == [] {
      assert a + b == b;
    } else {
      assert (a + b)[1..] == a[1..] + b;
      HopOfRoleConcat(a[1..], b, role);
    }
  }

  /** Four optional hops, one per role in south-to-north order. */
  predicate InRoleOrder(a: Option<Hop>, b: Option<Hop>, c: Option<Hop>, z: Hop) {
    && (a.Some? ==> a.value.role == DcpeHop)
    && (b.Some? ==> b.value.role == SpeHop)
    && (c.Some? ==> c.value.role == T2FwHop)
    && z.role == AggHop
  }

  /** Hops collected in role order have strictly increasing ranks and end with the AGG. */
  lemma PiecesShape(a: Option<Hop>, b: Option<Hop>, c: Option<Hop>, z: Hop)
    requires InRoleOrder(a, b, c, z)
    ensures var hops := AsList(a) + AsList(b) + AsList(c) + [z];
      && 1 <= |hops| <= 4 && hops[|hops| - 1] == z
      && (forall i, j :: 0 <= i < j < |hops| ==> hops[i].role.Rank() < hops[j].role.Rank())
  {
    var la, lb, lc := AsList(a), AsList(b), AsList(c);
    var hops := la + lb + lc + [z];
    forall i | 0 <= i < |hops|
      ensures hops[i].role.Rank() == if i < |la| then 0
        else if i < |la| + |lb| then 1
        else if i < |la| + |lb| + |lc| then 2
        else 3
    {
      if i < |la| {
        assert hops[i] == la[i];
      } else if i < |la| + |lb| {
        assert hops[i] == lb[i - |la|];
      } else if i < |la| + |lb| + |lc| {
        assert hops[i] == lc[i - |la| - |lb|];
      }
    }
  }

  /**
   * The hop list holds at most one hop per role, in the order DCPE, SPE, T2 firewall, AGG,
   * and always ends with exactly one AGG hop in the backbone domain.
   */
  lemma HopListShape(inv: Option<Inventory.Inventory>, d: Decoded, fw: Option<FirewallIdentity>)
    requires Usable(inv)
    ensures var hops := HopList(inv, d, fw);
      && 1 <= |hops| <= 4
      && hops[|hops| - 1].role == AggHop && hops[|hops| - 1].domain == "backbone"
      && (forall i, j :: 0 <= i < j < |hops| ==> hops[i].role.Rank() < hops[j].role.Rank())
  {
    var origin := SiteOfNumber(inv, d.oid);
    PiecesShape(DcpeStep(inv, d, origin), SpeStep(inv, d, origin), FirewallStep(d, fw), AggStep(inv, d));
  }

  /** The first hop of a role in a list of at most one hop. */
  lemma HopOfRoleSingle(h: Option<Hop>, role: HopRole)
    ensures HopOfRole(AsList(h), role) == if h.Some? && h.value.role == role then h else None
  {
    if h.Some? {
      assert AsList(h)[1..] == [];
    }
  }

  /** The first hop of a role among four collected optional hops. */
  lemma RoleInPieces(a: Option<Hop>, b: Option<Hop>, c: Option<Hop>, z: Option<Hop>, role: HopRole)
    ensures HopOfRole(AsList(a) + AsList(b) + AsList(c) + AsList(z), role)
      == if a.Some? && a.value.role == role then a
         else if b.Some? && b.value.role == role then b
         else if c.Some? && c.value.role == role then c
         else if z.Some? && z.value.role == role then z else None
  {
    HopOfRoleConcat(AsList(a) + AsList(b) + AsList(c), AsList(z), role);
    HopOfRoleConcat(AsList(a) + AsList(b), AsList(c), role);
    HopOfRoleConcat(AsList(a), AsList(b), role);
    HopOfRoleSingle(a, role);
    HopOfRoleSingle(b, role);
    HopOfRoleSingle(c, role);
    HopOfRoleSingle(z, role);
  }

  /** In hops collected in role order, the hop of each role is the one collected for it. */
  lemma PiecesByRole(a: Option<Hop>, b: Option<Hop>, c: Option<Hop>, z: Hop)
    requires InRoleOrder(a, b, c, z)
    ensures var hops := AsList(a) + AsList(b) + AsList(c) + [z];
      && HopOfRole(hops, DcpeHop) == a && HopOfRole(hops, SpeHop) == b
      && HopOfRole(hops, T2FwHop) == c && HopOfRole(hops, AggHop) == Some(z)
  {
    assert [z] == AsList(Some(z));
    RoleInPieces(a, b, c, Some(z), DcpeHop);
    RoleInPieces(a, b, c, Some(z), SpeHop);
    RoleInPieces(a, b, c, Some(z), T2FwHop);
    RoleInPieces(a, b, c, Some(z), AggHop);
  }

  /** Which hop the list holds for each role. */
  lemma HopsByRole(inv: Option<Inventory.Inventory>, d: Decoded, fw: Option<FirewallIdentity>)
    requires Usable(inv)
    ensures var hops := HopList(inv, d, fw); var origin := SiteOfNumber(inv, d.oid);
      && HopOfRole(hops, DcpeHop) == DcpeStep(inv, d, origin)
      && HopOfRole(hops, SpeHop) == SpeStep(inv, d, origin)
      && HopOfRole(hops, T2FwHop) == FirewallStep(d, fw)
      && HopOfRole(hops, AggHop) == Some(AggStep(inv, d))
  {
    var origin := SiteOfNumber(inv, d.oid);
    PiecesByRole(DcpeStep(inv, d, origin), SpeStep(inv, d, origin), FirewallStep(d, fw), AggStep(inv, d));
  }

  /**
   * Without an inventory, an origin id yields the placeholders "dcpe-site-N" and
   * "spe-site-N"; with no origin id, no firewall and no advertising id the list is only
   * the queried AGG.
   */
  lemma PlaceholderHops(d: Decoded, fw: Option<FirewallIdentity>)
    ensures var hops := HopList(None, d, fw);
      && (d.oid.Some? ==>
            (&& |hops| >= 3
             && hops[0].device == "dcpe-site-" + NatToString(d.oid.value)
             && hops[1].device == "spe-site-" + NatToString(d.oid.value)))
      && (d.oid.None? && fw.None? && d.aid.None? ==>
            hops == [Hop("agg", AggHop, "backbone", None, None, None, None, Some("AGG (queried)"))])
  {
    var hops := HopList(None, d, fw);
    if d.oid.Some? {
      var n := NatToString(d.oid.value);
      assert hops == [DcpeStep(None, d, None).value, SpeStep(None, d, None).value]
        + AsList(FirewallStep(d, fw)) + [AggStep(None, d)];
    }
  }

  /**
   * The T2 firewall hop comes from the next-hop-derived firewall when there is one,
   * otherwise from the advertising site; with neither there is none.
   */
  lemma FirewallHopChoice(inv: Option<Inventory.Inventory>, d: Decoded, fw: Option<FirewallIdentity>)
    requires Usable(inv)
    ensures var t2 := HopOfRole(HopList(inv, d, fw), T2FwHop);
      && (fw.Some? ==>
            (&& t2.Some?
             && t2.value.device == "t2fw-" + fw.value.region.Name() + "-vrf" + NatToString(fw.value.vrfId)
             && t2.value.nextHop == Some(fw.value.nextHop)))
      && (fw.None? && d.aid.Some? ==>
            (t2.Some? && t2.value.device == "t2fw-" + OrElse(d.advertisingSite, SiteName(d.aid.value))))
      && (fw.None? && d.aid.None? ==> t2.None?)
  {
    HopsByRole(inv, d, fw);
  }

  /**
   * The AGG hop names the site's first route reflector, else its first AGG router, else
   * "agg-<site>"; without a site for the advertising id it is the queried "agg".
   */
  lemma AggHopChoice(inv: Option<Inventory.Inventory>, d: Decoded, fw: Option<FirewallIdentity>)
    requires Usable(inv)
    ensures var agg := HopOfRole(HopList(inv, d, fw), AggHop);
      var site := SiteOfNumber(inv, d.aid);
      && agg.Some?
      && (inv.Some? && Inventory.Given(site) ==>
            var rrs := inv.value.GetRrRouters(site);
            var aggs := inv.value.GetAggRouters(site);
            && agg.value.site == site
            && (rrs != [] ==> agg.value.device == rrs[0].hostname && Inventory.IsRouteReflector(rrs[0]))
            && (rrs == [] && aggs != [] ==> agg.value.device == aggs[0].hostname)
            && (aggs == [] ==> agg.value.device == "agg-" + site.value))
      && (!(inv.Some? && Inventory.Given(site)) ==> agg.value.device == "agg" && agg.value.site.None?)
  {
    HopsByRole(inv, d, fw);
    var site := SiteOfNumber(inv, d.aid);
    if inv.Some? && Inventory.Given(site) {
      var rrs := inv.value.GetRrRouters(site);
      if rrs != [] {
        assert rrs[0] in rrs;
      }
      if inv.value.GetAggRouters(site) == [] {
        assert rrs == [];
      }
    }
  }

  // ----- One derived path -----

  /** `x or fallback` for an optional integer. */
  function IntOr(x: Option<int>, fallback: int): (r: int)
    ensures x.Some? && x.value != 0 ==> r == x.value
    ensures !(x.Some? && x.value != 0) ==> r == fallback
  {
    if x.Some? && x.value != 0 then x.value else fallback
  }

  /** `decoded.local_pref or bgp_path.local_pref or 100`: never zero. */
  function EffectiveLocalPref(decodedLp: Option<int>, bgpLp: Option<int>): (lp: int)
    ensures lp != 0
    ensures lp == 100 || (decodedLp.Some? && lp == decodedLp.value) || (bgpLp.Some? && lp == bgpLp.value)
    ensures decodedLp.Some? && decodedLp.value != 0 ==> lp == decodedLp.value
  {
    IntOr(decodedLp, IntOr(bgpLp, 100))
  }

  /** The next-hop-derived firewall, looked up only for a non-empty next hop. */
  function FirewallOf(nextHop: string): (r: Option<FirewallIdentity>)
    ensures r.Some? ==> r.value.nextHop == nextHop
    ensures nextHop == "" ==> r.None?
  {
    if nextHop != "" then DeriveFirewall(nextHop) else None
  }

  /** `pref_emoji.get(preference, "⚪")`. */
  function Emoji(p: Preference): char {
    match p
    case Primary => '\U{1F7E2}'
    case Secondary => '\U{1F7E1}'
    case Tertiary => '\U{1F534}'
    case Unknown => '\U{26AA}'
  }

  /** `preference.title()`: the name with its first letter upper-cased. */
  function Title(p: Preference): (r: string)
    ensures |r| == |p.Name()| && r[1..] == p.Name()[1..]
    ensures r[..1] == ToUpper(p.Name()[..1]) && 'A' <= r[0] <= 'Z'
  {
    ToUpper(p.Name()[..1]) + p.Name()[1..]
  }

  /** The pieces `_describe_path` joins. */
  function DescriptionParts(path: DerivedPath): (parts: seq<string>)
    ensures parts != [] && parts[0] == [Emoji(path.preference)] + " " + Title(path.preference)
    ensures path.firewall.Some? ==> parts[|parts| - 1] == "FW: " + ToUpper(path.firewall.value.region.Name())
  {
    [[Emoji(path.preference)] + " " + Title(path.preference)]
    + (if Inventory.Given(path.originSite) then ["from " + path.originSite.value] else [])
    + (if Inventory.Given(path.advertisingSite) then ["via " + path.advertisingSite.value] else [])
    + (if path.localPref != 0 then ["LP " + IntToString(path.localPref)] else [])
    + (if path.firewall.Some? then ["FW: " + ToUpper(path.firewall.value.region.Name())] else [])
  }

  /** `_describe_path`. */
  function Describe(path: DerivedPath): (r: string)
    ensures StartsWith(r, [Emoji(path.preference)] + " " + Title(path.preference))
    ensures path.firewall.Some? ==> EndsWith(r, "FW: " + ToUpper(path.firewall.value.region.Name()))
  {
    JoinStartsWithFirst(DescriptionParts(path), " | ");
    JoinEndsWithLast(DescriptionParts(path), " | ");
    Join(DescriptionParts(path), " | ")
  }

  /** The message Python gives when `decode_communities` iterates over None. */
  const NotIterable: string := "TypeError: 'NoneType' object is not iterable"

  /** `_derive_single_path` for a path that carries a community list. */
  function DerivePath(inv: Option<Inventory.Inventory>, input: InputPath, index: nat): (p: DerivedPath)
    requires Usable(inv) && input.bgp.communities.Some?
    ensures p.pathId == "path-" + NatToString(index)
    ensures p.communities == input.bgp.communities.value && p.active == input.active
    ensures p.localPref != 0
  {
      var decoded := Decode(input.bgp.communities.value, input.bgp.localPref);
      var fw := FirewallOf(input.bgp.nextHop);
      var path := DerivedPath(
        "path-" + NatToString(index),
        decoded.preference.GetOr(Unknown),
        EffectiveLocalPref(decoded.localPref, input.bgp.localPref),
        decoded.originSite, decoded.advertisingSite, decoded.region,
        HopList(inv, decoded, fw),
        input.bgp.communities.value, input.bgp.asPath, input.bgp.nextHop,
        fw, decoded, input.active, "");
      path.(description := Describe(path))
  }

  /**
   * A derived path carries the decoded communities, its preference defaults to "unknown",
   * its hop list runs south to north ending at the AGG, a next-hop-derived firewall appears
   * as the T2 firewall hop with that next hop, and its description opens with the
   * preference.
   */
  lemma DerivePathContents(inv: Option<Inventory.Inventory>, input: InputPath, index: nat)
    requires Usable(inv) && input.bgp.communities.Some?
    ensures var p := DerivePath(inv, input, index);
      && p.decoded == Decode(input.bgp.communities.value, input.bgp.localPref)
      && (p.decoded.preference.Some? ==> p.preference == p.decoded.preference.value)
      && (p.decoded.preference.None? ==> p.preference == Unknown)
      && 1 <= |p.hops| <= 4 && p.hops[|p.hops| - 1].role == AggHop
      && (p.firewall.Some? ==>
            (&& p.firewall.value.nextHop == input.bgp.nextHop
             && HopOfRole(p.hops, T2FwHop).Some?
             && HopOfRole(p.hops, T2FwHop).value.nextHop == Some(input.bgp.nextHop)))
      && StartsWith(p.description, [Emoji(p.preference)] + " " + Title(p.preference))
  {
    var p := DerivePath(inv, input, index);
    HopListShape(inv, p.decoded, p.firewall);
    FirewallHopChoice(inv, p.decoded, p.firewall);
  }

  /** `_derive_single_path`: fails only when the path carries no community list. */
  function DeriveSinglePath(inv: Option<Inventory.Inventory>, input: InputPath, index: nat): (r: Result<DerivedPath>)
    requires Usable(inv)
    ensures r.Ok? <==> input.bgp.communities.Some?
    ensures r.Ok? ==> r.value == DerivePath(inv, input, index)
  {
    if input.bgp.communities.None? then Err(NotIterable) else Ok(DerivePath(inv, input, index))
  }

  /** Every derived description carries an "LP n" part, since the local preference is never 0. */
  lemma DescriptionHasLocalPref(inv: Option<Inventory.Inventory>, input: InputPath, index: nat)
    requires Usable(inv) && input.bgp.communities.Some?
    ensures var p := DerivePath(inv, input, index);
      "LP " + IntToString(p.localPref) in DescriptionParts(p)
  {
  }

  /** Paths derived at different input positions have different ids. */
  lemma PathIdsDistinct(i: nat, j: nat)
    requires i != j
    ensures "path-" + NatToString(i) != "path-" + NatToString(j)
  {
    NatToStringRoundTrip(i);
    NatToStringRoundTrip(j);
    assert ("path-" + NatToString(i))[5..] == NatToString(i);
    assert ("path-" + NatToString(j))[5..] == NatToString(j);
  }

  // ----- All paths -----

  /** `pref_order`: primary, secondary, tertiary, unknown. */
  function PrefOrder(p: Preference): int {
    match p
    case Primary => 0
    case Secondary => 1
    case Tertiary => 2
    case Unknown => 3
  }

  /** The sort key: preference order, then the higher local preference first. */
  function SortKey(p: DerivedPath): StableSort.Key {
    (PrefOrder(p.preference), -p.localPref)
  }

  /** The outcome of `_derive_single_path` for every input, in input order. */
  function Attempts(inv: Option<Inventory.Inventory>, inputs: seq<InputPath>): (rs: seq<Result<DerivedPath>>)
    requires Usable(inv)
    ensures |rs| == |inputs|
    ensures forall k :: 0 <= k < |rs| ==> (rs[k].Ok? <==> inputs[k].bgp.communities.Some?)
  {
    seq(|inputs|, k requires 0 <= k < |inputs| => DeriveSinglePath(inv, inputs[k], k))
  }

  /** The values of outcomes from position `i` on, appended to `acc`; the first failure aborts. */
  function Collect<T>(rs: seq<Result<T>>, acc: seq<T>, i: nat): Result<seq<T>>
    requires i <= |rs|
    decreases |rs| - i
  {
    if i == |rs| then Ok(acc)
    else match rs[i]
      case Err(e) => Err(e)
      case Ok(p) => Collect(rs, acc + [p], i + 1)
  }

  /** What `derive_paths` returns (or the error it raises). */
  function Derive(inv: Option<Inventory.Inventory>, inputs: seq<InputPath>, prefix: string): (r: Result<TraceResult>)
    requires Usable(inv)
    ensures r.Ok? ==> r.value.prefix == prefix && r.value.rawPathCount == |inputs|
    ensures r.Ok? ==> r.value.primaryPath == (if r.value.paths == [] then None else Some(r.value.paths[0]))
  {
    match Collect(Attempts(inv, inputs), [], 0)
    case Err(e) => Err(e)
    case Ok(ps) =>
      var sorted := StableSort.Sorted(ps, SortKey);
      Ok(TraceResult(prefix, "agg", sorted, if sorted != [] then Some(sorted[0]) else None, [], |inputs|))
  }

  /** `derive_paths`: derives each path in input order, sorts them, and marks the first. */
  method DerivePaths(inv: Option<Inventory.Inventory>, inputs: seq<InputPath>, prefix: string)
    returns (r: Result<TraceResult>)
    requires Usable(inv)
    ensures r == Derive(inv, inputs, prefix)
  {
    ghost var attempts := Attempts(inv, inputs);
    var paths: seq<DerivedPath> := [];
    for i := 0 to |inputs|
      invariant Collect(attempts, [], 0) == Collect(attempts, paths, i)
    {
      var derived := DeriveSinglePath(inv, inputs[i], i);
      assert derived == attempts[i];
      if derived.Err? {
        return Err(derived.message);
      }
      paths := paths + [derived.value];
    }
    paths := StableSort.SortByKey(paths, SortKey);
    var primary: Option<DerivedPath> := None;
    if paths != [] {
      primary := Some(paths[0]);
    }
    r := Ok(TraceResult(prefix, "agg", paths, primary, [], |inputs|));
  }

  /** Every input has a community list. */
  predicate AllHaveCommunities(inputs: seq<InputPath>) {
    forall k :: 0 <= k < |inputs| ==> inputs[k].bgp.communities.Some?
  }

  /** The derived paths in input order. */
  function Derived(inv: Option<Inventory.Inventory>, inputs: seq<InputPath>): (ps: seq<DerivedPath>)
    requires Usable(inv) && AllHaveCommunities(inputs)
    ensures |ps| == |inputs|
  {
    seq(|inputs|, k requires 0 <= k < |inputs| => DerivePath(inv, inputs[k], k))
  }

  /** Collecting succeeds exactly when every remaining outcome is a success. */
  lemma {:induction false} CollectOk<T>(rs: seq<Result<T>>, acc: seq<T>, i: nat)
    requires i <= |rs|
    ensures Collect(rs, acc, i).Ok? <==> forall k :: i <= k < |rs| ==> rs[k].Ok?
    decreases |rs| - i
  {
    if i < |rs| && rs[i].Ok? {
      CollectOk(rs, acc + [rs[i].value], i + 1);
    }
  }

  /** When every outcome is a success, collecting appends their values in order. */
  lemma {:induction false} CollectAll<T>(rs: seq<Result<T>>, vs: seq<T>, acc: seq<T>, i: nat)
    requires i <= |rs| == |vs|
    requires forall k :: 0 <= k < |rs| ==> rs[k] == Ok(vs[k])
    ensures Collect(rs, acc, i) == Ok(acc + vs[i..])
    decreases |rs| - i
  {
    if i < |rs| {
      CollectAll(rs, vs, acc + [vs[i]], i + 1);
      assert acc + vs[i..] == acc + [vs[i]] + vs[i + 1..];
    } else {
      assert acc + vs[i..] == acc;
    }
  }

  /**
   * `derive_paths` raises exactly when some path has no community list. Otherwise it keeps
   * every input (`raw_path_count` = number of paths), the paths are a permutation of the
   * derived ones, ordered by preference and then descending local preference, paths with
   * equal keys stay in input order, and the primary path is the first one.
   */
  lemma DeriveProperties(inv: Option<Inventory.Inventory>, inputs: seq<InputPath>, prefix: string)
    requires Usable(inv)
    ensures Derive(inv, inputs, prefix).Ok? <==> AllHaveCommunities(inputs)
    ensures AllHaveCommunities(inputs) ==>
      var t := Derive(inv, inputs, prefix).value;
      var ds := Derived(inv, inputs);
      && t.prefix == prefix && t.queryDevice == "agg"
      && t.rawPathCount == |inputs| == |t.paths|
      && multiset(t.paths) == multiset(ds)
      && StableSort.SortedBy(t.paths, SortKey)
      && (forall k :: StableSort.WithKey(t.paths, SortKey, k) == StableSort.WithKey(ds, SortKey, k))
      && t.primaryPath == (if t.paths == [] then None else Some(t.paths[0]))
  {
    var rs := Attempts(inv, inputs);
    CollectOk(rs, [], 0);
    if AllHaveCommunities(inputs) {
      var ds := Derived(inv, inputs);
      CollectAll(rs, ds, [], 0);
      assert [] + ds[0..] == ds;
      StableSort.SortedProperties(ds, SortKey);
      forall k ensures StableSort.WithKey(StableSort.Sorted(ds, SortKey), SortKey, k) == StableSort.WithKey(ds, SortKey, k) {
        StableSort.SortedIsStable(ds, SortKey, k);
      }
    }
  }
}
