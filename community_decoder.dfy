/**
 * Decoding of the OID/AID community convention (backend/community_decoder.py).
 *
 * A community `X:1594` names the site X that originated a prefix (its OID), `X:194` the
 * site X that advertised it (its AID); `X:0` with 1 <= X <= 50 marks a default route and two
 * fixed communities mark child-originated routes. Local preference maps to a preference
 * label; without one it is inferred from the OID/AID pair through the regional failover
 * chains. Firewall identities are derived from next-hop addresses `100.R.V.H`.
 */
module CommunityDecoder {
  import opened Wrappers
  import opened Text

  const OidMarker: nat := 1594
  const AidMarker: nat := 194
  const DefaultMarker: nat := 0

  const CommunityDmzRoute: string := "41326:41326"
  const CommunityChildRoute: string := "3124:3124"

  const LpPrimary: int := 200
  const LpSecondary: int := 150
  const LpTertiary: int := 50

  /** The value given to an inferred local preference that the failover chains do not decide. */
  const LpUndecided: int := 100

  datatype Region = Americas | Emea | Apac | Gmn {
    function Name(): string {
      match this
      case Americas => "americas"
      case Emea => "emea"
      case Apac => "apac"
      case Gmn => "gmn"
    }
  }

  /** SITE_REGIONS: the region of a site, None for a site the table does not list. */
  function RegionOf(site: int): Option<Region> {
    if 1 <= site <= 4 then Some(Americas)
    else if site == 7 || site == 8 then Some(Emea)
    else if 17 <= site <= 19 then Some(Apac)
    else None
  }

  /** `FAILOVER_CHAINS.get(region, [])`: one chain per site of the region, headed by that site. */
  function ChainsOf(r: Region): (chains: seq<seq<int>>)
    ensures forall k :: 0 <= k < |chains| ==> chains[k] != []
  {
    match r
    case Americas => [[1, 2, 3], [2, 3, 1], [3, 2, 1], [4, 3, 2]]
    case Emea => [[7, 8], [8, 7]]
    case Apac => [[17, 18, 19], [18, 17, 19], [19, 17, 18]]
    case Gmn => []
  }

  datatype Preference = Primary | Secondary | Tertiary | Unknown {
    function Name(): string {
      match this
      case Primary => "primary"
      case Secondary => "secondary"
      case Tertiary => "tertiary"
      case Unknown => "unknown"
    }
  }

  /** DecodedCommunity. */
  datatype Decoded = Decoded(
    oid: Option<nat>,
    aid: Option<nat>,
    originSite: Option<string>,
    advertisingSite: Option<string>,
    region: Option<Region>,
    localPref: Option<int>,
    preference: Option<Preference>,
    isDefaultRoute: bool,
    isChildOriginated: bool,
    rawCommunities: seq<string>,
    standardCommunities: seq<string>)

  /** FirewallIdentity. */
  datatype FirewallIdentity = FirewallIdentity(region: Region, vrfId: nat, nextHop: string, site: Option<int>)

  /** `f"Site-{n}"`. */
  function SiteName(n: nat): string {
    "Site-" + NatToString(n)
  }

  /** The text a `^...$` pattern is matched against: `$` also matches just before a final newline. */
  function WithoutFinalNewline(s: string): string {
    if s != [] && s[|s| - 1] == '\n' then s[..|s| - 1] else s
  }

  /** `re.match(r'^(\d+):(\d+)$', comm)`: the two numbers of a well-formed `ASN:VALUE` tag. */
  function ParseStandard(comm: string): (r: Option<(nat, nat)>)
  {
    var body := WithoutFinalNewline(comm);
    match IndexFrom(body, ":", 0)
    case None => None
    case Some(i) =>
      if IsDecimal(body[..i]) && IsDecimal(body[i + 1..])
      then Some((DecimalValue(body[..i]), DecimalValue(body[i + 1..])))
      else None
  }

  /** What the decoding loop makes of one community. */
  datatype Tag = Malformed | OriginId(site: nat) | AdvertisingId(site: nat) | DefaultRoute | ChildOriginated | Standard

  function Classify(comm: string): Tag {
    match ParseStandard(comm)
    case None => Malformed
    case Some((left, right)) =>
      if right == OidMarker then OriginId(left)
      else if right == AidMarker then AdvertisingId(left)
      else if right == DefaultMarker && 1 <= left <= 50 then DefaultRoute
      else if comm == CommunityDmzRoute || comm == CommunityChildRoute then ChildOriginated
      else Standard
  }

  /** The OID and AID classifications are decided by the tag's second number alone. */
  lemma ClassifyMarkers(comm: string)
    ensures Classify(comm).OriginId? <==> ParseStandard(comm).Some? && ParseStandard(comm).value.1 == OidMarker
    ensures Classify(comm).AdvertisingId? <==>
      ParseStandard(comm).Some? && ParseStandard(comm).value.1 != OidMarker && ParseStandard(comm).value.1 == AidMarker
    ensures Classify(comm).OriginId? || Classify(comm).AdvertisingId? ==> Classify(comm).site == ParseStandard(comm).value.0
  {
  }

  /** A fresh DecodedCommunity for the given list. */
  function Initial(communities: seq<string>): Decoded {
    Decoded(None, None, None, None, None, None, None, false, false, communities, [])
  }

  /** One iteration of the decoding loop, for a community `comm` already classified as `t`. */
  function Absorb(d: Decoded, t: Tag, comm: string): Decoded {
    match t
    case Malformed => d.(standardCommunities := d.standardCommunities + [comm])
    case OriginId(x) => d.(oid := Some(x), originSite := Some(SiteName(x)), region := RegionOf(x))
    case AdvertisingId(x) => d.(aid := Some(x), advertisingSite := Some(SiteName(x)))
    case DefaultRoute => d.(isDefaultRoute := true)
    case ChildOriginated => d.(isChildOriginated := true)
    case Standard => d.(standardCommunities := d.standardCommunities + [comm])
  }

  /** Each community paired with its classification. */
  function Tagged(communities: seq<string>): (ts: seq<(Tag, string)>)
    ensures |ts| == |communities|
    ensures forall i :: 0 <= i < |ts| ==> ts[i] == (Classify(communities[i]), communities[i])
  {
    seq(|communities|, i requires 0 <= i < |communities| => (Classify(communities[i]), communities[i]))
  }

  /** The decoding loop run over the classified communities `ts` from state `d`. */
  function AbsorbAll(d: Decoded, ts: seq<(Tag, string)>): Decoded
    decreases |ts|
  {
    if ts == [] then d
    else
      var last := ts[|ts| - 1];
      Absorb(AbsorbAll(d, ts[..|ts| - 1]), last.0, last.1)
  }

  /** The state the decoding loop leaves behind. */
  function Scanned(communities: seq<string>): Decoded {
    AbsorbAll(Initial(communities), Tagged(communities))
  }

  /** The step after the loop: preference from the local preference, else inferred. */
  function WithPreference(d: Decoded, localPref: Option<int>): Decoded {
    if localPref.Some? then
      d.(localPref := localPref, preference := Some(LpToPreference(localPref.value)))
    else if d.oid.Some? && d.aid.Some? then
      var (lp, pref) := InferredPreference(d.oid.value, d.aid.value);
      d.(localPref := Some(lp), preference := Some(pref))
    else d
  }

  /** What decode_communities returns. */
  function Decode(communities: seq<string>, localPref: Option<int>): (d: Decoded)
    ensures d.rawCommunities == communities
  {
    AbsorbAllFrame(Initial(communities), Tagged(communities));
    WithPreference(Scanned(communities), localPref)
  }

  /** The body of decode_communities' loop for one community. */
  method AbsorbCommunity(d: Decoded, comm: string) returns (d': Decoded)
    ensures d' == Absorb(d, Classify(comm), comm)
  {
    d' := d;
    match Classify(comm) {
      case Malformed =>
        d' := d.(standardCommunities := d.standardCommunities + [comm]);
      case OriginId(left) =>
        d' := d.(oid := Some(left), originSite := Some(SiteName(left)), region := RegionOf(left));
      case AdvertisingId(left) =>
        d' := d.(aid := Some(left), advertisingSite := Some(SiteName(left)));
      case DefaultRoute =>
        d' := d.(isDefaultRoute := true);
      case ChildOriginated =>
        d' := d.(isChildOriginated := true);
      case Standard =>
        d' := d.(standardCommunities := d.standardCommunities + [comm]);
    }
  }

  /** The loop of decode_communities over the communities, in order. */
  method ScanCommunities(communities: seq<string>) returns (result: Decoded)
    ensures result == Scanned(communities)
  {
    ghost var ts := Tagged(communities);
    result := Initial(communities);
    for i := 0 to |communities|
      invariant result == AbsorbAll(Initial(communities), ts[..i])
    {
      assert ts[..i + 1][..i] == ts[..i];
      result := AbsorbCommunity(result, communities[i]);
    }
    assert ts[..|communities|] == ts;
  }

  /** decode_communities. */
  method DecodeCommunities(communities: seq<string>, localPref: Option<int>) returns (result: Decoded)
    ensures result == Decode(communities, localPref)
  {
    result := ScanCommunities(communities);
    if localPref.Some? {
      result := result.(localPref := localPref, preference := Some(LpToPreference(localPref.value)));
    } else if result.oid.Some? && result.aid.Some? {
      var lp, pref := InferPreference(result.oid.value, result.aid.value);
      result := result.(localPref := Some(lp), preference := Some(pref));
    }
  }

  /** The decoding loop leaves the raw list and the preference fields alone. */
  lemma {:induction false} AbsorbAllFrame(d: Decoded, ts: seq<(Tag, string)>)
    ensures AbsorbAll(d, ts).rawCommunities == d.rawCommunities
    ensures AbsorbAll(d, ts).localPref == d.localPref
    ensures AbsorbAll(d, ts).preference == d.preference
    decreases |ts|
  {
    if ts != [] {
      AbsorbAllFrame(d, ts[..|ts| - 1]);
    }
  }

  predicate IsOrigin(t: Tag) {
    t.OriginId?
  }

  predicate IsAdvertising(t: Tag) {
    t.AdvertisingId?
  }

  /** Reference definition: the position of the last community in `ts` whose tag is of the given kind. */
  function LastIndexOf(ts: seq<(Tag, string)>, kind: Tag -> bool): (r: Option<nat>)
    ensures r.Some? ==> r.value < |ts| && kind(ts[r.value].0)
    ensures r.Some? ==> forall j :: r.value < j < |ts| ==> !kind(ts[j].0)
    ensures r.None? ==> forall i :: 0 <= i < |ts| ==> !kind(ts[i].0)
    decreases |ts|
  {
    if ts == [] then None
    else if kind(ts[|ts| - 1].0) then Some(|ts| - 1)
    else
      var r := LastIndexOf(ts[..|ts| - 1], kind);
      assert forall i :: 0 <= i < |ts| - 1 ==> ts[..|ts| - 1][i] == ts[i];
      r
  }

  /** The site named by the last OID tag in `ts`, if any. */
  function LastOrigin(ts: seq<(Tag, string)>): Option<nat> {
    match LastIndexOf(ts, IsOrigin)
    case None => None
    case Some(i) => Some(ts[i].0.site)
  }

  /** The site named by the last AID tag in `ts`, if any. */
  function LastAdvertising(ts: seq<(Tag, string)>): Option<nat> {
    match LastIndexOf(ts, IsAdvertising)
    case None => None
    case Some(i) => Some(ts[i].0.site)
  }

  /** The last OID tag is the final tag when that one is an OID tag, else the last before it. */
  lemma LastOriginStep(ts: seq<(Tag, string)>)
    requires ts != []
    ensures LastOrigin(ts) == if ts[|ts| - 1].0.OriginId? then Some(ts[|ts| - 1].0.site) else LastOrigin(ts[..|ts| - 1])
  {
    var init := ts[..|ts| - 1];
    if !ts[|ts| - 1].0.OriginId? {
      assert LastIndexOf(ts, IsOrigin) == LastIndexOf(init, IsOrigin);
      match LastIndexOf(init, IsOrigin)
      case None =>
      case Some(i) => assert init[i] == ts[i];
    }
  }

  /** The last AID tag is the final tag when that one is an AID tag, else the last before it. */
  lemma LastAdvertisingStep(ts: seq<(Tag, string)>)
    requires ts != []
    ensures LastAdvertising(ts) == if ts[|ts| - 1].0.AdvertisingId? then Some(ts[|ts| - 1].0.site) else LastAdvertising(ts[..|ts| - 1])
  {
    var init := ts[..|ts| - 1];
    if !ts[|ts| - 1].0.AdvertisingId? {
      assert LastIndexOf(ts, IsAdvertising) == LastIndexOf(init, IsAdvertising);
      match LastIndexOf(init, IsAdvertising)
      case None =>
      case Some(i) => assert init[i] == ts[i];
    }
  }

  lemma {:induction false} OriginFrom(d0: Decoded, ts: seq<(Tag, string)>)
    requires d0.oid == None && d0.originSite == None && d0.region == None
    ensures var d := AbsorbAll(d0, ts);
      && d.oid == LastOrigin(ts)
      && d.originSite == (if d.oid.Some? then Some(SiteName(d.oid.value)) else None)
      && d.region == (if d.oid.Some? then RegionOf(d.oid.value) else None)
    decreases |ts|
  {
    if ts != [] {
      var init := ts[..|ts| - 1];
      var last := ts[|ts| - 1];
      assert AbsorbAll(d0, ts) == Absorb(AbsorbAll(d0, init), last.0, last.1);
      OriginFrom(d0, init);
      LastOriginStep(ts);
    }
  }

  lemma {:induction false} AdvertisingFrom(d0: Decoded, ts: seq<(Tag, string)>)
    requires d0.aid == None && d0.advertisingSite == None
    ensures var d := AbsorbAll(d0, ts);
      && d.aid == LastAdvertising(ts)
      && d.advertisingSite == (if d.aid.Some? then Some(SiteName(d.aid.value)) else None)
    decreases |ts|
  {
    if ts != [] {
      var init := ts[..|ts| - 1];
      var last := ts[|ts| - 1];
      assert AbsorbAll(d0, ts) == Absorb(AbsorbAll(d0, init), last.0, last.1);
      AdvertisingFrom(d0, init);
      LastAdvertisingStep(ts);
    }
  }

  /** The last OID tag decides `oid`, `origin_site` (`Site-X`) and `region`, and the last AID
      tag decides `aid` and `advertising_site`; without such a tag they stay None. */
  lemma SitesFromLastTags(communities: seq<string>, localPref: Option<int>)
    ensures var d := Decode(communities, localPref);
      && d.oid == LastOrigin(Tagged(communities))
      && d.originSite == (if d.oid.Some? then Some(SiteName(d.oid.value)) else None)
      && d.region == (if d.oid.Some? then RegionOf(d.oid.value) else None)
      && d.aid == LastAdvertising(Tagged(communities))
      && d.advertisingSite == (if d.aid.Some? then Some(SiteName(d.aid.value)) else None)
  {
    OriginFrom(Initial(communities), Tagged(communities));
    AdvertisingFrom(Initial(communities), Tagged(communities));
  }

  /** Reference definition: the communities whose tag is malformed or carries no special
      meaning, in their original order. */
  function StandardTags(ts: seq<(Tag, string)>): (r: seq<string>)
    ensures |r| <= |ts|
    decreases |ts|
  {
    if ts == [] then []
    else
      var last := ts[|ts| - 1];
      StandardTags(ts[..|ts| - 1]) + (if last.0 in {Malformed, Standard} then [last.1] else [])
  }

  /** Every community kept as standard is an input community whose tag is malformed or ordinary. */
  lemma {:induction false} StandardTagsFromInput(ts: seq<(Tag, string)>)
    ensures forall k :: 0 <= k < |StandardTags(ts)| ==>
      exists i :: 0 <= i < |ts| && ts[i].1 == StandardTags(ts)[k] && ts[i].0 in {Malformed, Standard}
  {
    if ts != [] {
      var init, last := ts[..|ts| - 1], ts[|ts| - 1];
      var r := StandardTags(ts);
      var s := StandardTags(init);
      StandardTagsFromInput(init);
      assert r == s + (if last.0 in {Malformed, Standard} then [last.1] else []);
      forall k | 0 <= k < |r| ensures exists i :: 0 <= i < |ts| && ts[i].1 == r[k] && ts[i].0 in {Malformed, Standard} {
        if k < |s| {
          var i :| 0 <= i < |init| && init[i].1 == s[k] && init[i].0 in {Malformed, Standard};
          assert r[k] == s[k] && ts[i] == init[i];
        } else {
          assert last.0 in {Malformed, Standard} && r[k] == last.1;
          assert ts[|ts| - 1] == last;
        }
      }
    } else {
      assert StandardTags(ts) == [];
    }
  }

  /** `standard_communities` is exactly the input filtered to the malformed and ordinary tags. */
  lemma StandardCommunitiesAreFiltered(communities: seq<string>, localPref: Option<int>)
    ensures Decode(communities, localPref).standardCommunities == StandardTags(Tagged(communities))
  {
    StandardFrom(Initial(communities), Tagged(communities));
  }

  lemma {:induction false} StandardFrom(d0: Decoded, ts: seq<(Tag, string)>)
    requires d0.standardCommunities == []
    ensures AbsorbAll(d0, ts).standardCommunities == StandardTags(ts)
    decreases |ts|
  {
    if ts != [] {
      StandardFrom(d0, ts[..|ts| - 1]);
    }
  }

  /** Whether some community in `ts` is classified as `t`. */
  predicate HasTag(ts: seq<(Tag, string)>, t: Tag) {
    exists i :: 0 <= i < |ts| && ts[i].0 == t
  }

  lemma {:induction false} FlagsFrom(d0: Decoded, ts: seq<(Tag, string)>)
    requires !d0.isDefaultRoute && !d0.isChildOriginated
    ensures AbsorbAll(d0, ts).isDefaultRoute <==> HasTag(ts, DefaultRoute)
    ensures AbsorbAll(d0, ts).isChildOriginated <==> HasTag(ts, ChildOriginated)
    decreases |ts|
  {
    if ts != [] {
      var init := ts[..|ts| - 1];
      FlagsFrom(d0, init);
      assert forall i :: 0 <= i < |init| ==> init[i] == ts[i];
    }
  }

  /** `is_default_route` holds exactly when some tag is `X:0` with 1 <= X <= 50, and
      `is_child_originated` exactly when 41326:41326 or 3124:3124 is present. */
  lemma FlagsFromTags(communities: seq<string>, localPref: Option<int>)
    ensures Decode(communities, localPref).isDefaultRoute <==> HasTag(Tagged(communities), DefaultRoute)
    ensures Decode(communities, localPref).isChildOriginated <==> HasTag(Tagged(communities), ChildOriginated)
  {
    FlagsFrom(Initial(communities), Tagged(communities));
  }

  /** With a local preference it is copied and mapped, whatever the OID and AID; without one
      both are inferred when OID and AID are present and stay None otherwise. */
  lemma PreferenceRule(communities: seq<string>, localPref: Option<int>)
    ensures var d := Decode(communities, localPref);
      var tags := Scanned(communities);
      && (localPref.Some? ==> d.localPref == localPref && d.preference == Some(LpToPreference(localPref.value)))
      && (localPref.None? && tags.oid.Some? && tags.aid.Some? ==>
            var (lp, pref) := InferredPreference(tags.oid.value, tags.aid.value);
            d.localPref == Some(lp) && d.preference == Some(pref))
      && (localPref.None? && (tags.oid.None? || tags.aid.None?) ==> d.localPref == None && d.preference == None)
  {
    AbsorbAllFrame(Initial(communities), Tagged(communities));
  }

  /** lp_to_preference: the four bands of local preference. */
  function LpToPreference(lp: int): (p: Preference)
    ensures p == Primary <==> lp >= LpPrimary
    ensures p == Secondary <==> LpSecondary <= lp < LpPrimary
    ensures p == Tertiary <==> lp <= LpTertiary
    ensures p == Unknown <==> LpTertiary < lp < LpSecondary
  {
    if lp >= LpPrimary then Primary
    else if lp >= LpSecondary then Secondary
    else if lp <= LpTertiary then Tertiary
    else Unknown
  }

  /** `chain.index(x)`. */
  function IndexOfSite(chain: seq<int>, x: int): (r: Option<nat>)
    ensures r.Some? ==> r.value < |chain| && chain[r.value] == x
    ensures r.Some? ==> forall k :: 0 <= k < r.value ==> chain[k] != x
    ensures r.None? ==> x !in chain
  {
    if chain == [] then None
    else if chain[0] == x then Some(0)
    else match IndexOfSite(chain[1..], x)
      case None => None
      case Some(k) => Some(k + 1)
  }

  /** One iteration of infer_preference's loop: Some when it returns. */
  function ChainVerdict(chain: seq<int>, oid: nat, aid: nat): Option<(int, Preference)>
    requires chain != []
  {
    if chain[0] != aid then None
    else if PreferredFirewallSite(oid, aid) == aid then Some((LpPrimary, Primary))
    else match IndexOfSite(chain, oid)
      case None => None
      case Some(idx) =>
        if idx == 0 then Some((LpPrimary, Primary))
        else if idx == 1 then Some((LpSecondary, Secondary))
        else Some((LpTertiary, Tertiary))
  }

  /** The loop of infer_preference over the chains: the verdict of the first chain that returns. */
  function SearchChains(chains: seq<seq<int>>, oid: nat, aid: nat): (r: Option<(int, Preference)>)
    requires forall k :: 0 <= k < |chains| ==> chains[k] != []
    ensures r.None? <==> forall k :: 0 <= k < |chains| ==> ChainVerdict(chains[k], oid, aid).None?
    ensures forall k ::
              0 <= k < |chains| && ChainVerdict(chains[k], oid, aid).Some?
              && (forall j :: 0 <= j < k ==> ChainVerdict(chains[j], oid, aid).None?)
              ==> r == ChainVerdict(chains[k], oid, aid)
  {
    if chains == [] then None
    else match ChainVerdict(chains[0], oid, aid)
      case Some(v) => Some(v)
      case None => SearchChains(chains[1..], oid, aid)
  }

  /** What infer_preference returns. */
  function InferredPreference(oid: nat, aid: nat): (r: (int, Preference))
    ensures RegionOf(oid).None? ==> r == (LpUndecided, Unknown)
  {
    match RegionOf(oid)
    case None => (LpUndecided, Unknown)
    case Some(region) =>
      match SearchChains(ChainsOf(region), oid, aid)
      case Some(v) => v
      case None => if oid == aid then (LpPrimary, Primary) else (LpUndecided, Unknown)
  }

  /** infer_preference: a search over the region's chains with early return. */
  method InferPreference(oid: nat, aid: nat) returns (lp: int, pref: Preference)
    ensures (lp, pref) == InferredPreference(oid, aid)
  {
    var region := RegionOf(oid);
    if region.None? {
      return LpUndecided, Unknown;
    }
    var chains := ChainsOf(region.value);
    var i := 0;
    while i < |chains|
      invariant 0 <= i <= |chains|
      invariant SearchChains(chains, oid, aid) == SearchChains(chains[i..], oid, aid)
    {
      var chain := chains[i];
      assert chains[i..][1..] == chains[i + 1..];
      if chain[0] == aid {
        var preferredFw := PreferredFirewallSite(oid, aid);
        if preferredFw == aid {
          return LpPrimary, Primary;
        } else {
          var idx := IndexOfSite(chain, oid);
          if idx.Some? {
            if idx.value == 0 {
              return LpPrimary, Primary;
            } else if idx.value == 1 {
              return LpSecondary, Secondary;
            } else {
              return LpTertiary, Tertiary;
            }
          }
        }
      }
      i := i + 1;
    }
    if oid == aid {
      return LpPrimary, Primary;
    }
    return LpUndecided, Unknown;
  }

  lemma {:induction false} SearchChainsTable(chains: seq<seq<int>>, oid: nat, aid: nat)
    requires forall k :: 0 <= k < |chains| ==> chains[k] != []
    ensures var r := SearchChains(chains, oid, aid);
      r.Some? ==> r.value in {(LpPrimary, Primary), (LpSecondary, Secondary), (LpTertiary, Tertiary)}
  {
    if chains != [] {
      SearchChainsTable(chains[1..], oid, aid);
    }
  }

  /** infer_preference only ever yields one of four pairs, and each pair's local preference
      maps back to its label through lp_to_preference; an OID outside SITE_REGIONS gives
      (100, unknown), even when it equals the AID. */
  lemma InferredPreferenceTable(oid: nat, aid: nat)
    ensures InferredPreference(oid, aid) in
      {(LpPrimary, Primary), (LpSecondary, Secondary), (LpTertiary, Tertiary), (LpUndecided, Unknown)}
    ensures LpToPreference(InferredPreference(oid, aid).0) == InferredPreference(oid, aid).1
    ensures RegionOf(oid).None? ==> InferredPreference(oid, aid) == (LpUndecided, Unknown)
  {
    var region := RegionOf(oid);
    if region.Some? {
      SearchChainsTable(ChainsOf(region.value), oid, aid);
    }
  }

  lemma {:induction false} LocalSearch(chains: seq<seq<int>>, site: nat)
    requires forall k :: 0 <= k < |chains| ==> chains[k] != []
    ensures SearchChains(chains, site, site) in {None, Some((LpPrimary, Primary))}
  {
    if chains != [] {
      LocalSearch(chains[1..], site);
    }
  }

  /** A route whose OID equals its AID at a listed site is primary. */
  lemma LocalRouteIsPrimary(site: nat)
    requires RegionOf(site).Some?
    ensures InferredPreference(site, site) == (LpPrimary, Primary)
  {
    LocalSearch(ChainsOf(RegionOf(site).value), site);
  }

  /** preferred_firewall_site: the lower-numbered of the two sites. */
  function PreferredFirewallSite(siteA: int, siteB: int): (r: int)
    ensures r <= siteA && r <= siteB
    ensures r == siteA || r == siteB
  {
    if siteA <= siteB then siteA else siteB
  }

  /** The preferred firewall site does not depend on the order of the two sites. */
  lemma PreferredFirewallSiteCommutes(siteA: int, siteB: int)
    ensures PreferredFirewallSite(siteA, siteB) == PreferredFirewallSite(siteB, siteA)
  {
  }

  /** The loop of get_failover_chain: the first chain headed by `site`. */
  function ChainHeadedBy(chains: seq<seq<int>>, site: int): (r: Option<seq<int>>)
    requires forall k :: 0 <= k < |chains| ==> chains[k] != []
    ensures r.Some? ==> r.value in chains && r.value[0] == site
    ensures r.None? ==> forall k :: 0 <= k < |chains| ==> chains[k][0] != site
  {
    if chains == [] then None
    else if chains[0][0] == site then Some(chains[0])
    else ChainHeadedBy(chains[1..], site)
  }

  /** What get_failover_chain returns. */
  function FailoverChain(site: int): (chain: seq<int>)
    ensures chain != [] && chain[0] == site
    ensures RegionOf(site).None? ==> chain == [site]
  {
    match RegionOf(site)
    case None => [site]
    case Some(region) =>
      match ChainHeadedBy(ChainsOf(region), site)
      case Some(c) => c
      case None => [site]
  }

  /** get_failover_chain: a search with early return. */
  method GetFailoverChain(site: int) returns (chain: seq<int>)
    ensures chain == FailoverChain(site)
  {
    var region := RegionOf(site);
    if region.None? {
      return [site];
    }
    var chains := ChainsOf(region.value);
    var i := 0;
    while i < |chains|
      invariant 0 <= i <= |chains|
      invariant ChainHeadedBy(chains, site) == ChainHeadedBy(chains[i..], site)
    {
      assert chains[i..][1..] == chains[i + 1..];
      if chains[i][0] == site {
        return chains[i];
      }
      i := i + 1;
    }
    return [site];
  }

  /** Every listed site has its own chain, and a chain never leaves its site's region. */
  lemma FailoverChainStaysInRegion(site: int)
    requires RegionOf(site).Some?
    ensures |FailoverChain(site)| >= 2
    ensures forall x :: x in FailoverChain(site) ==> RegionOf(x) == RegionOf(site)
  {
  }

  /** `\d+\.` at the start of `t`: the digits, and what follows the dot. */
  function DigitsThenDot(t: string): (r: Option<(string, string)>)
    ensures r.Some? ==> IsDecimal(r.value.0) && t == r.value.0 + "." + r.value.1
  {
    var n := DigitRun(t, 0);
    if 0 < n < |t| && t[n] == '.' then
      assert t == t[..n] + "." + t[n + 1..];
      Some((t[..n], t[n + 1..]))
    else None
  }

  /** `re.match(r'^100\.(\d+)\.(\d+)\.\d+$', next_hop)`: the second and third octets. */
  function ParseFirewallAddress(nextHop: string): Option<(nat, nat)> {
    var b := WithoutFinalNewline(nextHop);
    if !StartsWith(b, "100.") then None
    else match DigitsThenDot(b[4..])
      case None => None
      case Some((second, rest)) =>
        match DigitsThenDot(rest)
        case None => None
        case Some((third, host)) =>
          if IsDecimal(host) then Some((DecimalValue(second), DecimalValue(third))) else None
  }

  /** The second octet REGION_FW_OCTETS gives a region. */
  function FwOctet(r: Region): int {
    match r
    case Americas => 120
    case Emea => 123
    case Apac => 124
    case Gmn => 127
  }

  /** The reverse lookup of REGION_FW_OCTETS: the region whose octet this is. */
  function OctetRegion(octet: int): (r: Option<Region>)
    ensures r.Some? ==> FwOctet(r.value) == octet
    ensures r.None? ==> forall g: Region :: FwOctet(g) != octet
  {
    if octet == 120 then Some(Americas)
    else if octet == 123 then Some(Emea)
    else if octet == 124 then Some(Apac)
    else if octet == 127 then Some(Gmn)
    else None
  }

  /** derive_firewall_from_nexthop. */
  function DeriveFirewall(nextHop: string): (r: Option<FirewallIdentity>)
    ensures r.Some? <==> ParseFirewallAddress(nextHop).Some? && ParseFirewallAddress(nextHop).value.0 in {120, 123, 124, 127}
    ensures r.Some? ==>
      && FwOctet(r.value.region) == ParseFirewallAddress(nextHop).value.0
      && r.value.vrfId == ParseFirewallAddress(nextHop).value.1
      && r.value.nextHop == nextHop
      && r.value.site == None
  {
    match ParseFirewallAddress(nextHop)
    case None => None
    case Some((second, vrf)) =>
      match OctetRegion(second)
      case None => None
      case Some(region) => Some(FirewallIdentity(region, vrf, nextHop, None))
  }

  /** The next-hop address `100.R.V.H` of a region's firewall. */
  function FirewallAddress(r: Region, vrf: nat, host: nat): string {
    "100." + (NatToString(FwOctet(r)) + "." + (NatToString(vrf) + "." + NatToString(host)))
  }

  /** A number followed by a dot is split off whole. */
  lemma DigitsThenDotOf(x: string, rest: string)
    requires IsDecimal(x)
    ensures DigitsThenDot(x + "." + rest) == Some((x, rest))
  {
    var t := x + "." + rest;
    assert forall k :: 0 <= k < |x| ==> t[k] == x[k];
    DigitRunFrom(t, 0, |x|);
    assert t[..|x|] == x;
    assert t[|x| + 1..] == rest;
  }

  /** `100.A.B.C` with decimal A, B and C parses to the values of A and B. */
  lemma ParseFirewallPieces(a: string, b: string, c: string)
    requires IsDecimal(a) && IsDecimal(b) && IsDecimal(c)
    ensures ParseFirewallAddress("100." + (a + "." + (b + "." + c))) == Some((DecimalValue(a), DecimalValue(b)))
  {
    var s := "100." + (a + "." + (b + "." + c));
    assert s[|s| - 1] == c[|c| - 1];
    assert s[..4] == "100.";
    assert s[4..] == a + "." + (b + "." + c);
    DigitsThenDotOf(a, b + "." + c);
    DigitsThenDotOf(b, c);
  }

  /** `100.O.V.H` written from numbers parses back to (O, V). */
  lemma ParseFirewallNumbers(octet: nat, vrf: nat, host: nat)
    ensures ParseFirewallAddress("100." + (NatToString(octet) + "." + (NatToString(vrf) + "." + NatToString(host))))
      == Some((octet, vrf))
  {
    ParseFirewallPieces(NatToString(octet), NatToString(vrf), NatToString(host));
    NatToStringRoundTrip(octet);
    NatToStringRoundTrip(vrf);
  }

  /** Every address of the firewall pattern is recognised, with its region and VRF. */
  lemma FirewallAddressRoundTrip(r: Region, vrf: nat, host: nat)
    ensures DeriveFirewall(FirewallAddress(r, vrf, host)) == Some(FirewallIdentity(r, vrf, FirewallAddress(r, vrf, host), None))
  {
    ParseFirewallNumbers(FwOctet(r), vrf, host);
    DeriveFromParse(FirewallAddress(r, vrf, host), r, vrf);
  }

  lemma DeriveFromParse(nextHop: string, r: Region, vrf: nat)
    requires ParseFirewallAddress(nextHop) == Some((FwOctet(r), vrf))
    ensures DeriveFirewall(nextHop) == Some(FirewallIdentity(r, vrf, nextHop, None))
  {
    assert OctetRegion(FwOctet(r)) == Some(r);
  }

}
