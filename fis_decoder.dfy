/**
 * The FIS community-decoder plugin (backend/plugins/fis_community_decoder.py): the same
 * OID/AID convention as the core decoder, reported as a dictionary with at most the keys
 * `origin_site`, `region`, `advertising_site` and `preference`.
 */
module FisCommunityDecoder {
  import opened Wrappers
  import opened OrderedMap
  import CD = CommunityDecoder

  const OriginSiteKey: string := "origin_site"
  const RegionKey: string := "region"
  const AdvertisingSiteKey: string := "advertising_site"
  const PreferenceKey: string := "preference"

  /** The four keys are distinct (their lengths differ). */
  lemma KeysDistinct()
    ensures OriginSiteKey != RegionKey && OriginSiteKey != AdvertisingSiteKey && OriginSiteKey != PreferenceKey
    ensures RegionKey != AdvertisingSiteKey && RegionKey != PreferenceKey && AdvertisingSiteKey != PreferenceKey
  {
    assert |OriginSiteKey| == 11 && |RegionKey| == 6 && |AdvertisingSiteKey| == 16 && |PreferenceKey| == 10;
  }

  /** `name()`: the plugin's fixed name. */
  function Name(): (r: string)
    ensures r == "fis-community-decoder"
  {
    "fis-community-decoder"
  }

  /** `SITE_REGIONS.get(site, "unknown")`. */
  function RegionName(site: int): (r: string)
    ensures r == "unknown" <==> CD.RegionOf(site).None?
    ensures CD.RegionOf(site).Some? ==> r == CD.RegionOf(site).value.Name()
  {
    match CD.RegionOf(site)
    case Some(g) => g.Name()
    case None => "unknown"
  }

  /** One iteration of the decoding loop; only OID and AID tags change the result. */
  function Absorb(r: Dict<string>, t: CD.Tag): (r': Dict<string>)
    requires r.Valid()
    ensures r'.Valid()
  {
    match t
    case OriginId(x) => r.Put(OriginSiteKey, CD.SiteName(x)).Put(RegionKey, RegionName(x))
    case AdvertisingId(x) => r.Put(AdvertisingSiteKey, CD.SiteName(x))
    case _ => r
  }

  /** The decoding loop over classified communities. */
  function AbsorbAll(r: Dict<string>, ts: seq<(CD.Tag, string)>): (r': Dict<string>)
    requires r.Valid()
    ensures r'.Valid()
    decreases |ts|
  {
    if ts == [] then r else Absorb(AbsorbAll(r, ts[..|ts| - 1]), ts[|ts| - 1].0)
  }

  /** The preference label the plugin reports for a local preference, if any. */
  function PreferenceLabel(lp: int): (r: Option<string>)
    ensures r.Some? <==> lp >= CD.LpSecondary || lp <= CD.LpTertiary
    ensures r.Some? ==> r.value == CD.LpToPreference(lp).Name()
  {
    if lp >= CD.LpPrimary then Some("primary")
    else if lp >= CD.LpSecondary then Some("secondary")
    else if lp <= CD.LpTertiary then Some("tertiary")
    else None
  }

  /** What `decode` returns. */
  function Decode(communities: seq<string>, localPref: Option<int>): (r: Dict<string>)
    ensures r.Valid()
  {
    var scanned := AbsorbAll(Empty(), CD.Tagged(communities));
    if localPref.Some? && PreferenceLabel(localPref.value).Some?
    then scanned.Put(PreferenceKey, PreferenceLabel(localPref.value).value)
    else scanned
  }

  /** `decode`. */
  method DecodeCommunities(communities: seq<string>, localPref: Option<int>) returns (result: Dict<string>)
    ensures result == Decode(communities, localPref)
  {
    ghost var ts := CD.Tagged(communities);
    result := Empty();
    var oid: Option<nat> := None;
    var aid: Option<nat> := None;
    for i := 0 to |communities|
      invariant result.Valid()
      invariant result == AbsorbAll(Empty(), ts[..i])
    {
      assert ts[..i + 1][..i] == ts[..i];
      CD.ClassifyMarkers(communities[i]);
      var m := CD.ParseStandard(communities[i]);
      if m.Some? {
        var (left, right) := m.value;
        if right == CD.OidMarker {
          oid := Some(left);
          result := result.Put(OriginSiteKey, CD.SiteName(left));
          result := result.Put(RegionKey, RegionName(left));
        } else if right == CD.AidMarker {
          aid := Some(left);
          result := result.Put(AdvertisingSiteKey, CD.SiteName(left));
        }
      }
    }
    assert ts[..|communities|] == ts;
    if localPref.Some? {
      if localPref.value >= CD.LpPrimary {
        result := result.Put(PreferenceKey, "primary");
      } else if localPref.value >= CD.LpSecondary {
        result := result.Put(PreferenceKey, "secondary");
      } else if localPref.value <= CD.LpTertiary {
        result := result.Put(PreferenceKey, "tertiary");
      }
    }
  }

  /** The loop only ever writes the site and region keys. */
  lemma {:induction false} AbsorbAllKeys(ts: seq<(CD.Tag, string)>)
    ensures forall k :: k in AbsorbAll(Empty(), ts).entries ==> k in {OriginSiteKey, RegionKey, AdvertisingSiteKey}
    decreases |ts|
  {
    if ts != [] {
      AbsorbAllKeys(ts[..|ts| - 1]);
    }
  }

  /** The last OID tag decides `origin_site` and `region`. */
  lemma {:induction false} AbsorbAllOrigin(ts: seq<(CD.Tag, string)>)
    ensures var r := AbsorbAll(Empty(), ts);
      && (OriginSiteKey in r.entries <==> CD.LastOrigin(ts).Some?)
      && (RegionKey in r.entries <==> CD.LastOrigin(ts).Some?)
      && (CD.LastOrigin(ts).Some? ==>
            r.entries[OriginSiteKey] == CD.SiteName(CD.LastOrigin(ts).value) &&
            r.entries[RegionKey] == RegionName(CD.LastOrigin(ts).value))
    decreases |ts|
  {
    if ts != [] {
      var init := ts[..|ts| - 1];
      AbsorbAllOrigin(init);
      KeysDistinct();
      if !ts[|ts| - 1].0.OriginId? {
        assert CD.LastIndexOf(ts, CD.IsOrigin) == CD.LastIndexOf(init, CD.IsOrigin);
        assert forall i :: 0 <= i < |init| ==> init[i] == ts[i];
      }
    }
  }

  /** The last AID tag decides `advertising_site`. */
  lemma {:induction false} AbsorbAllAdvertising(ts: seq<(CD.Tag, string)>)
    ensures var r := AbsorbAll(Empty(), ts);
      && (AdvertisingSiteKey in r.entries <==> CD.LastAdvertising(ts).Some?)
      && (CD.LastAdvertising(ts).Some? ==>
            r.entries[AdvertisingSiteKey] == CD.SiteName(CD.LastAdvertising(ts).value))
    decreases |ts|
  {
    if ts != [] {
      var init := ts[..|ts| - 1];
      AbsorbAllAdvertising(init);
      KeysDistinct();
      var last := ts[|ts| - 1].0;
      if !last.AdvertisingId? {
        assert CD.LastIndexOf(ts, CD.IsAdvertising) == CD.LastIndexOf(init, CD.IsAdvertising);
        assert forall i :: 0 <= i < |init| ==> init[i] == ts[i];
      }
    }
  }

  /** Only the four documented keys ever appear, and `preference` appears exactly when a
      local preference of at least 150 or at most 50 is given, with the label the core
      decoder's lp_to_preference gives it. */
  lemma KeysAndPreference(communities: seq<string>, localPref: Option<int>)
    ensures var r := Decode(communities, localPref);
      && (forall k :: k in r.entries ==> k in {OriginSiteKey, RegionKey, AdvertisingSiteKey, PreferenceKey})
      && (PreferenceKey in r.entries <==>
            localPref.Some? && (localPref.value >= CD.LpSecondary || localPref.value <= CD.LpTertiary))
      && (PreferenceKey in r.entries ==> r.entries[PreferenceKey] == CD.LpToPreference(localPref.value).Name())
  {
    AbsorbAllKeys(CD.Tagged(communities));
    KeysDistinct();
  }

  /** The plugin reports the same sites and region as the core decoder, with an unlisted
      region reported as "unknown". */
  lemma AgreesWithCoreDecoder(communities: seq<string>, localPref: Option<int>)
    ensures var r := Decode(communities, localPref);
      var d := CD.Decode(communities, localPref);
      && (OriginSiteKey in r.entries <==> d.originSite.Some?)
      && (d.originSite.Some? ==> r.entries[OriginSiteKey] == d.originSite.value)
      && (RegionKey in r.entries <==> d.oid.Some?)
      && (d.oid.Some? ==> r.entries[RegionKey] == (if d.region.Some? then d.region.value.Name() else "unknown"))
      && (AdvertisingSiteKey in r.entries <==> d.advertisingSite.Some?)
      && (d.advertisingSite.Some? ==> r.entries[AdvertisingSiteKey] == d.advertisingSite.value)
  {
    KeysDistinct();
    AbsorbAllOrigin(CD.Tagged(communities));
    AbsorbAllAdvertising(CD.Tagged(communities));
    CD.SitesFromLastTags(communities, localPref);
  }

  /** No communities and no local preference give the empty dictionary. */
  lemma EmptyInputEmptyResult()
    ensures Decode([], None).entries == map[]
  {
  }
}
