# Network path visualizer — core model

The network path visualizer answers "which way does traffic to this prefix travel?" on a
multi-tier network. It collects BGP routes from the aggregation routers, decodes the
origin/advertising-site communities carried by each path, derives the hop list each path
takes (data-centre PE, service PE, tier-2 firewall, aggregation router), and draws the
topology. For a failing node it computes the blast radius: the source/destination pairs
that lose a path and whether each still has an alternate.

This project models the backend's logic as Dafny and proves what it promises:

- `CommunityDecoder` (`community_decoder.dfy`): the OID/AID community convention
  (`X:1594` names the originating site, `X:194` the advertising site), local preference to
  preference label, preference inference through the regional failover chains, firewall
  identity from `100.R.V.H` next hops, the preferred firewall site and the failover chain.
- `FisCommunityDecoder` (`fis_decoder.dfy`): the plugin decoder's name and its result dictionary.
- `JunosCollector` (`junos_collector.dfy`): the parser for Junos `show route … detail` text,
  with the BGP blocks, the active flag, ECMP grouping and the non-BGP fallback.
- `BgpCollector` (`bgp_collector.dfy`): the BGP path record and the parser for Cisco
  `show ip bgp` text.
- `DataLoader` (`data_loader.dfy`) with `Ipv4` (`ipv4.dfy`): the cache of collected routes,
  its per-host prefix index, the exact-then-containing lookup ordered longest prefix
  first, and the stale-cache warnings.
- `PathWalker` (`path_walker.dfy`): the AGG-first derivation of one path per BGP path,
  its hop list and description, and the preference sort.
- `Inventory` and `InventoryLoader` (`inventory.dfy`, `inventory_loader.dfy`): the device
  inventory, its queries and site-number extraction, and the walk of an Ansible inventory tree.
- `GraphEngine` (`graph_engine.dfy`): routers, domain boundaries, the directed topology
  graph built from interfaces, the router queries, next-hop resolution, the symmetric
  boundary lookup, the firewall tier lookup and the de-duplicated edge list for drawing.
- `BlastRadius` (`blast_radius.dfy`): the failure-impact calculation.
- Helpers: `Wrappers` (`Option`, `Result`), `Text` (the string operations the program uses),
  `Seqs` (comprehensions), `OrderedMap` (a Python `dict` with insertion order), `YamlTree`
  (a parsed YAML document) and `StableSort` (Python's stable `list.sort`).

Code that changes state step by step is modelled by methods with loops and invariants. Each
such method is proved to compute a specification function, and the lemmas state the
source's promises about those functions. Python exceptions become `Err` results carrying
the message Python would give, and Python truthiness (`x or default`, `if x:`) is written
out case by case.

## Model

| member | source | states |
|---|---|---|
| CommunityDecoder.ChainsOf | backend/community_decoder.py:39-55 | every chain of FAILOVER_CHAINS is non-empty, so `chain[0]` is always defined |
| CommunityDecoder.ClassifyMarkers | backend/community_decoder.py:114-132 | a tag is an OID (AID) tag exactly when it is well-formed `ASN:VALUE` with VALUE 1594 (194), and its site is the ASN |
| CommunityDecoder.Tagged | backend/community_decoder.py:112-114 | one classification per community, in input order |
| CommunityDecoder.DecodeCommunities | backend/community_decoder.py:99-154 | the loop over the communities and the preference step compute exactly `Decode` |
| CommunityDecoder.AbsorbCommunity | backend/community_decoder.py:112-144 | one iteration of the loop over the communities equals `Absorb` on its classification |
| CommunityDecoder.ScanCommunities | backend/community_decoder.py:110-144 | the loop over the communities equals `Scanned` |
| CommunityDecoder.AbsorbAllFrame | backend/community_decoder.py:112-144 | the loop never touches `raw_communities`, `local_pref` or `preference` |
| CommunityDecoder.Decode | backend/community_decoder.py:99-154 | what `decode_communities` returns; its `raw_communities` always equals the input list |
| CommunityDecoder.LastIndexOf | backend/community_decoder.py:122-132 | the position of the last tag of a kind: it has the kind and nothing after it does; None when no tag has it |
| CommunityDecoder.OriginFrom | backend/community_decoder.py:121-126 | after the loop, `oid` is the site of the last OID tag, `origin_site` is `Site-X` and `region` is SITE_REGIONS' entry; all None without an OID tag |
| CommunityDecoder.AdvertisingFrom | backend/community_decoder.py:128-132 | after the loop, `aid` is the site of the last AID tag and `advertising_site` is `Site-X`; None without one |
| CommunityDecoder.SitesFromLastTags | backend/community_decoder.py:119-132 | a later tag of the same kind overwrites an earlier one: the decoded sites are those of the last OID and AID tags |
| CommunityDecoder.StandardTags | backend/community_decoder.py:115-144 | the standard list is no longer than the input and holds only malformed or ordinary tags taken from it |
| CommunityDecoder.StandardCommunitiesAreFiltered | backend/community_decoder.py:112-144 | `standard_communities` is the input, in order, filtered to the malformed tags and the well-formed ones that are not OID, AID, default or security tags |
| CommunityDecoder.StandardFrom | backend/community_decoder.py:115-144 | the loop's appends to `standard_communities` build exactly that filtered list |
| CommunityDecoder.FlagsFrom | backend/community_decoder.py:134-142 | the loop sets `is_default_route` (`is_child_originated`) exactly when some tag is `X:0` with 1 <= X <= 50 (41326:41326 or 3124:3124) |
| CommunityDecoder.FlagsFromTags | backend/community_decoder.py:134-142 | the same two if-and-only-ifs for the decoded result |
| CommunityDecoder.PreferenceRule | backend/community_decoder.py:146-152 | with a local preference it is copied and labelled by lp_to_preference; without one both fields are inferred when OID and AID are both present, and stay None otherwise |
| CommunityDecoder.LpToPreference | backend/community_decoder.py:157-166 | primary exactly for >= 200, secondary exactly for 150-199, tertiary exactly for <= 50, unknown exactly for 51-149 |
| CommunityDecoder.IndexOfSite | backend/community_decoder.py:190 | `chain.index(x)`: the first position holding x, or None (ValueError) when x is absent |
| CommunityDecoder.InferPreference | backend/community_decoder.py:169-204 | the region lookup, the chain search with early return and the OID == AID fallback compute exactly `InferredPreference` |
| CommunityDecoder.SearchChains | backend/community_decoder.py:180-198 | none exactly when no chain returns; otherwise the verdict of the first chain that returns |
| CommunityDecoder.InferredPreference | backend/community_decoder.py:169-204 | what `infer_preference` returns; an OID outside SITE_REGIONS gives (100, unknown) whatever the AID |
| CommunityDecoder.SearchChainsTable | backend/community_decoder.py:180-198 | a chain that returns gives (200, primary), (150, secondary) or (50, tertiary) |
| CommunityDecoder.InferredPreferenceTable | backend/community_decoder.py:169-204 | the result is one of four pairs, its LP maps back to its label under lp_to_preference, and an OID outside SITE_REGIONS gives (100, unknown) even when OID == AID |
| CommunityDecoder.LocalSearch | backend/community_decoder.py:180-186 | with OID == AID the chain search returns nothing or (200, primary) |
| CommunityDecoder.LocalRouteIsPrimary | backend/community_decoder.py:184-202 | OID == AID at a listed site gives (200, primary) |
| CommunityDecoder.PreferredFirewallSite | backend/community_decoder.py:236-241 | the result is one of the two sites and no larger than either |
| CommunityDecoder.PreferredFirewallSiteCommutes | backend/community_decoder.py:236-241 | the preferred site does not depend on argument order |
| CommunityDecoder.ChainHeadedBy | backend/community_decoder.py:250-252 | the chain found is one of the region's chains headed by the site; None when no chain is headed by it |
| CommunityDecoder.FailoverChain | backend/community_decoder.py:244-254 | the chain is non-empty and starts with the site; `[site]` for a site outside SITE_REGIONS |
| CommunityDecoder.GetFailoverChain | backend/community_decoder.py:244-254 | the search loop with early return computes exactly `FailoverChain` |
| CommunityDecoder.FailoverChainStaysInRegion | backend/community_decoder.py:244-254 | a listed site has a chain of at least two sites, all in its own region |
| CommunityDecoder.DigitsThenDot | backend/community_decoder.py:217 | a split `\d+\.`: decimal digits, a dot, then the rest, which rebuild the input |
| CommunityDecoder.OctetRegion | backend/community_decoder.py:224-226 | the reverse lookup of REGION_FW_OCTETS returns the region owning the octet, and None when no region owns it |
| CommunityDecoder.DeriveFirewall | backend/community_decoder.py:207-233 | an identity exactly when the address is `100.R.V.H` with R in {120, 123, 124, 127}; its region's octet is R, `vrf_id` is V, the next hop is kept and the site is None |
| CommunityDecoder.DigitsThenDotOf | backend/community_decoder.py:217 | a decimal number followed by a dot is split off whole |
| CommunityDecoder.ParseFirewallPieces | backend/community_decoder.py:217-222 | `100.A.B.C` with decimal A, B, C parses to the values of A and B |
| CommunityDecoder.ParseFirewallNumbers | backend/community_decoder.py:217-222 | an address written from numbers parses back to its second and third octets |
| CommunityDecoder.FirewallAddressRoundTrip | backend/community_decoder.py:207-233 | every region's firewall address `100.R.V.H` derives back to that region and VRF |
| CommunityDecoder.DeriveFromParse | backend/community_decoder.py:221-231 | a parsed address whose octet belongs to a region yields that region, VRF and next hop |
| FisCommunityDecoder.Name | backend/plugins/fis_community_decoder.py:40-41 | the plugin's name is always "fis-community-decoder" |
| FisCommunityDecoder.RegionName | backend/plugins/fis_community_decoder.py:56-57 | the region of a listed site, and "unknown" exactly when the site is not in SITE_REGIONS |
| FisCommunityDecoder.PreferenceLabel | backend/plugins/fis_community_decoder.py:62-68 | a label exactly for LP >= 150 or <= 50, and then the label `lp_to_preference` gives |
| FisCommunityDecoder.KeysDistinct | backend/plugins/fis_community_decoder.py:56-68 | the four result keys are pairwise distinct, so writing one never disturbs another |
| FisCommunityDecoder.Absorb | backend/plugins/fis_community_decoder.py:48-60 | one loop iteration keeps the result a well-formed dictionary |
| FisCommunityDecoder.AbsorbAll | backend/plugins/fis_community_decoder.py:48-60 | the whole loop keeps the result a well-formed dictionary |
| FisCommunityDecoder.Decode | backend/plugins/fis_community_decoder.py:43-70 | `decode` returns a well-formed dictionary |
| FisCommunityDecoder.DecodeCommunities | backend/plugins/fis_community_decoder.py:43-70 | the loop that overwrites keys and the local-preference branch compute exactly `Decode` |
| FisCommunityDecoder.AbsorbAllKeys | backend/plugins/fis_community_decoder.py:48-60 | the loop writes only `origin_site`, `region` and `advertising_site`; tags that are not `digits:digits` are skipped |
| FisCommunityDecoder.AbsorbAllOrigin | backend/plugins/fis_community_decoder.py:54-57 | `origin_site` and `region` are present exactly when there is an OID tag; they hold `Site-X` and SITE_REGIONS' entry (default "unknown") for the last one |
| FisCommunityDecoder.AbsorbAllAdvertising | backend/plugins/fis_community_decoder.py:58-60 | `advertising_site` is present exactly when there is an AID tag, and holds `Site-X` of the last one |
| FisCommunityDecoder.KeysAndPreference | backend/plugins/fis_community_decoder.py:43-70 | only the four keys appear; `preference` appears exactly when a local preference >= 150 or <= 50 is given, with the label lp_to_preference gives it |
| FisCommunityDecoder.AgreesWithCoreDecoder | backend/plugins/fis_community_decoder.py:48-60 | the plugin reports the same origin site, region (unlisted as "unknown") and advertising site as decode_communities |
| FisCommunityDecoder.EmptyInputEmptyResult | backend/plugins/fis_community_decoder.py:43-70 | no communities and no local preference give the empty dictionary |
| PathWalker.OrElse | backend/path_walker.py:187-235 | `s or fallback`: the string when it is given and non-empty, the fallback otherwise |
| PathWalker.DcpeStep | backend/path_walker.py:177-204 | a DCPE hop in domain "pe_zone" exists exactly when there is an origin site with an inventory, or an origin id |
| PathWalker.SpeStep | backend/path_walker.py:206-223 | an SPE hop, when there is one, has role spe and domain "pe_zone" |
| PathWalker.FirewallStep | backend/path_walker.py:225-241 | a T2 firewall hop in domain "boundary" exists exactly when there is a firewall identity or an advertising id |
| PathWalker.AggStep | backend/path_walker.py:243-265 | there is always an AGG hop, in domain "backbone" |
| PathWalker.BuildHopList | backend/path_walker.py:158-267 | the appends of `_build_hop_list` build exactly `HopList` |
| PathWalker.AppendDcpe | backend/path_walker.py:177-204 | appends the DCPE hop of step 1, if any, and nothing else |
| PathWalker.AppendSpe | backend/path_walker.py:206-223 | appends the SPE hop of step 2, if any, and nothing else |
| PathWalker.AppendFirewall | backend/path_walker.py:225-241 | appends the T2 firewall hop of step 3, if any, and nothing else |
| PathWalker.AppendAgg | backend/path_walker.py:243-265 | appends exactly the AGG hop of step 4 |
| PathWalker.HopList | backend/path_walker.py:158-267 | what `_build_hop_list` returns: one to four hops, the last an AGG hop in domain "backbone" |
| PathWalker.HopOfRole | backend/path_walker.py:167-168 | the first hop with a role, or None exactly when no hop has it |
| PathWalker.HopOfRoleConcat | backend/path_walker.py:170-267 | the first hop of a role in a concatenation comes from the first part when that part has one |
| PathWalker.PiecesShape | backend/path_walker.py:170-267 | hops collected one per step hold 1 to 4 hops with strictly increasing role ranks, ending with the AGG |
| PathWalker.HopListShape | backend/path_walker.py:158-267 | at most one hop per role, in the order dcpe, spe, t2_fw, agg, always ending with exactly one AGG hop in "backbone" |
| PathWalker.HopOfRoleSingle | backend/path_walker.py:170-267 | in a list of at most one hop, the hop of a role is that hop when it has the role |
| PathWalker.RoleInPieces | backend/path_walker.py:170-267 | the hop of a role among the four collected pieces is the first piece with that role |
| PathWalker.PiecesByRole | backend/path_walker.py:170-267 | in hops collected in role order, each role's hop is the one collected for it |
| PathWalker.HopsByRole | backend/path_walker.py:170-267 | the list's DCPE, SPE, T2 firewall and AGG hops are exactly the ones steps 1-4 produce |
| PathWalker.PlaceholderHops | backend/path_walker.py:198-265 | without an inventory an OID gives "dcpe-site-N" and "spe-site-N" first; with no OID, firewall or AID the list is only the "agg" placeholder |
| PathWalker.FirewallHopChoice | backend/path_walker.py:225-241 | the T2 hop is "t2fw-REGION-vrfV" with the firewall's next hop when there is a firewall, else "t2fw-SITE" from the AID, else absent |
| PathWalker.AggHopChoice | backend/path_walker.py:243-265 | the AGG hop is the site's first route reflector, else its first AGG, else "agg-SITE"; without a site it is "agg" |
| PathWalker.IntOr | backend/path_walker.py:138 | `x or fallback` on an optional integer: the value when present and non-zero, else the fallback |
| PathWalker.EffectiveLocalPref | backend/path_walker.py:138 | the local preference is never 0; it is the decoded one when non-zero, else the BGP one, else 100 |
| PathWalker.FirewallOf | backend/path_walker.py:130-132 | the firewall is looked up only for a non-empty next hop, and keeps that next hop |
| PathWalker.Title | backend/path_walker.py:281 | `str.title()` of a preference keeps its length and all letters after the first |
| PathWalker.DescriptionParts | backend/path_walker.py:271-290 | the parts start with the emoji and the title-cased preference, and end with "FW: REGION" when there is a firewall |
| PathWalker.Describe | backend/path_walker.py:269-292 | the parts, joined by a vertical-bar separator, start with the emoji and title, and end with "FW: REGION" when there is a firewall |
| PathWalker.DerivePath | backend/path_walker.py:118-156 | the path id is "path-i" for input position i, communities and `active` are copied, and the local preference is non-zero |
| PathWalker.DerivePathContents | backend/path_walker.py:123-154 | a derived path carries the decoded communities, preference defaults to "unknown", the hop list ends at the AGG, a firewall appears as the T2 hop with its next hop, and the description opens with the preference |
| PathWalker.DeriveSinglePath | backend/path_walker.py:118-156 | succeeds exactly when the path has a community list (iterating None raises), and then is `DerivePath` |
| PathWalker.DescriptionHasLocalPref | backend/path_walker.py:287-288 | every description has an "LP n" part, since the local preference is never 0 |
| PathWalker.PathIdsDistinct | backend/path_walker.py:136 | different input positions give different path ids |
| PathWalker.Attempts | backend/path_walker.py:103-104 | one outcome per input, in order; each succeeds exactly when its input has a community list |
| PathWalker.Derive | backend/path_walker.py:87-116 | what `derive_paths` returns: `raw_path_count` is the number of inputs and the primary path is the first path, None when there are none |
| PathWalker.DerivePaths | backend/path_walker.py:87-116 | the loop that appends, the in-place stable sort and the primary mark compute exactly `Derive` |
| PathWalker.Derived | backend/path_walker.py:103-106 | one derived path per input |
| PathWalker.CollectOk | backend/path_walker.py:103-106 | the loop completes exactly when no outcome raises |
| PathWalker.CollectAll | backend/path_walker.py:103-106 | when none raises, the loop appends every derived path in input order |
| PathWalker.DeriveProperties | backend/path_walker.py:87-116 | raises exactly when some path has no community list; otherwise `raw_path_count` = number of paths = inputs, the paths are a permutation sorted by preference then descending LP, equal keys keep input order, and `primary_path` is the first path or None |
| JunosCollector.SkipSpaces | backend/collectors/junos_collector.py:97 | `\s+`/`\s*` matching: every character skipped is whitespace and the next one is not |
| JunosCollector.TokenAfter | backend/collectors/junos_collector.py:97-147 | `lit\s+(\S+)`: the literal occurs there and the token is non-empty with no whitespace |
| JunosCollector.NumberAfter | backend/collectors/junos_collector.py:123-142 | `lit\s+(\d+)`: a number is found only where the literal occurs |
| JunosCollector.RestAfter | backend/collectors/junos_collector.py:109-137 | `lit\s+(.+)` on a stripped line: the literal starts the line, and the captured rest is non-empty and ends the line |
| JunosCollector.StateText | backend/collectors/junos_collector.py:103-105 | `State:\s+<(.+?)>`: the line starts with "State:" and the state text is non-empty |
| JunosCollector.PeerAsAt | backend/collectors/junos_collector.py:114-116 | the `Local AS: n Peer AS: m` pattern is found only where "Local AS:" occurs |
| JunosCollector.TaskPeerAs | backend/collectors/junos_collector.py:152-154 | `Task:\s+BGP_(\d+)\.` is found only on a line starting with "Task:" |
| JunosCollector.DropOriginMarker | backend/collectors/junos_collector.py:130-133 | the AS path is the tokens, or the tokens less the last one (the I/E/? marker); the first token stays first |
| JunosCollector.LiteralsDiffer | backend/collectors/junos_collector.py:94-155 | two patterns whose literals differ at some position cannot both match at the start of a line, so the order of the tests does not hide one |
| JunosCollector.AttributeOf | backend/collectors/junos_collector.py:123-155 | an "AS path:" line (without Metric2) gives the tokens less the origin marker; a "Communities:" line gives its tokens |
| JunosCollector.Classify | backend/collectors/junos_collector.py:95-107 | a line is a `Source:` line exactly when it has a source token, and a `State:` line exactly when it has a state text, with those values |
| JunosCollector.AttributeLines | backend/collectors/junos_collector.py:128-140 | an "AS path:" or "Communities:" line with no Local AS or Metric2 pattern is classified with that attribute |
| JunosCollector.Classified | backend/collectors/junos_collector.py:94-95 | one classification per line of the block, and every `Source:` line carries a token |
| JunosCollector.Step | backend/collectors/junos_collector.py:94-155 | a `Source:` line sets next hop and source to its token, a `State:` line sets `active`, an `AS path:` line sets `as_path` and a `Communities:` line sets `communities`, no other line touching those fields; no line changes the prefix, protocol, interface, VRF or ECMP list |
| JunosCollector.ParseBgpBlock | backend/collectors/junos_collector.py:83-157 | the loop over the lines of a block computes exactly `BlockEntry` |
| JunosCollector.StepLines | backend/collectors/junos_collector.py:94-155 | the line loop applies `Step` to each classified line in turn |
| JunosCollector.LastSource | backend/collectors/junos_collector.py:97-101 | None exactly when no later line is a `Source:` line; a found source is non-empty |
| JunosCollector.BlockActive | backend/collectors/junos_collector.py:86-107 | the last `State:` line decides `active` (contains Active and not NotBest); without one it keeps its start value |
| JunosCollector.BlockNextHop | backend/collectors/junos_collector.py:97-101 | the last `Source:` line gives both `next_hop` and `source` |
| JunosCollector.LastAsPath | backend/collectors/junos_collector.py:128-135 | the AS path of the last `AS path:` line, None exactly when there is none |
| JunosCollector.LastCommunities | backend/collectors/junos_collector.py:137-140 | the communities of the last `Communities:` line, None exactly when there is none |
| JunosCollector.BlockAttributes | backend/collectors/junos_collector.py:128-140 | over a block the last `AS path:` line gives `as_path` and the last `Communities:` line gives `communities`; without one the field keeps its start value |
| JunosCollector.BlockKeeps | backend/collectors/junos_collector.py:88-155 | no line changes the entry's prefix, protocol or ECMP list |
| JunosCollector.BlockEntry | backend/collectors/junos_collector.py:83-157 | what `_parse_bgp_block` returns: an entry is a BGP entry for the given prefix with a non-empty next hop |
| JunosCollector.BlockEntryShape | backend/collectors/junos_collector.py:83-157 | a block yields an entry exactly when it has a `Source:` line; it is a "bgp" entry for the prefix whose next hop is its source, active per its last `State:` line, else per `*BGP` in its first line, with the AS path and communities of its last such lines (empty when absent) |
| JunosCollector.TrailingDigits | backend/collectors/junos_collector.py:26 | the count of digits ending a span: all of them are digits and the one before is not |
| JunosCollector.HeaderAt | backend/collectors/junos_collector.py:26 | a header match starts a line, and the prefix it captures is a non-empty token without whitespace |
| JunosCollector.EffectivePrefix | backend/collectors/junos_collector.py:25-28 | the caller's prefix when no line is a header; otherwise the one the first header line names |
| JunosCollector.ProtoStartAt | backend/collectors/junos_collector.py:31-63 | an entry-start match begins at a line start and ends within the output |
| JunosCollector.ProtoFoundSearch | backend/collectors/junos_collector.py:63-64 | the protocol's line is present exactly when `re.search` finds a match |
| JunosCollector.EntryStarts | backend/collectors/junos_collector.py:31-32 | the `finditer` starts are within the output and strictly increasing |
| JunosCollector.Blocks | backend/collectors/junos_collector.py:37-40 | one block per start |
| JunosCollector.BlockResults | backend/collectors/junos_collector.py:42-43 | one block result per block |
| JunosCollector.Kept | backend/collectors/junos_collector.py:42-45 | the kept entries are no more than the blocks |
| JunosCollector.ActiveOf | backend/collectors/junos_collector.py:48 | the active entries are active entries of the list, no more of them than entries |
| JunosCollector.FirstActive | backend/collectors/junos_collector.py:51 | the position of the first active entry, and it is `active[0]`; None exactly when none is active |
| JunosCollector.GroupEcmp | backend/collectors/junos_collector.py:47-52 | the length never changes; with more than one active entry the first active one's `paths` becomes the other active entries in order, and every other entry is unchanged |
| JunosCollector.IsisName | backend/collectors/junos_collector.py:67 | "IS-IS" is reported as "isis" |
| JunosCollector.ReplaceAbsent | backend/collectors/junos_collector.py:67 | `replace` changes nothing when the pattern does not occur |
| JunosCollector.DirectName | backend/collectors/junos_collector.py:67 | "Direct" is reported as "direct" |
| JunosCollector.StaticName | backend/collectors/junos_collector.py:67 | "Static" is reported as "static" |
| JunosCollector.LocalName | backend/collectors/junos_collector.py:67 | "Local" is reported as "local" |
| JunosCollector.OspfName | backend/collectors/junos_collector.py:67 | "OSPF" is reported as "ospf" |
| JunosCollector.FallbackEntry | backend/collectors/junos_collector.py:65-77 | a fallback entry has the given prefix, the lower-cased protocol, no ECMP list, and is active exactly when a `*` is among the five characters before the protocol name |
| JunosCollector.Found | backend/collectors/junos_collector.py:62-64 | one presence flag per fallback protocol |
| JunosCollector.BuildFallbackEntry | backend/collectors/junos_collector.py:65-77 | the entry built and then updated with the next hop and interface is exactly `FallbackEntry` |
| JunosCollector.SearchProto | backend/collectors/junos_collector.py:63-64 | the search answers exactly whether the protocol's `Preference:` line is present |
| JunosCollector.ParseNonBgp | backend/collectors/junos_collector.py:57-80 | the loop over the five protocols computes exactly `Fallback` |
| JunosCollector.Present | backend/collectors/junos_collector.py:62-64 | the present positions are among the protocols looked at |
| JunosCollector.PresentShape | backend/collectors/junos_collector.py:62-64 | the present positions increase and are exactly the protocols whose line is present |
| JunosCollector.Fallback | backend/collectors/junos_collector.py:57-80 | what `_parse_non_bgp` returns: at most one entry per protocol looked at, each for the given prefix |
| JunosCollector.FallbackShape | backend/collectors/junos_collector.py:57-80 | one entry per protocol present, in the order Direct, Static, Local, OSPF, IS-IS |
| JunosCollector.ParseBlocks | backend/collectors/junos_collector.py:42-45 | the loop appends exactly the entries of the blocks that name a source |
| JunosCollector.Parse | backend/collectors/junos_collector.py:21-54 | what `parse` returns; without a BGP block it is the fallback, at most five entries |
| JunosCollector.GroupActive | backend/collectors/junos_collector.py:47-52 | the in-place update of the first active element computes exactly `GroupEcmp` |
| JunosCollector.ParseOutput | backend/collectors/junos_collector.py:21-54 | `parse` computes exactly `Parse` |
| JunosCollector.KeptBgp | backend/collectors/junos_collector.py:42-45 | every entry kept from the blocks is a BGP entry for the prefix with a non-empty next hop equal to its source |
| JunosCollector.BgpEntries | backend/collectors/junos_collector.py:21-54 | with BGP blocks, at most one entry per block, each a BGP entry for the header's prefix whose next hop is its source |
| JunosCollector.FallbackNone | backend/collectors/junos_collector.py:57-80 | with no protocol line present the fallback is empty |
| JunosCollector.NoBgpStarts | backend/collectors/junos_collector.py:31-33 | without a `BGP Preference:` line there are no block starts |
| JunosCollector.NoRoutes | backend/collectors/junos_collector.py:21-80 | output with no BGP, Direct, Static, Local, OSPF or IS-IS `Preference:` line parses to [] |
| JunosCollector.EmptyOutput | backend/collectors/junos_collector.py:21-80 | the empty output parses to [] |
| BgpCollector.DottedRun | backend/collectors/bgp.py:156 | the run of `[\d.]` characters: all of them are dotted and the next one is not |
| BgpCollector.NextHopOf | backend/collectors/bgp.py:156-158 | a found next hop is a non-empty run of digits and dots |
| BgpCollector.DottedRunExact | backend/collectors/bgp.py:156 | a maximal run of n dotted characters is measured as n |
| BgpCollector.SpaceRunExact | backend/collectors/bgp.py:156 | a maximal run of n whitespace characters is measured as n |
| BgpCollector.NextHopOfSound | backend/collectors/bgp.py:156 | whenever an address is found, `^\s*([\d.]+)\s+from` matches with it |
| BgpCollector.NextHopOfComplete | backend/collectors/bgp.py:156-158 | whenever the pattern matches, the address found is group 1 |
| BgpCollector.FindNumber | backend/collectors/bgp.py:173-177 | the leftmost position from `i` where `word\s+(\d+)` matches, or None when none does |
| BgpCollector.SearchNumber | backend/collectors/bgp.py:173-179 | a number found is non-negative |
| BgpCollector.SearchNumberMatches | backend/collectors/bgp.py:173-179 | `re.search` finds a number exactly when the pattern matches somewhere, and the value is that of the leftmost match |
| BgpCollector.OriginCode | backend/collectors/bgp.py:163-168 | the origin is always 'i', 'e' or '?' |
| BgpCollector.ApplyOrigin | backend/collectors/bgp.py:162-179 | an "Origin" line sets the origin code, sets `best` when the line says best, takes localpref and metric when present, and changes nothing else |
| BgpCollector.CommunityTokens | backend/collectors/bgp.py:183 | the community tokens are non-empty |
| BgpCollector.ApplyAttributes | backend/collectors/bgp.py:161-184 | a "Community:" line replaces the communities with its tokens, an "Origin" line sets the origin; prefix, AS path and next hop are untouched; well-formed paths stay well formed |
| BgpCollector.Classify | backend/collectors/bgp.py:132-159 | a stripped line is a "Paths:" line exactly when it contains "Paths:", an AS line exactly when it is digits and spaces; a next-hop line carries its group 1 |
| BgpCollector.AsLineIsNotPathsLine | backend/collectors/bgp.py:135-144 | a line of AS numbers never contains "Paths:", so the tests' order does not matter for it |
| BgpCollector.Classified | backend/collectors/bgp.py:126-132 | one classification per line, in order |
| BgpCollector.Step | backend/collectors/bgp.py:132-184 | lines before the "Paths:" line change nothing; the flag, once up, stays up; only an AS-path line after it closes the current path and opens a new one carrying the caller's prefix; with no current path other lines change nothing; a `<dotted> from` line sets the current path's next hop and any other line applies `ApplyAttributes` (Origin and Community) to it |
| BgpCollector.ParseCisco | backend/collectors/bgp.py:113-189 | what `_parse_cisco_bgp_output` returns: as many paths as AS-path lines after the first "Paths:" line |
| BgpCollector.ParseCiscoBgpOutput | backend/collectors/bgp.py:113-189 | the line loop with its `in_paths` flag and current-path cursor computes exactly `ParseCisco` |
| BgpCollector.ParseLine | backend/collectors/bgp.py:132-184 | one iteration of the loop is exactly `Step` on the flag, the cursor and the list |
| BgpCollector.AsPaths | backend/collectors/bgp.py:150 | one AS-path text per path |
| BgpCollector.AsPathsConcat | backend/collectors/bgp.py:145-187 | the AS paths of appended lists are appended |
| BgpCollector.FirstPathsLine | backend/collectors/bgp.py:135-140 | the first line containing "Paths:" from `i`, or None when there is none |
| BgpCollector.StepAsPaths | backend/collectors/bgp.py:142-153 | once the flag is up it stays up, and an AS line adds exactly one path with that AS path while no other line adds one |
| BgpCollector.AsPathsInPaths | backend/collectors/bgp.py:131-189 | after the flag is up, the paths are one per AS line, in order |
| BgpCollector.SkipToPaths | backend/collectors/bgp.py:135-140 | lines before the first "Paths:" line are ignored |
| BgpCollector.ParsedAsPaths | backend/collectors/bgp.py:113-189 | the paths are one per AS line after the first "Paths:" line, in output order, each with that line as AS path; none without a "Paths:" line |
| BgpCollector.ParseFromWellFormed | backend/collectors/bgp.py:131-184 | every step of the loop keeps the list and cursor well formed |
| BgpCollector.ParsedPathsWellFormed | backend/collectors/bgp.py:113-189 | every path carries the caller's prefix and a line of AS numbers, origin i/e/?, an empty or dotted next hop, and non-negative numbers |
| DataLoader.AddToIndex | backend/data_loader.py:47 | `setdefault(...).append(r)` keeps the index a well-formed dictionary |
| DataLoader.IndexOf | backend/data_loader.py:45-47 | the index built route by route is a well-formed dictionary |
| DataLoader.BuildIndex | backend/data_loader.py:45-47 | the indexing loop of `reload` computes exactly `IndexOf` |
| DataLoader.IndexBucket | backend/data_loader.py:45-47 | a prefix is a key exactly when some route carries it, and its bucket is those routes in their original order |
| DataLoader.IndexKeys | backend/data_loader.py:45-47 | every route's prefix is a key, and every route in a bucket carries that bucket's key |
| DataLoader.IndexHoldsAll | backend/data_loader.py:44-47 | the buckets together are a permutation of the host's route list |
| DataLoader.AddHoldsOneMore | backend/data_loader.py:47 | one append adds that route, and nothing else, to the buckets' contents |
| DataLoader.ToRouteEntry | backend/data_loader.py:86-97 | protocol "bgp" and active always; prefix, next hop, communities, local preference, AS path and source copied; other fields at their defaults |
| DataLoader.HostIndex | backend/data_loader.py:64 | `_index.get(hostname, {})` is a well-formed dictionary |
| DataLoader.Matches | backend/data_loader.py:73-80 | every route collected comes from the bucket of a key whose network contains the query |
| DataLoader.Lookup | backend/data_loader.py:63-84 | what `lookup_routes` returns for one host: an exact hit gives one entry per route of the bucket; a query that is no network gives [] |
| DataLoader.LookupExact | backend/data_loader.py:65-66 | an exact prefix hit returns that prefix's routes in insertion order, with no containment search |
| DataLoader.MatchesFlatten | backend/data_loader.py:73-80 | the matches are the indexed routes, bucket by bucket, whose prefix covers the query |
| DataLoader.BucketCovers | backend/data_loader.py:74-80 | a bucket's routes share its key, so the bucket is taken whole or not at all; unparsable keys are skipped |
| DataLoader.MatchesAreCovering | backend/data_loader.py:73-80 | the matches are exactly the cached routes whose prefix equals or contains the query, each once |
| DataLoader.LookupByContainment | backend/data_loader.py:68-84 | with no exact hit and a valid query, the result is every covering route once, sorted by descending prefix length, ties in index order |
| DataLoader.LookupNested | backend/data_loader.py:79-84 | the networks returned form a chain: each lies in every one after it, so the first is the most specific |
| DataLoader.CoveringNetwork | backend/data_loader.py:76-79 | a route selected as covering parses to a network that contains the query |
| DataLoader.Stale | backend/data_loader.py:55-61 | what `stale_warnings` returns: at most one warning per host, or the TypeError of a naive timestamp |
| DataLoader.StaleFailsOnNaive | backend/data_loader.py:58-59 | the warnings come back exactly when every timestamp is offset-aware; a naive one raises TypeError |
| DataLoader.StaleErrPersists | backend/data_loader.py:58-59 | once a timestamp has raised, the later hosts are not looked at |
| DataLoader.StaleWarningsAre | backend/data_loader.py:55-61 | with offset-aware timestamps, exactly one warning per host more than an hour old, in insertion order, and none for the others |
| DataLoader.LoadHost | backend/data_loader.py:36-53 | loading one host file keeps the timestamp dictionary well formed |
| DataLoader.Loaded | backend/data_loader.py:25-53 | the loaded cache's timestamp dictionary is well formed |
| DataLoader.LoadedConsistent | backend/data_loader.py:25-53 | after loading, each host's index is built from its own routes, and only loaded hosts have stamps |
| DataLoader.LoadedRoutes | backend/data_loader.py:33-47 | a host has cached routes exactly when some file for it was readable, and they are those of the last readable one |
| DataLoader.HostRoutes | backend/data_loader.py:33-47 | every cached host has the routes of one of its readable files |
| DataLoader.MatchingRoutes | backend/data_loader.py:73-80 | the loop over the index's keys collects exactly `Matches` |
| DataLoader.CollectedDataLoader.constructor | backend/data_loader.py:18-23 | the new loader holds exactly what `reload` loads |
| DataLoader.CollectedDataLoader.Reload | backend/data_loader.py:25-53 | after clearing and refilling, the three dictionaries are exactly `Loaded` |
| DataLoader.CollectedDataLoader.StaleWarnings | backend/data_loader.py:55-61 | the loop over the timestamps computes exactly `Stale` |
| DataLoader.CollectedDataLoader.LookupRoutes | backend/data_loader.py:63-84 | an unknown host gives []; otherwise the result is exactly `Lookup` on that host's index |
| Ipv4.MaskStep | backend/data_loader.py:79 | each netmask keeps the bits of the one a bit shorter |
| Ipv4.MaskNested | backend/data_loader.py:79 | a longer netmask keeps every bit of a shorter one |
| Ipv4.SubnetOfReflexive | backend/data_loader.py:79 | every network lies in itself, so `target == rp` is covered by `subnet_of` |
| Ipv4.SubnetOf | backend/data_loader.py:79 | when it holds, every address of the first network is in the second |
| Ipv4.SubnetOfTransitive | backend/data_loader.py:79 | lying in a network is transitive |
| Ipv4.SubnetOfAntisymmetric | backend/data_loader.py:79 | two networks that lie in each other are equal |
| Ipv4.ContainingNetworksNest | backend/data_loader.py:79-83 | of two networks containing the query, the longer one lies in the shorter one |
| Ipv4.ParseOctet | backend/data_loader.py:69-76 | an octet parses exactly when it is 1-3 digits, no leading zero, at most 255 |
| Ipv4.ParseAddress | backend/data_loader.py:69 | an address parses exactly when it has four dot-separated parts that are each an octet |
| Ipv4.ParseLength | backend/data_loader.py:69-76 | a prefix length parses exactly when it is decimal digits worth at most 32, and reads as their value |
| Ipv4.MaskLengthFrom | backend/data_loader.py:69-76 | the search finds a length whose netmask is the given bits, and finds none only when no length from the start has that netmask |
| Ipv4.MaskExamples | backend/data_loader.py:69-76 | `255.255.0.0` reads as /16, and `0.0.0.0` reads as the netmask of /0 before the hostmask of /32 |
| Ipv4.ParseMask | backend/data_loader.py:69-76 | the text after `/` is a prefix length if it is one, else a dotted quad that is a netmask or, inverted, a hostmask of the result's length; it fails only when none of these applies |
| Ipv4.NetworkOf | backend/data_loader.py:69-76 | `strict=False` clears the host bits: the network is valid with the given length |
| Ipv4.NetworkOfHoldsAddress | backend/data_loader.py:69-76 | the network parsed with `strict=False` contains the written address |
| Ipv4.ParseNetwork | backend/data_loader.py:69-76 | a network parses exactly when the text is an address with at most one `/` part that is a valid length or mask; the result is that address with its host bits cleared, /32 when no length is written |
| Inventory.RoleNamed | backend/inventory.py:242-251 | a role is found only for the string that is its `device_role` name |
| Inventory.RoleNamedName | backend/inventory.py:242-251 | each of the seven roles is found from its own name |
| Inventory.SiteInfo.AppendToRole | backend/inventory.py:251-253 | appending to one role's list changes that list alone, by one host at the end |
| Inventory.NewSite | backend/inventory.py:187-191 | a new site carries its id, number and region, with every list empty |
| Inventory.Inventory.GetDevice | backend/inventory.py:64-65 | the device stored under the hostname, None exactly when there is none |
| Inventory.Inventory.GetSite | backend/inventory.py:67-68 | the site stored under the id, None exactly when there is none |
| Inventory.Inventory.DevicesOf | backend/inventory.py:75-94 | the records of the listed hosts that are known devices, in list order |
| Inventory.Inventory.GetAggRouters | backend/inventory.py:70-77 | a known site's AGG hosts that are devices, in site order; [] for an unknown site; with no or an empty site id, exactly the devices with role "agg", in insertion order |
| Inventory.Inventory.GetRrRouters | backend/inventory.py:79-82 | exactly the `get_agg_routers` results whose rr_role is "route_reflector" |
| Inventory.Inventory.GetDcpeForSite | backend/inventory.py:84-88 | [] for an unknown site, else the site's DCPE hosts that are devices |
| Inventory.Inventory.GetSpeForSite | backend/inventory.py:90-94 | [] for an unknown site, else the site's SPE hosts that are devices |
| Inventory.Inventory.FirstNumbered | backend/inventory.py:98-100 | the first id, in order, naming a site with the number; no earlier one does |
| Inventory.Inventory.SiteIdFromNumber | backend/inventory.py:96-101 | the first site in insertion order with that number, or None exactly when no site has it |
| Inventory.Inventory.GetSitesInRegion | backend/inventory.py:103-105 | [] for an unknown region, else the records of the region's listed sites that are known |
| Inventory.FilterKeepsAll | backend/inventory.py:105 | a comprehension whose condition every element meets keeps the list |
| Inventory.SitesInRegionComplete | backend/inventory.py:173-183 | in a loaded inventory no site a region lists is dropped |
| Inventory.SiteAggRoutersComplete | backend/inventory.py:238-253 | in a loaded inventory no AGG host of a site is dropped |
| Inventory.FindSiteTag | backend/inventory.py:115 | the leftmost `site\d` at or after a position, and none before it |
| Inventory.ExtractSiteNumber | backend/inventory.py:113-121 | a number is found exactly when the name holds "site<N>" somewhere or starts with "s<N>-"; it is the N of the leftmost "site<N>", and the N of a leading "s<N>-" only when no "site<N>" occurs |
| Inventory.SiteTagBeatsHostPrefix | backend/inventory.py:115-120 | "s1-site2" gives 2: a "site<N>" anywhere wins over a leading "s<N>-" |
| Inventory.SiteIdNumber | backend/inventory.py:177-180 | the number is read back from the site id "site<N>" |
| Inventory.HostNameShape | backend/inventory.py:118-120 | the characters of a host name "s<N>-<rest>" |
| Inventory.HostNameHasNoSiteTag | backend/inventory.py:115 | no "site<digit>" starts in a host name whose rest has no "site" |
| Inventory.HostNameNumber | backend/inventory.py:113-121 | the number is read back from "s<N>-<rest>" when "site" does not follow |
| InventoryLoader.EmptyInventory | backend/inventory.py:154 | `Inventory()` is valid and has no devices, sites or regions |
| InventoryLoader.NormalizeRegion | backend/inventory.py:125-129 | only "americas", "emea" and "apac" are regions, each mapped to itself |
| InventoryLoader.FirstSuffix | backend/inventory.py:210-215 | the first pattern, in table order, whose suffix ends the group name; no earlier one does |
| InventoryLoader.SuffixRole | backend/inventory.py:210-215 | the pattern of the first suffix, in table order, that ends the name; none exactly when no suffix does |
| InventoryLoader.ResolveGroup | backend/inventory.py:202-215 | a given `device_role` is kept with its domain; otherwise the first matching suffix gives the role and fills an empty domain and tier; with no match the role stays empty |
| InventoryLoader.RoleKey | backend/inventory.py:242-251 | `role_list_map.get(role)` raises exactly for an unhashable role, and finds a role exactly for its name |
| InventoryLoader.PutDeviceValid | backend/inventory.py:238 | storing a device under its own hostname keeps the inventory valid |
| InventoryLoader.PutSiteValid | backend/inventory.py:239-253 | replacing a known site by a consistent record keeps the inventory valid |
| InventoryLoader.SiteWithHost | backend/inventory.py:239-253 | the host is appended to `all_devices` and to its role's list only, nothing else changes |
| InventoryLoader.AddSiteHost | backend/inventory.py:221-253 | a site host is stored, and appended to its site's lists; fails exactly when the host data is not a mapping or the role is unhashable |
| InventoryLoader.SiteHostListed | backend/inventory.py:238-253 | the site's `all_devices` grows by the host, and so does the list of the role it names, no other |
| InventoryLoader.AddSiteHostsFrom | backend/inventory.py:221-253 | storing a group's hosts keeps the inventory valid, the regions unchanged and the set of sites the same |
| InventoryLoader.RoleGroupStep | backend/inventory.py:198-253 | a role group that is not a mapping adds nothing; otherwise validity, regions and sites are kept |
| InventoryLoader.RoleGroupsFrom | backend/inventory.py:198-253 | walking the role groups keeps validity, the regions and the set of sites |
| InventoryLoader.AppendNew | backend/inventory.py:182-183 | the site is listed once: it is appended only when absent, and a list without duplicates keeps none |
| InventoryLoader.ListSite | backend/inventory.py:181-183 | only the region's list changes, by `AppendNew` |
| InventoryLoader.ListSiteValid | backend/inventory.py:181-183 | listing a known site in a region keeps the inventory valid |
| InventoryLoader.NewSiteValid | backend/inventory.py:186-191 | creating a new site's record keeps the inventory valid |
| InventoryLoader.CreateSite | backend/inventory.py:186-191 | the new site is added with its id, number and region, nothing else changes |
| InventoryLoader.OpenSite | backend/inventory.py:180-193 | the site is listed in its region and exists; a known site is left alone, a new one gets region or "unknown" |
| InventoryLoader.SiteStep | backend/inventory.py:175-196 | site groups without a number are skipped; otherwise the site is listed and registered |
| InventoryLoader.SitesFrom | backend/inventory.py:175-253 | walking a region's sites keeps the inventory valid |
| InventoryLoader.SetDefaultRegion | backend/inventory.py:172-173 | `setdefault` leaves the region present and nothing else changed |
| InventoryLoader.RegionStep | backend/inventory.py:164-175 | a region or flat group keeps the inventory valid |
| InventoryLoader.RegionsFrom | backend/inventory.py:164-253 | walking the groups under `all` keeps the inventory valid |
| InventoryLoader.FlatHost | backend/inventory.py:275-281 | the role is `device_role` or the group name, the domain the var or "", `extra` is the host data without `ansible_host`, no site |
| InventoryLoader.AddFlatHost | backend/inventory.py:273-282 | a flat host is stored under its name and nothing else changes; fails exactly when the data or vars are not mappings |
| InventoryLoader.FlatHostsFrom | backend/inventory.py:273-282 | flat hosts change only the devices |
| InventoryLoader.AddFlatHosts | backend/inventory.py:273-282 | the loop over the flat hosts equals `FlatHostsFrom` |
| InventoryLoader.FlatGroup | backend/inventory.py:258-282 | a group that is not a mapping adds nothing; otherwise only devices change |
| InventoryLoader.FlatChildrenFrom | backend/inventory.py:264-266 | the children walk changes only devices, skipping children that are not mappings |
| InventoryLoader.AllSection | backend/inventory.py:156-159 | an empty tree has nothing to load; a mapping gives its "all" entry; `in` on a truthy number raises |
| InventoryLoader.Load | backend/inventory.py:143-255 | a loaded inventory is valid; an empty tree or one without "all" gives the empty inventory; an "all" that is not a mapping raises |
| InventoryLoader.LoadAnsibleInventory | backend/inventory.py:143-255 | the tree walk computes exactly `Load` |
| InventoryLoader.ProcessRegions | backend/inventory.py:164-253 | the loop over the groups under `all` computes exactly `RegionsFrom` |
| InventoryLoader.ProcessRegion | backend/inventory.py:165-175 | one group under `all` is exactly `RegionStep` |
| InventoryLoader.ProcessSites | backend/inventory.py:175-253 | the loop over a region's sites computes exactly `SitesFrom` |
| InventoryLoader.ProcessSite | backend/inventory.py:176-198 | one site group is exactly `SiteStep` |
| InventoryLoader.ProcessRoleGroups | backend/inventory.py:198-253 | the loop over a site's role groups computes exactly `RoleGroupsFrom` |
| InventoryLoader.ProcessRoleGroup | backend/inventory.py:199-219 | one role group is exactly `RoleGroupStep` |
| InventoryLoader.AddSiteHosts | backend/inventory.py:221-253 | the loop over a role group's hosts computes exactly `AddSiteHostsFrom` |
| InventoryLoader.ProcessFlatGroup | backend/inventory.py:258-282 | `_process_flat_group` computes exactly `FlatGroup` |
| StableSort.WithKeyConcat | backend/path_walker.py:110 | the elements with a key, taken from a concatenation, are those of each part in turn |
| StableSort.Insert | backend/path_walker.py:110 | inserting adds exactly one element: the result is a permutation of the input plus it |
| StableSort.InsertBounded | backend/path_walker.py:110 | insertion keeps a lower bound on the keys |
| StableSort.InsertSorted | backend/path_walker.py:110 | insertion keeps a sorted list sorted |
| StableSort.SortedProperties | backend/path_walker.py:110 | `list.sort` orders by key and is a permutation of the input |
| StableSort.AllAbove | backend/data_loader.py:83 | a sorted list whose first key is above k has no element with key k |
| StableSort.NoneWithKey | backend/data_loader.py:83 | a list with no element of key k selects nothing for it |
| StableSort.InsertWithKey | backend/path_walker.py:110 | an inserted element lands after every element sharing its key |
| StableSort.SortedIsStable | backend/path_walker.py:110 | the sort is stable: for each key, its elements come out in input order |
| StableSort.SortByKey | backend/data_loader.py:83 | the in-place sort yields exactly the stable sort, sorted and a permutation of its input |
| OrderedMap.Dict.Get | backend/data_loader.py:64 | `d.get(k)` is present exactly for a stored key, with its value |
| OrderedMap.Dict.Put | backend/data_loader.py:47 | `d[k] = v` stores v; an existing key keeps its position, a new key goes last |
| OrderedMap.Dict.Values | backend/data_loader.py:74 | the values in insertion order of their keys |
| OrderedMap.Dict.PutExistingValues | backend/data_loader.py:47 | assigning to an existing key replaces its value in place |
| OrderedMap.Dict.PutNewValues | backend/data_loader.py:47 | assigning to a new key appends its value |
| OrderedMap.Empty | backend/data_loader.py:45 | `{}` is a well-formed, empty dictionary |
| YamlTree.Lookup | backend/inventory.py:156-161 | the value stored under a key, or None exactly when the key is absent |
| YamlTree.Items | backend/inventory.py:164-198 | `.items()` succeeds exactly on a mapping, with its entries |
| YamlTree.Without | backend/inventory.py:280 | `{k: v ... if k != key}` keeps every entry except those with that key |
| GraphEngine.EmptyGraph | backend/graph_engine.py:25 | `nx.DiGraph()` is a valid graph with no nodes |
| GraphEngine.AddNode | backend/graph_engine.py:107-116 | `add_node` adds a new node last, leaves an existing one in place and keeps every successor dictionary |
| GraphEngine.SetSuccValid | backend/graph_engine.py:122-130 | replacing a node's successors by known nodes keeps the graph valid |
| GraphEngine.AddEdge | backend/graph_engine.py:122-130 | `add_edge` adds missing endpoints, sets the edge's attributes and changes no other node's successors |
| GraphEngine.AddEdgeEdges | backend/graph_engine.py:122-130 | adding an edge adds exactly that edge |
| GraphEngine.WithNodes | backend/graph_engine.py:106-116 | the node loop adds exactly the hosts as nodes and no edge |
| GraphEngine.WithNodesOrder | backend/graph_engine.py:106-116 | into an empty graph, distinct hosts become the nodes in order |
| GraphEngine.AddLinks | backend/graph_engine.py:119-130 | the interface loop keeps the graph valid |
| GraphEngine.AddAllLinks | backend/graph_engine.py:118-130 | the router loop keeps the graph valid |
| GraphEngine.Built | backend/graph_engine.py:104-130 | `build_graph` keeps the graph valid |
| GraphEngine.NamesNeighbourSnoc | backend/graph_engine.py:120-121 | an interface list names a neighbour exactly when its prefix or its last interface does |
| GraphEngine.AddLinksEdges | backend/graph_engine.py:119-130 | the interface loop adds an edge from the router to each known neighbour its interfaces name, and nothing else |
| GraphEngine.AddLinksNodes | backend/graph_engine.py:119-130 | when every router is a node, the interface loop adds no node |
| GraphEngine.AddAllLinksEdges | backend/graph_engine.py:118-130 | the router loop adds each visited router's links, and nothing else |
| GraphEngine.AddAllLinksNodes | backend/graph_engine.py:118-130 | when every router is a node, the router loop adds no node |
| GraphEngine.BuiltGraph | backend/graph_engine.py:104-130 | built from scratch, the nodes are the routers in dictionary order and u→v is an edge exactly when an interface of u names the known router v |
| GraphEngine.RoutersByRole | backend/graph_engine.py:132-133 | exactly the routers with that role |
| GraphEngine.RoutersByTier | backend/graph_engine.py:135-136 | exactly the routers in that tier |
| GraphEngine.RoutersBySite | backend/graph_engine.py:138-139 | exactly the routers at that site |
| GraphEngine.RrByTier | backend/graph_engine.py:141-143 | exactly the route reflectors of that reflector tier |
| GraphEngine.RoutersInDomain | backend/graph_engine.py:145-146 | exactly the routers in that domain |
| GraphEngine.RoutersWithVrf | backend/graph_engine.py:148-151 | exactly the routers carrying a VRF of that name |
| GraphEngine.ChildPairsExactly | backend/graph_engine.py:157-159 | the inner loop yields exactly the router paired with each of its child VRFs of the parent |
| GraphEngine.ChildVrfsExactly | backend/graph_engine.py:153-160 | `get_child_vrfs` yields exactly the (router, VRF) pairs whose VRF is a child of the parent |
| GraphEngine.ChildPairs | backend/graph_engine.py:157-159 | at most one pair per VRF, each the router with a child VRF of the parent |
| GraphEngine.ChildVrfs | backend/graph_engine.py:153-160 | every pair is a listed router with one of its child VRFs of the parent |
| GraphEngine.AppendChildPairs | backend/graph_engine.py:157-159 | the inner loop appends exactly `ChildPairs` of the router |
| GraphEngine.FirstAnswering | backend/graph_engine.py:163-169 | the first successor from a position whose interfaces carry the next-hop address, or none |
| GraphEngine.Resolve | backend/graph_engine.py:162-169 | an error exactly when the router is not a node; otherwise the router of the first successor, in successor order, that owns the next-hop address, or none when no successor owns it |
| GraphEngine.FirstJoining | backend/graph_engine.py:171-179 | the first boundary from a position joining the two domains, or none |
| GraphEngine.BoundaryBetween | backend/graph_engine.py:171-179 | the first listed boundary joining the two domains in either orientation, or none when none does |
| GraphEngine.FirstJoiningSymmetric | backend/graph_engine.py:173-178 | the search does not depend on the order of the two domains |
| GraphEngine.BoundarySymmetric | backend/graph_engine.py:171-179 | `get_domain_boundary(a, c) == get_domain_boundary(c, a)` |
| GraphEngine.FirstFirewall | backend/graph_engine.py:183-185 | the first boundary from a position naming the firewall, or none |
| GraphEngine.FirewallTier | backend/graph_engine.py:181-186 | the tier (possibly none) of the first boundary naming the firewall; none when no boundary names it |
| GraphEngine.OutArcs | backend/graph_engine.py:285 | a node's out-edges in successor order, with their attributes |
| GraphEngine.ArcsAreEdges | backend/graph_engine.py:285 | every edge listed by `edges(data=True)` is an edge of the graph with its attributes |
| GraphEngine.EdgesAreArcs | backend/graph_engine.py:285 | every edge of the graph is listed by `edges(data=True)` |
| GraphEngine.EdgeWidth | backend/graph_engine.py:291-297 | width 4, 3, 2 or 1 exactly by the first of 100G, 40G, 10G the speed mentions |
| GraphEngine.Dedup | backend/graph_engine.py:285-309 | the edge loop of `to_vis_json`: one drawn edge per distinct endpoint pair recorded, never more edges than arcs |
| GraphEngine.DedupSnoc | backend/graph_engine.py:285-309 | the edge loop over one more edge is one more drawing step |
| GraphEngine.DedupSeen | backend/graph_engine.py:286-289 | the set of seen pairs is exactly the pairs of the edges walked |
| GraphEngine.DedupSeenDrawn | backend/graph_engine.py:286-309 | the seen pairs are exactly the pairs of the drawn edges |
| GraphEngine.DedupDistinct | backend/graph_engine.py:286-289 | no two drawn edges join the same two devices |
| GraphEngine.FirstOfPairPrefix | backend/graph_engine.py:286-288 | being the first edge of its pair depends only on the edges before it |
| GraphEngine.DedupFirst | backend/graph_engine.py:285-309 | every drawn edge is the first edge of its pair, drawn with its speed's width and its interface and speed as title |
| GraphEngine.DedupCovers | backend/graph_engine.py:285-309 | every pair of devices joined by an edge is drawn |
| GraphEngine.WithRouters | backend/graph_engine.py:49-87 | the router dictionary holds exactly the earlier keys and the hostnames loaded |
| GraphEngine.AddRouterNodes | backend/graph_engine.py:106-116 | the node loop computes the node-adding function |
| GraphEngine.AddRouterLinks | backend/graph_engine.py:119-130 | the interface loop computes the link-adding function |
| GraphEngine.AddAllRouterLinks | backend/graph_engine.py:118-130 | the router loop computes the links of every router |
| GraphEngine.BuildFrom | backend/graph_engine.py:104-130 | the two loops compute `build_graph` |
| GraphEngine.DrawOutArcs | backend/graph_engine.py:285-309 | the edge loop over one node's out-edges continues the drawing state |
| GraphEngine.DrawEdges | backend/graph_engine.py:285-309 | the edge loop draws exactly the de-duplicated edges |
| GraphEngine.StoreRouters | backend/graph_engine.py:49-87 | `self.routers[hostname] = router` for each record gives the router dictionary |
| GraphEngine.Engine.constructor | backend/graph_engine.py:24-28 | an engine with no routers, no boundaries and an empty graph |
| GraphEngine.Engine.LoadInventory | backend/graph_engine.py:30-102 | routers stored by hostname, boundaries appended, graph rebuilt |
| GraphEngine.Engine.BuildGraph | backend/graph_engine.py:104-130 | the graph becomes `build_graph` of the routers; routers and boundaries unchanged |
| GraphEngine.Engine.GetChildVrfs | backend/graph_engine.py:153-160 | the child (router, VRF) pairs in router then VRF order |
| GraphEngine.Engine.ResolveNextHop | backend/graph_engine.py:162-169 | the next hop's router, as resolved over the successors |
| GraphEngine.Engine.GetDomainBoundary | backend/graph_engine.py:171-179 | the first boundary joining the two domains |
| GraphEngine.Engine.GetFirewallTier | backend/graph_engine.py:181-186 | the tier of the first boundary naming the firewall |
| GraphEngine.Engine.ToVisJson | backend/graph_engine.py:213-309 | the node ids in graph order and the de-duplicated edges |
| BlastRadius.RowPairsExactly | backend/blast_radius.py:48-50 | the inner loop visits exactly the destinations other than the source and the failed node |
| BlastRadius.PairsUpToExactly | backend/blast_radius.py:45-50 | the first sources' loops visit exactly their pairs of two different nodes avoiding the failed one |
| BlastRadius.PairsExactly | backend/blast_radius.py:45-50 | the loops visit exactly the ordered pairs of two different nodes, neither of them the failed one |
| BlastRadius.RowPairsDistinct | backend/blast_radius.py:48-50 | with distinct nodes, the inner loop visits no pair twice |
| BlastRadius.PairsUpToDistinct | backend/blast_radius.py:45-50 | with distinct nodes, the first sources' loops visit no pair twice |
| BlastRadius.PairsDistinct | backend/blast_radius.py:45-50 | with distinct nodes, no pair is visited twice |
| BlastRadius.Take | backend/blast_radius.py:54 | `list(islice(gen, n))` is the first n paths, or all of them when there are fewer |
| BlastRadius.FirstThrough | backend/blast_radius.py:62-69 | the first enumerated path from a position that passes through the failed node, or none |
| BlastRadius.Classify | backend/blast_radius.py:52-91 | unreachable exactly when enumeration raises; dense exactly when more than 50 paths; unaffected exactly when none of at most 50 passes through the failed node; otherwise a hit whose original path is the first through it, rerouted exactly when a shortest path avoiding it exists, that path then its alternate, else isolated with an empty alternate |
| BlastRadius.Step | backend/blast_radius.py:58-91 | a dense pair counts one skip, an affected pair adds one entry to one list, other pairs change nothing; the endpoint sets only grow |
| BlastRadius.TallyOf | backend/blast_radius.py:45-91 | the nested loops report or skip no more pairs than they visit |
| BlastRadius.TallySnoc | backend/blast_radius.py:45-91 | visiting one more pair is one more pass of the loop body |
| BlastRadius.TallyLists | backend/blast_radius.py:72-91 | each list holds, in visiting order, exactly the pairs reported with its status |
| BlastRadius.TallySkipped | backend/blast_radius.py:58-60 | `skipped_pairs` counts exactly the dense pairs |
| BlastRadius.TallyEndpoints | backend/blast_radius.py:66-67 | the affected sources and destinations are exactly the endpoints of the reported pairs |
| BlastRadius.Summary | backend/blast_radius.py:96-101 | the summary starts with the head sentence and has the dense-pair sentence exactly when some pair was skipped |
| BlastRadius.Blast | backend/blast_radius.py:33-109 | an error "Node not in graph" exactly when the failed node is not a node; otherwise a result for that node |
| BlastRadius.TallyDistinct | backend/blast_radius.py:45-91 | over distinct pairs, no pair is reported twice, in one list or across both |
| BlastRadius.TallyReportsExactly | backend/blast_radius.py:45-91 | a pair is reported exactly when it is visited and its verdict is a hit |
| BlastRadius.TallyHits | backend/blast_radius.py:66-91 | every reported pair comes from a visited pair and is its verdict; it is listed as rerouted exactly when its status says so |
| BlastRadius.BlastPairs | backend/blast_radius.py:33-109 | each ordered pair is reported at most once, and the reported pairs are exactly the pairs of two different nodes avoiding the failed one whose verdict is a hit |
| BlastRadius.BlastPaths | backend/blast_radius.py:62-91 | every reported pair carries its verdict; it is rerouted exactly when a shortest path avoiding the failed node exists |
| BlastRadius.AffectedAreNodes | backend/blast_radius.py:66-93 | the affected endpoints are nodes other than the failed one |
| BlastRadius.BlastUnaffected | backend/blast_radius.py:93-94 | the unaffected count is the number of nodes less one less the number of affected nodes |
| BlastRadius.UnaffectedCount | backend/blast_radius.py:94 | among distinct nodes, those kept are all but the failed one and the affected ones |
| BlastRadius.ClassifyHit | backend/blast_radius.py:62-91 | a pair whose path k is the first of at most 50 through the failed node is reported with that path |
| BlastRadius.Visit | backend/blast_radius.py:52-91 | the loop body updates the state by the pair's verdict |
| BlastRadius.VisitRow | backend/blast_radius.py:48-91 | the inner loop continues the state over the source's pairs |
| BlastRadius.VisitPairs | backend/blast_radius.py:45-91 | the two loops compute the state over every visited pair, in order |
| BlastRadius.BlastRadiusCalculator.constructor | backend/blast_radius.py:30-31 | the calculator holds the given engine |
| BlastRadius.BlastRadiusCalculator.Calculate | backend/blast_radius.py:33-109 | `calculate` computes the blast radius of the failed node over the engine's graph |

## Left out

- File, YAML and JSON reading: `GraphEngine.Engine.LoadInventory` takes router and boundary records that are already parsed. The Ansible loader walks a parsed `YamlTree.Yaml`. `reload` takes the cache directory as a list of `HostFile` records. Missing files and malformed YAML or JSON are not modelled.
- Datetime parsing in `reload`: a timestamp is an integer count of microseconds with an offset-aware flag, and the clock reading is a parameter. An unparsable timestamp is modelled as an absent one.
- Routing domains: the `domains` dictionary that `load_inventory` fills (backend/graph_engine.py:40-46,90-91) and `get_domains` return only records for display, so they are not modelled.
- networkx path algorithms: `shortest_path`, `all_paths` and `nx.all_simple_paths` are the two functions of `BlastRadius.Oracle`. The `cutoff=15` bound on path length is the oracle's concern; the model keeps the count limit, `islice(..., 51)` compared against 50. The lemmas hold for every oracle, so nothing is assumed about them. An enumeration that raises is `None`.
- The node attributes passed to `add_node` (vendor, role, domain, management address, site, tier) are not stored in the graph model. Nothing in the modelled core reads them back.
- `to_vis_json` display data: node labels, shapes, colours, coordinates and the edge colour and smoothing are not modelled. The model keeps node ids, the edge endpoints, the width and the title.
- The float `utilization` edge attribute is left out; nothing in the modelled core reads it.
- IPv6: networks are IPv4 only. A lookup that mixes address families raises in the source and is not modelled.
- `Ipv4.SubnetOf` is stated in prefix form: equal network bits over the shorter prefix. Python's `subnet_of` compares network and broadcast bounds instead. The two agree on valid networks, but that equivalence is not proved.
- SubnetOf: its contract proves only one direction of containment, that every address of the first network lies in the second. The converse (a network whose every address lies in another is its subnet) is not proved, because it needs bit-level reasoning about masks that is out of resource here.
- The community-decoder plugin base class is modelled as plain module functions. Its registration and import by the API are not modelled.
- Device access is not modelled: telnet, NETCONF and subprocess collection (`JunosCollector.get_route`, `BGPCollector.lookup_prefix` and its helpers, `AnsibleBGPCollector`). Neither are the collectors that only raise `NotImplementedError`.
- backend/history.py (SQLite storage under a lock) and backend/main.py (the HTTP API and its cache) are I/O and concurrency, and are not part of this model.
- `derive_paths_from_raw_output` (backend/path_walker.py:294-303) imports a `JunosRouteParser` that backend/collectors/bgp.py does not define, so it is not modelled.
- backend/path_walker.py defines only `PathWalkerV2`. A hop-by-hop `PathWalker` (trace, reverse trace, failure simulation, origin search) is not part of this model.
- The walker reads `bgp_path.active`, but `BGPPath` (backend/collectors/bgp.py:17-27) has no such field. `PathWalker.InputPath` pairs the BGP path with an `active` flag.
- Text handling is ASCII only. Regular expressions are modelled by ASCII matchers for the patterns used, so `\d` and `\s` match no Unicode digits or spaces. `Text.IsSpace` is ASCII whitespace too, so `Text.Strip` and `Text.Words`, which stand for `str.strip()` and `str.split()` on every Junos and Cisco line and on community tokens, do not strip or split on Unicode spaces such as U+0085, U+00A0, U+2000-U+200A or U+3000.
