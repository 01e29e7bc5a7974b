/**
 * The cached-collection loader (backend/data_loader.py): per-host BGP tables read from
 * `bgp-rib.json` files, an index of each table by prefix string, lookups that fall back from
 * an exact prefix to every cached network containing the queried one (longest prefix
 * first), and warnings for caches older than one hour.
 */
module DataLoader {
  import opened Wrappers
  import opened Seqs
  import opened OrderedMap
  import opened Ipv4
  import opened StableSort
  import opened JunosCollector

  /** BGPRoute (backend/models.py): one cached BGP route. */
  datatype BgpRoute = BgpRoute(
    prefix: string,
    nextHop: string,
    asPath: seq<string>,
    communities: seq<string>,
    localPref: Option<int>,
    origin: string,
    sourceRouter: string,
    timestamp: int)

  /**
   * A parsed `collected_at`: microseconds since the Unix epoch, whether the text carried a
   * UTC offset (an offset-aware datetime), and the datetime's `isoformat()` text.
   */
  datatype Timestamp = Timestamp(micros: int, aware: bool, iso: string)

  /**
   * One entry of the cache directory, already read: `routes` is absent when the entry is not
   * a directory, has no `bgp-rib.json`, or that file does not parse or validate; `collectedAt`
   * is absent when the field is missing, empty or not a valid ISO datetime.
   */
  datatype HostFile = HostFile(name: string, routes: Option<seq<BgpRoute>>, collectedAt: Option<Timestamp>)

  // ----- The per-host index -----

  /** The bucket of routes whose prefix string is `k`. */
  function HasPrefix(k: string): BgpRoute -> bool {
    (r: BgpRoute) => r.prefix == k
  }

  /** `index.setdefault(r.prefix, []).append(r)`. */
  function AddToIndex(idx: Dict<seq<BgpRoute>>, r: BgpRoute): (d: Dict<seq<BgpRoute>>)
    requires idx.Valid()
    ensures d.Valid()
  {
    idx.Put(r.prefix, (if r.prefix in idx.entries then idx.entries[r.prefix] else []) + [r])
  }

  /** The index built from `routes`, one route at a time. */
  function IndexOf(routes: seq<BgpRoute>): (d: Dict<seq<BgpRoute>>)
    ensures d.Valid()
  {
    if routes == [] then Empty() else AddToIndex(IndexOf(routes[..|routes| - 1]), routes[|routes| - 1])
  }

  /** The indexing loop of `reload`. */
  method BuildIndex(routes: seq<BgpRoute>) returns (idx: Dict<seq<BgpRoute>>)
    ensures idx == IndexOf(routes)
  {
    idx := Empty();
    for i := 0 to |routes|
      invariant idx == IndexOf(routes[..i])
    {
      assert routes[..i + 1][..i] == routes[..i];
      var r := routes[i];
      var bucket := if r.prefix in idx.entries then idx.entries[r.prefix] else [];
      idx := idx.Put(r.prefix, bucket + [r]);
    }
    assert routes[..|routes|] == routes;
  }

  /**
   * The index has a key for a prefix string exactly when some route carries it, and that
   * key's bucket holds the routes with that prefix in their original order.
   */
  lemma {:induction false} IndexBucket(routes: seq<BgpRoute>, k: string)
    ensures k in IndexOf(routes).entries ==> IndexOf(routes).entries[k] == Filter(routes, HasPrefix(k))
    ensures k !in IndexOf(routes).entries ==> Filter(routes, HasPrefix(k)) == []
  {
    if routes != [] {
      var init, r := routes[..|routes| - 1], routes[|routes| - 1];
      assert routes == init + [r];
      assert IndexOf(routes) == AddToIndex(IndexOf(init), r);
      IndexBucket(init, k);
      FilterConcat(init, [r], HasPrefix(k));
      assert Filter([r], HasPrefix(k)) == if r.prefix == k then [r] else [] by {
        assert [r][1..] == [];
      }
    }
  }

  /** Every route's prefix is a key, and every bucket's routes carry the bucket's key. */
  lemma IndexKeys(routes: seq<BgpRoute>, k: string)
    ensures forall i :: 0 <= i < |routes| && routes[i].prefix == k ==> k in IndexOf(routes).entries
    ensures k in IndexOf(routes).entries ==>
      forall i :: 0 <= i < |IndexOf(routes).entries[k]| ==> IndexOf(routes).entries[k][i].prefix == k
  {
    IndexBucket(routes, k);
  }

  /** The buckets, taken in key order, hold exactly the routes indexed. */
  lemma {:induction false} IndexHoldsAll(routes: seq<BgpRoute>)
    ensures multiset(Flatten(IndexOf(routes).Values())) == multiset(routes)
  {
    if routes != [] {
      var init, r := routes[..|routes| - 1], routes[|routes| - 1];
      assert routes == init + [r];
      IndexHoldsAll(init);
      AddHoldsOneMore(IndexOf(init), r);
    }
  }

  /** Adding a route to the index adds it, and nothing else, to the buckets' contents. */
  lemma AddHoldsOneMore(d: Dict<seq<BgpRoute>>, r: BgpRoute)
    requires d.Valid()
    ensures multiset(Flatten(AddToIndex(d, r).Values())) == multiset(Flatten(d.Values())) + multiset{r}
  {
    var vs := d.Values();
    if r.prefix in d.entries {
      var i :| 0 <= i < |d.keys| && d.keys[i] == r.prefix;
      var bucket := d.entries[r.prefix];
      d.PutExistingValues(i, bucket + [r]);
      FlattenUpdate(vs, i, bucket + [r]);
      FlattenHolds(vs, i);
      assert multiset(bucket + [r]) == multiset(bucket) + multiset{r};
    } else {
      assert [] + [r] == [r];
      assert AddToIndex(d, r) == d.Put(r.prefix, [r]);
      d.PutNewValues(r.prefix, [r]);
      assert (vs + [[r]])[..|vs|] == vs;
      assert Flatten(vs + [[r]]) == Flatten(vs) + [r];
    }
  }

  // ----- Route entries -----

  /** `_to_route_entry`: a cached route as an active BGP route entry. */
  function ToRouteEntry(r: BgpRoute): (e: RouteEntry)
    ensures e.prefix == r.prefix && e.protocol == "bgp" && e.active
    ensures e.nextHop == r.nextHop && e.communities == r.communities && e.localPref == r.localPref
    ensures e.asPath == r.asPath && e.source == r.sourceRouter
    ensures e.iface == "" && e.metric.None? && e.paths == []
  {
    NewEntry(r.prefix, "bgp", true).(
      nextHop := r.nextHop, communities := r.communities, localPref := r.localPref,
      asPath := r.asPath, source := r.sourceRouter)
  }

  // ----- Lookup -----

  /**
   * Whether the index key `key` names a network holding `target`: it parses, and `target`
   * is a subnet of it or equal to it.
   */
  predicate Covers(target: Network, key: string)
    requires target.Valid()
  {
    match ParseNetwork(key)
    case None => false
    case Some(rp) => SubnetOf(target, rp) || target == rp
  }

  /** A route whose prefix covers `target`. */
  function RouteCovers(target: Network): BgpRoute -> bool
    requires target.Valid()
  {
    (r: BgpRoute) => Covers(target, r.prefix)
  }

  /** The buckets of the first `n` keys that cover `target`, concatenated in key order. */
  function Matches(idx: Dict<seq<BgpRoute>>, target: Network, n: nat): (r: seq<BgpRoute>)
    requires idx.Valid() && target.Valid() && n <= |idx.keys|
    ensures forall x :: x in r ==>
              exists k :: 0 <= k < n && Covers(target, idx.keys[k]) && x in idx.entries[idx.keys[k]]
  {
    if n == 0 then []
    else
      Matches(idx, target, n - 1)
      + (if Covers(target, idx.keys[n - 1]) then idx.entries[idx.keys[n - 1]] else [])
  }

  /** The prefix length of a route's network, 0 when its prefix does not parse. */
  function PrefixLength(prefix: string): nat {
    match ParseNetwork(prefix)
    case Some(n) => n.length
    case None => 0
  }

  /** The sort key of `lookup_routes`: prefix length, descending. */
  function LongestFirst(): BgpRoute -> Key {
    (r: BgpRoute) => (-(PrefixLength(r.prefix) as int), 0)
  }

  /** `_index.get(hostname, {})`. */
  function HostIndex(index: map<string, Dict<seq<BgpRoute>>>, hostname: string): (d: Dict<seq<BgpRoute>>)
    requires forall h :: h in index ==> index[h].Valid()
    ensures d.Valid()
  {
    if hostname in index then index[hostname] else Empty()
  }

  /**
   * `lookup_routes` on one host's index: the routes of an exact prefix match; otherwise, when
   * the prefix parses, the routes of every key covering it, longest prefix first; else none.
   */
  function Lookup(idx: Dict<seq<BgpRoute>>, prefix: string): (r: seq<RouteEntry>)
    requires idx.Valid()
    ensures prefix in idx.entries ==> |r| == |idx.entries[prefix]|
    ensures prefix !in idx.entries && ParseNetwork(prefix).None? ==> r == []
  {
    if prefix in idx.entries then Map(idx.entries[prefix], ToRouteEntry)
    else
      match ParseNetwork(prefix)
      case None => []
      case Some(target) => Map(Sorted(Matches(idx, target, |idx.keys|), LongestFirst()), ToRouteEntry)
  }

  /** An exact hit returns the routes cached for that prefix, in their original order. */
  lemma LookupExact(routes: seq<BgpRoute>, prefix: string)
    requires prefix in IndexOf(routes).entries
    ensures Lookup(IndexOf(routes), prefix) == Map(Filter(routes, HasPrefix(prefix)), ToRouteEntry)
  {
    IndexBucket(routes, prefix);
  }

  /** The matches are the indexed routes whose prefix covers the target, bucket by bucket. */
  lemma {:induction false} MatchesFlatten(routes: seq<BgpRoute>, target: Network, n: nat)
    requires target.Valid() && n <= |IndexOf(routes).keys|
    ensures Matches(IndexOf(routes), target, n) == Filter(Flatten(IndexOf(routes).Values()[..n]), RouteCovers(target))
  {
    var d := IndexOf(routes);
    var vs := d.Values();
    if n > 0 {
      MatchesFlatten(routes, target, n - 1);
      var k := d.keys[n - 1];
      FlattenPrefix(vs, n);
      assert vs[n - 1] == d.entries[k];
      FilterConcat(Flatten(vs[..n - 1]), d.entries[k], RouteCovers(target));
      BucketCovers(routes, target, k);
    }
  }

  /** A bucket's routes all share its key, so they cover the target all or none. */
  lemma BucketCovers(routes: seq<BgpRoute>, target: Network, k: string)
    requires target.Valid() && k in IndexOf(routes).entries
    ensures Filter(IndexOf(routes).entries[k], RouteCovers(target))
      == if Covers(target, k) then IndexOf(routes).entries[k] else []
  {
    var bucket := IndexOf(routes).entries[k];
    IndexKeys(routes, k);
    if Covers(target, k) {
      FilterAll(bucket, RouteCovers(target));
    } else {
      FilterNone(bucket, RouteCovers(target));
    }
  }

  /** The matches are exactly the cached routes whose prefix covers the target, each once. */
  lemma MatchesAreCovering(routes: seq<BgpRoute>, target: Network)
    requires target.Valid()
    ensures multiset(Matches(IndexOf(routes), target, |IndexOf(routes).keys|))
      == multiset(Filter(routes, RouteCovers(target)))
  {
    var idx := IndexOf(routes);
    var vs := idx.Values();
    calc {
      multiset(Matches(idx, target, |idx.keys|));
      { MatchesFlatten(routes, target, |vs|); assert vs[..|vs|] == vs; }
      multiset(Filter(Flatten(vs), RouteCovers(target)));
      { IndexHoldsAll(routes); FilterSameElements(Flatten(vs), routes, RouteCovers(target)); }
      multiset(Filter(routes, RouteCovers(target)));
    }
  }

  /**
   * A prefix with no exact hit that parses returns every cached route covering it, each once,
   * ordered by prefix length from longest to shortest, routes of equal length in key order.
   */
  lemma LookupByContainment(routes: seq<BgpRoute>, prefix: string)
    requires prefix !in IndexOf(routes).entries && ParseNetwork(prefix).Some?
    ensures var target := ParseNetwork(prefix).value;
            var ms := Matches(IndexOf(routes), target, |IndexOf(routes).keys|);
            var sorted := Sorted(ms, LongestFirst());
            && Lookup(IndexOf(routes), prefix) == Map(sorted, ToRouteEntry)
            && multiset(sorted) == multiset(Filter(routes, RouteCovers(target)))
            && (forall i, j :: 0 <= i < j < |sorted| ==> PrefixLength(sorted[j].prefix) <= PrefixLength(sorted[i].prefix))
            && (forall k :: WithKey(sorted, LongestFirst(), k) == WithKey(ms, LongestFirst(), k))
  {
    var target := ParseNetwork(prefix).value;
    var ms := Matches(IndexOf(routes), target, |IndexOf(routes).keys|);
    SortedProperties(ms, LongestFirst());
    MatchesAreCovering(routes, target);
    forall k {
      SortedIsStable(ms, LongestFirst(), k);
    }
  }

  /**
   * The networks a containment lookup returns form a chain: each lies in every network after
   * it, so the first is the most specific.
   */
  lemma LookupNested(routes: seq<BgpRoute>, prefix: string)
    requires prefix !in IndexOf(routes).entries && ParseNetwork(prefix).Some?
    ensures var target := ParseNetwork(prefix).value;
            var sorted := Sorted(Matches(IndexOf(routes), target, |IndexOf(routes).keys|), LongestFirst());
            forall i, j :: 0 <= i < j < |sorted| ==>
              ParseNetwork(sorted[i].prefix).Some? && ParseNetwork(sorted[j].prefix).Some? &&
              SubnetOf(ParseNetwork(sorted[i].prefix).value, ParseNetwork(sorted[j].prefix).value)
  {
    var target := ParseNetwork(prefix).value;
    var sorted := Sorted(Matches(IndexOf(routes), target, |IndexOf(routes).keys|), LongestFirst());
    LookupByContainment(routes, prefix);
    forall i, j | 0 <= i < j < |sorted|
      ensures ParseNetwork(sorted[i].prefix).Some? && ParseNetwork(sorted[j].prefix).Some?
      ensures SubnetOf(ParseNetwork(sorted[i].prefix).value, ParseNetwork(sorted[j].prefix).value)
    {
      var a := ParseNetwork(sorted[j].prefix);
      var b := ParseNetwork(sorted[i].prefix);
      CoveringNetwork(routes, target, sorted[i]);
      CoveringNetwork(routes, target, sorted[j]);
      ContainingNetworksNest(target, a.value, b.value);
    }
  }

  /** A route selected as covering the target parses to a network holding the target. */
  lemma CoveringNetwork(routes: seq<BgpRoute>, target: Network, r: BgpRoute)
    requires target.Valid() && r in multiset(Filter(routes, RouteCovers(target)))
    ensures ParseNetwork(r.prefix).Some? && SubnetOf(target, ParseNetwork(r.prefix).value)
  {
    assert RouteCovers(target)(r);
  }

  // ----- Staleness -----

  /** `timedelta(hours=1)` in microseconds. */
  const HourMicros := 3600 * 1000000

  /** What subtracting a naive datetime from an aware one raises. */
  const NaiveError := "TypeError: can't subtract offset-naive and offset-aware datetimes"

  const StaleText := ": cached data is older than 1 hour ("

  /** The warning line for a stale host. */
  function StaleMessage(host: string, t: Timestamp): string {
    host + StaleText + t.iso + ")"
  }

  /**
   * `stale_warnings` over `hosts`, the timestamp dictionary's keys in insertion order: a
   * warning for each host whose data is more than an hour older than `now`; subtracting a
   * naive timestamp from the aware `now` raises TypeError.
   */
  function Stale(hosts: seq<string>, stamps: map<string, Timestamp>, now: int): (r: Result<seq<string>>)
    requires forall i :: 0 <= i < |hosts| ==> hosts[i] in stamps
    ensures r.Ok? ==> |r.value| <= |hosts|
    ensures r.Err? ==> r.message == NaiveError
  {
    if hosts == [] then Ok([])
    else
      match Stale(hosts[..|hosts| - 1], stamps, now)
      case Err(m) => Err(m)
      case Ok(ws) =>
        var host := hosts[|hosts| - 1];
        var t := stamps[host];
        if !t.aware then Err(NaiveError)
        else if now - t.micros > HourMicros then Ok(ws + [StaleMessage(host, t)])
        else Ok(ws)
  }

  /** Whether `host`'s cache is more than an hour old at `now`. */
  function IsStale(stamps: map<string, Timestamp>, now: int): string -> bool {
    (host: string) => host in stamps && now - stamps[host].micros > HourMicros
  }

  /** The warning for `host`. */
  function WarningFor(stamps: map<string, Timestamp>): string -> string {
    (host: string) => if host in stamps then StaleMessage(host, stamps[host]) else ""
  }

  /** The warnings are produced exactly when every timestamp is offset-aware. */
  lemma {:induction false} StaleFailsOnNaive(hosts: seq<string>, stamps: map<string, Timestamp>, now: int)
    requires forall i :: 0 <= i < |hosts| ==> hosts[i] in stamps
    ensures Stale(hosts, stamps, now).Ok? <==> forall i :: 0 <= i < |hosts| ==> stamps[hosts[i]].aware
  {
    if hosts != [] {
      var init := hosts[..|hosts| - 1];
      StaleFailsOnNaive(init, stamps, now);
      assert forall i :: 0 <= i < |init| ==> init[i] == hosts[i];
    }
  }

  /** One more host: an offset-naive timestamp raises, a stale one adds its warning. */
  lemma StaleNext(hosts: seq<string>, stamps: map<string, Timestamp>, now: int, i: nat, ws: seq<string>)
    requires forall i :: 0 <= i < |hosts| ==> hosts[i] in stamps
    requires i < |hosts| && Stale(hosts[..i], stamps, now) == Ok(ws)
    ensures Stale(hosts[..i + 1], stamps, now)
         == var t := stamps[hosts[i]];
            if !t.aware then Err(NaiveError)
            else if now - t.micros > HourMicros then Ok(ws + [StaleMessage(hosts[i], t)])
            else Ok(ws)
  {
    assert hosts[..i + 1][..i] == hosts[..i];
  }

  /** Once a timestamp has raised, the hosts after it are not looked at. */
  lemma {:induction false} StaleErrPersists(hosts: seq<string>, stamps: map<string, Timestamp>, now: int, n: nat)
    requires forall i :: 0 <= i < |hosts| ==> hosts[i] in stamps
    requires n <= |hosts| && Stale(hosts[..n], stamps, now).Err?
    ensures Stale(hosts, stamps, now) == Stale(hosts[..n], stamps, now)
  {
    if n < |hosts| {
      var init := hosts[..|hosts| - 1];
      assert init[..n] == hosts[..n];
      StaleErrPersists(init, stamps, now, n);
    } else {
      assert hosts[..n] == hosts;
    }
  }

  /** With offset-aware timestamps, one warning per stale host, in insertion order. */
  lemma {:induction false} StaleWarningsAre(hosts: seq<string>, stamps: map<string, Timestamp>, now: int)
    requires forall i :: 0 <= i < |hosts| ==> hosts[i] in stamps && stamps[hosts[i]].aware
    ensures Stale(hosts, stamps, now) == Ok(Map(Filter(hosts, IsStale(stamps, now)), WarningFor(stamps)))
  {
    if hosts != [] {
      var p, f := IsStale(stamps, now), WarningFor(stamps);
      var init, host := hosts[..|hosts| - 1], hosts[|hosts| - 1];
      assert hosts == init + [host];
      StaleWarningsAre(init, stamps, now);
      var chosen := Filter(init, p);
      FilterConcat(init, [host], p);
      assert Filter([host], p) == if p(host) then [host] else [] by {
        assert [host][1..] == [];
      }
      if p(host) {
        MapConcat(chosen, [host], f);
        assert Map([host], f) == [StaleMessage(host, stamps[host])] by {
          assert [host][1..] == [];
        }
      } else {
        assert chosen + [] == chosen;
      }
    }
  }

  // ----- Loading -----

  /** The loader's three dictionaries. */
  datatype Cache = Cache(
    bgpByHost: map<string, seq<BgpRoute>>,
    index: map<string, Dict<seq<BgpRoute>>>,
    timestamps: Dict<Timestamp>)

  /** One iteration of `reload`'s loop over the cache directory. */
  function LoadHost(c: Cache, h: HostFile): (r: Cache)
    requires c.timestamps.Valid()
    ensures r.timestamps.Valid()
  {
    match h.routes
    case None => c
    case Some(routes) =>
      var c1 := c.(bgpByHost := c.bgpByHost[h.name := routes], index := c.index[h.name := IndexOf(routes)]);
      match h.collectedAt
      case None => c1
      case Some(t) => c1.(timestamps := c1.timestamps.Put(h.name, t))
  }

  /** `reload` over the directory entries in iteration order, starting from empty. */
  function Loaded(hosts: seq<HostFile>): (r: Cache)
    ensures r.timestamps.Valid()
  {
    if hosts == [] then Cache(map[], map[], Empty())
    else LoadHost(Loaded(hosts[..|hosts| - 1]), hosts[|hosts| - 1])
  }

  /** Every host's index is built from its own routes, and only loaded hosts carry stamps. */
  ghost predicate Consistent(c: Cache) {
    && (forall h :: h in c.index <==> h in c.bgpByHost)
    && (forall h :: h in c.index ==> c.index[h] == IndexOf(c.bgpByHost[h]))
    && (forall h :: h in c.timestamps.entries ==> h in c.bgpByHost)
  }

  /** Loading keeps the cache consistent. */
  lemma {:induction false} LoadedConsistent(hosts: seq<HostFile>)
    ensures Consistent(Loaded(hosts))
  {
    if hosts != [] {
      LoadedConsistent(hosts[..|hosts| - 1]);
    }
  }

  /** `hosts[i]` is the last readable file named `name`. */
  ghost predicate LastReadable(hosts: seq<HostFile>, name: string, i: int) {
    && 0 <= i < |hosts| && hosts[i].name == name && hosts[i].routes.Some?
    && (forall j :: i < j < |hosts| && hosts[j].name == name ==> hosts[j].routes.None?)
  }

  /** The routes `reload` caches per host: each readable file replaces its host's routes. */
  function HostRoutes(hosts: seq<HostFile>): (r: map<string, seq<BgpRoute>>)
    ensures forall h :: h in r ==> exists i :: 0 <= i < |hosts| && hosts[i].name == h && hosts[i].routes == Some(r[h])
  {
    if hosts == [] then map[]
    else
      var last := hosts[|hosts| - 1];
      match last.routes
      case None => HostRoutes(hosts[..|hosts| - 1])
      case Some(routes) => HostRoutes(hosts[..|hosts| - 1])[last.name := routes]
  }

  /** The cached routes of `reload` are those of `HostRoutes`. */
  lemma {:induction false} LoadedHostRoutes(hosts: seq<HostFile>)
    ensures Loaded(hosts).bgpByHost == HostRoutes(hosts)
  {
    if hosts != [] {
      LoadedHostRoutes(hosts[..|hosts| - 1]);
    }
  }

  /** The per-host routes are set by the readable files, the last one of a host winning. */
  lemma HostRoutesLast(hosts: seq<HostFile>, name: string)
    ensures name in HostRoutes(hosts) <==> exists i :: 0 <= i < |hosts| && hosts[i].name == name && hosts[i].routes.Some?
    ensures forall i :: LastReadable(hosts, name, i) ==> HostRoutes(hosts)[name] == hosts[i].routes.value
  {
    HostRoutesHas(hosts, name);
    forall i | LastReadable(hosts, name, i) ensures HostRoutes(hosts)[name] == hosts[i].routes.value {
      HostRoutesValue(hosts, name, i);
    }
  }

  /** A host has routes exactly when one of its files is readable. */
  lemma {:induction false} HostRoutesHas(hosts: seq<HostFile>, name: string)
    ensures name in HostRoutes(hosts) <==> exists i :: 0 <= i < |hosts| && hosts[i].name == name && hosts[i].routes.Some?
  {
    if hosts != [] {
      var init := hosts[..|hosts| - 1];
      HostRoutesHas(init, name);
      assert forall i :: 0 <= i < |init| ==> init[i] == hosts[i];
    }
  }

  /** A host's routes are those of its last readable file. */
  lemma {:induction false} HostRoutesValue(hosts: seq<HostFile>, name: string, i: nat)
    requires LastReadable(hosts, name, i)
    ensures name in HostRoutes(hosts) && HostRoutes(hosts)[name] == hosts[i].routes.value
  {
    var init, last := hosts[..|hosts| - 1], hosts[|hosts| - 1];
    if i < |init| {
      assert LastReadable(init, name, i) by {
        forall j | i < j < |init| && init[j].name == name ensures init[j].routes.None? {
          assert init[j] == hosts[j];
        }
      }
      HostRoutesValue(init, name, i);
      assert !(last.name == name && last.routes.Some?);
    }
  }

  /**
   * A host's cached routes are those of the last readable file with its name, and a host
   * with no readable file has none.
   */
  lemma LoadedRoutes(hosts: seq<HostFile>, name: string)
    ensures name in Loaded(hosts).bgpByHost <==> exists i :: 0 <= i < |hosts| && hosts[i].name == name && hosts[i].routes.Some?
    ensures forall i :: LastReadable(hosts, name, i) ==> Loaded(hosts).bgpByHost[name] == hosts[i].routes.value
  {
    LoadedHostRoutes(hosts);
    HostRoutesLast(hosts, name);
  }

  /** The loop of `lookup_routes` collecting the buckets of every key covering `target`. */
  method MatchingRoutes(idx: Dict<seq<BgpRoute>>, target: Network) returns (matches: seq<BgpRoute>)
    requires idx.Valid() && target.Valid()
    ensures matches == Matches(idx, target, |idx.keys|)
  {
    matches := [];
    for i := 0 to |idx.keys|
      invariant matches == Matches(idx, target, i)
    {
      var key := idx.keys[i];
      var rp := ParseNetwork(key);
      MatchesNext(idx, target, i);
      if rp.Some? && (SubnetOf(target, rp.value) || target == rp.value) {
        matches := matches + idx.entries[key];
      }
    }
  }

  /** One more key adds its routes when it covers the target. */
  lemma MatchesNext(idx: Dict<seq<BgpRoute>>, target: Network, i: nat)
    requires idx.Valid() && target.Valid() && i < |idx.keys|
    ensures Covers(target, idx.keys[i]) ==> Matches(idx, target, i + 1) == Matches(idx, target, i) + idx.entries[idx.keys[i]]
    ensures !Covers(target, idx.keys[i]) ==> Matches(idx, target, i + 1) == Matches(idx, target, i)
  {
    assert Matches(idx, target, i) + [] == Matches(idx, target, i);
  }

  /** The cache loader: per-host routes, per-host prefix indexes and collection times. */
  class CollectedDataLoader {
    var bgpByHost: map<string, seq<BgpRoute>>
    var index: map<string, Dict<seq<BgpRoute>>>
    var timestamps: Dict<Timestamp>

    function Snapshot(): Cache
      reads this
    {
      Cache(bgpByHost, index, timestamps)
    }

    ghost predicate Valid()
      reads this
    {
      timestamps.Valid() && Consistent(Snapshot())
    }

    /** `CollectedDataLoader(base_dir)`: loads the directory's entries at once. */
    constructor (hosts: seq<HostFile>)
      ensures Valid() && Snapshot() == Loaded(hosts)
    {
      bgpByHost := map[];
      index := map[];
      timestamps := Empty();
      new;
      Reload(hosts);
    }

    /** `reload`: clears the three dictionaries and loads every readable host file. */
    method Reload(hosts: seq<HostFile>)
      modifies this
      ensures Valid() && Snapshot() == Loaded(hosts)
    {
      bgpByHost := map[];
      index := map[];
      timestamps := Empty();
      for i := 0 to |hosts|
        invariant Snapshot() == Loaded(hosts[..i])
      {
        assert hosts[..i + 1][..i] == hosts[..i];
        var h := hosts[i];
        if h.routes.Some? {
          var routes := h.routes.value;
          bgpByHost := bgpByHost[h.name := routes];
          var idx := BuildIndex(routes);
          index := index[h.name := idx];
          if h.collectedAt.Some? {
            timestamps := timestamps.Put(h.name, h.collectedAt.value);
          }
        }
      }
      assert hosts[..|hosts|] == hosts;
      LoadedConsistent(hosts);
    }

    /** `stale_warnings` at time `now` (microseconds since the epoch, UTC). */
    method StaleWarnings(now: int) returns (r: Result<seq<string>>)
      requires timestamps.Valid()
      ensures r == Stale(timestamps.keys, timestamps.entries, now)
    {
      var hosts := timestamps.keys;
      assert forall i :: 0 <= i < |hosts| ==> hosts[i] in timestamps.entries;
      var warnings := [];
      for i := 0 to |hosts|
        invariant Stale(hosts[..i], timestamps.entries, now) == Ok(warnings)
      {
        StaleNext(hosts, timestamps.entries, now, i, warnings);
        var host := hosts[i];
        var t := timestamps.entries[host];
        if !t.aware {
          StaleErrPersists(hosts, timestamps.entries, now, i + 1);
          return Err(NaiveError);
        }
        if now - t.micros > HourMicros {
          warnings := warnings + [StaleMessage(host, t)];
        }
      }
      assert hosts[..|hosts|] == hosts;
      r := Ok(warnings);
    }

    /** `lookup_routes(hostname, prefix)`. */
    method LookupRoutes(hostname: string, prefix: string) returns (r: seq<RouteEntry>)
      requires Valid()
      ensures hostname in index ==> r == Lookup(index[hostname], prefix)
      ensures hostname !in index ==> r == []
    {
      var hostIdx := if hostname in index then index[hostname] else Empty();
      if prefix in hostIdx.entries {
        return Map(hostIdx.entries[prefix], ToRouteEntry);
      }
      var target := ParseNetwork(prefix);
      if target.None? {
        return [];
      }
      var matches := MatchingRoutes(hostIdx, target.value);
      var sorted := SortByKey(matches, LongestFirst());
      r := Map(sorted, ToRouteEntry);
    }
  }
}
