/**
 * The topology engine (backend/graph_engine.py): routers, domain boundaries and the directed
 * graph built from router interfaces, with the inventory queries, next-hop resolution,
 * boundary lookup and the edge list exported for drawing.
 *
 * The networkx `DiGraph` is modelled by its observable structure: the nodes in insertion
 * order, and for each node its successors, in insertion order, with the edge attributes.
 */
module GraphEngine {
  import opened Wrappers
  import opened Text
  import opened Seqs
  import opened OrderedMap

  // ----- Records (backend/models.py) -----

  /** DeviceRole, the 7 tiers plus route reflectors and P routers. */
  datatype DeviceRole = Dcce | Dcpe | Spe | T2Firewall | Agg | T1Firewall | Ipe | Rr | PRouter

  datatype RrTier = CoreTier | AggTier | InetTier

  datatype VrfType = ParentVrf | ChildVrf | CscVrf | GlobalVrf

  datatype Vrf = Vrf(name: string, vrfType: VrfType, parentVrf: Option<string>)

  datatype Interface = Interface(
    name: string,
    ip: Option<string>,
    description: Option<string>,
    speed: Option<string>,
    neighbor: Option<string>,
    vrf: Option<string>)

  datatype Router = Router(
    hostname: string,
    mgmtIp: string,
    role: DeviceRole,
    domain: string,
    site: Option<string>,
    tier: Option<int>,
    rrTier: Option<RrTier>,
    vrfs: seq<Vrf>,
    interfaces: Option<seq<Interface>>)

  /** A firewall between two routing domains. */
  datatype DomainBoundary = DomainBoundary(
    firewall: string,
    upstreamDomain: string,
    downstreamDomain: string,
    tier: Option<string>)

  // ----- The directed graph -----

  /** The attributes `build_graph` stores on an edge. */
  datatype EdgeData = EdgeData(iface: string, speed: string, description: string, vrf: Option<string>)

  datatype Graph = Graph(nodes: seq<string>, succ: map<string, Dict<EdgeData>>) {
    /** Distinct nodes, one successor dictionary per node, and edges only between nodes. */
    ghost predicate Valid() {
      && Distinct(nodes)
      && (forall u :: u in succ <==> u in nodes)
      && (forall u :: u in succ ==> succ[u].Valid())
      && (forall u, v :: u in succ && v in succ[u].entries ==> v in succ)
    }

    predicate HasEdge(u: string, v: string) {
      u in succ && v in succ[u].entries
    }
  }

  /** `nx.DiGraph()`. */
  function EmptyGraph(): (g: Graph)
    ensures g.Valid() && g.nodes == []
  {
    Graph([], map[])
  }

  /** `g.add_node(n)`: a new node goes last; an existing one stays where it is. */
  function AddNode(g: Graph, n: string): (r: Graph)
    requires g.Valid()
    ensures r.Valid()
    ensures r.nodes == if n in g.succ then g.nodes else g.nodes + [n]
    ensures forall x :: x in r.succ <==> x in g.succ || x == n
    ensures forall u :: u in g.succ ==> r.succ[u] == g.succ[u]
  {
    if n in g.succ then g
    else Graph(g.nodes + [n], g.succ[n := Empty()])
  }

  /** Replacing a node's successor dictionary by one naming only nodes keeps the graph valid. */
  lemma SetSuccValid(g: Graph, u: string, d: Dict<EdgeData>)
    requires g.Valid() && u in g.succ && d.Valid()
    requires forall y :: y in d.entries ==> y in g.succ
    ensures Graph(g.nodes, g.succ[u := d]).Valid()
  {
    var r := Graph(g.nodes, g.succ[u := d]);
    forall x, y | x in r.succ && y in r.succ[x].entries ensures y in r.succ {
      if x != u {
        assert r.succ[x] == g.succ[x];
      }
    }
  }

  /**
   * `g.add_edge(u, v, **data)`: adds missing endpoints as nodes, then sets the edge's
   * attributes (a new successor goes last).
   */
  function AddEdge(g: Graph, u: string, v: string, d: EdgeData): (r: Graph)
    requires g.Valid()
    ensures r.Valid()
    ensures forall x :: x in r.succ <==> x in g.succ || x == u || x == v
    ensures forall x :: x in g.succ && x != u ==> r.succ[x] == g.succ[x]
    ensures v !in g.succ && v != u ==> r.succ[v] == Empty()
    ensures r.succ[u] == (if u in g.succ then g.succ[u] else Empty()).Put(v, d)
    ensures u in g.succ && v in g.succ ==> r.nodes == g.nodes
  {
    var g1 := AddNode(g, u);
    var g2 := AddNode(g1, v);
    var out := g2.succ[u].Put(v, d);
    SetSuccValid(g2, u, out);
    Graph(g2.nodes, g2.succ[u := out])
  }

  /** Adding an edge adds exactly that edge. */
  lemma AddEdgeEdges(g: Graph, u: string, v: string, d: EdgeData, x: string, y: string)
    requires g.Valid()
    ensures AddEdge(g, u, v, d).HasEdge(x, y) <==> g.HasEdge(x, y) || (x == u && y == v)
  {
    var r := AddEdge(g, u, v, d);
    if x == u {
      var before := if u in g.succ then g.succ[u] else Empty();
      assert r.succ[u].entries == before.entries[v := d];
      assert r.HasEdge(x, y) <==> y == v || y in before.entries;
    } else if x in g.succ {
      assert r.succ[x] == g.succ[x];
      assert r.HasEdge(x, y) <==> g.HasEdge(x, y);
    } else if x == v {
      assert r.succ[v] == Empty();
      assert !r.HasEdge(x, y) && !g.HasEdge(x, y);
    } else {
      assert x !in r.succ;
    }
  }

  // ----- build_graph -----

  /** A router's interfaces; `None` is walked like an empty list. */
  function IfacesOf(r: Router): seq<Interface> {
    r.interfaces.GetOr([])
  }

  /** `iface.neighbor and iface.neighbor in self.routers`. */
  predicate Linked(i: Interface, routers: Dict<Router>) {
    i.neighbor.Some? && i.neighbor.value != "" && i.neighbor.value in routers.entries
  }

  /** The attributes of the edge an interface adds; missing speed and description become "". */
  function EdgeDataOf(i: Interface): EdgeData {
    EdgeData(i.name, i.speed.GetOr(""), i.description.GetOr(""), i.vrf)
  }

  /** Some interface of router `u` names router `v` as its neighbour. */
  ghost predicate LinksTo(routers: Dict<Router>, u: string, v: string) {
    u in routers.entries && NamesNeighbour(IfacesOf(routers.entries[u]), routers, v)
  }

  /** The first loop of `build_graph`: one node per router, in dictionary order. */
  function WithNodes(g: Graph, hosts: seq<string>): (r: Graph)
    requires g.Valid()
    ensures r.Valid()
    ensures forall x :: x in r.succ <==> x in g.succ || x in hosts
    ensures forall x, y :: r.HasEdge(x, y) <==> g.HasEdge(x, y)
  {
    if hosts == [] then g else AddNode(WithNodes(g, hosts[..|hosts| - 1]), hosts[|hosts| - 1])
  }

  /** Adding one more host that is not yet a node appends it to the nodes. */
  lemma WithNodesLast(g: Graph, hosts: seq<string>)
    requires g.Valid() && hosts != []
    requires hosts[|hosts| - 1] !in g.succ && hosts[|hosts| - 1] !in hosts[..|hosts| - 1]
    ensures WithNodes(g, hosts).nodes == WithNodes(g, hosts[..|hosts| - 1]).nodes + [hosts[|hosts| - 1]]
  {
    var w := WithNodes(g, hosts[..|hosts| - 1]);
    assert hosts[|hosts| - 1] !in w.succ;
  }

  /** Into a graph without them, distinct hosts are added as nodes after the existing ones, in order. */
  lemma {:induction false} WithNodesOrder(g: Graph, hosts: seq<string>)
    requires g.Valid() && Distinct(hosts)
    requires forall h :: h in hosts ==> h !in g.succ
    ensures WithNodes(g, hosts).nodes == g.nodes + hosts
  {
    if hosts != [] {
      var init := hosts[..|hosts| - 1];
      var last := hosts[|hosts| - 1];
      DistinctInit(hosts);
      calc {
        WithNodes(g, hosts).nodes;
        { WithNodesLast(g, hosts); }
        WithNodes(g, init).nodes + [last];
        { WithNodesOrder(g, init); }
        (g.nodes + init) + [last];
        g.nodes + (init + [last]);
        { assert hosts == init + [last]; }
        g.nodes + hosts;
      }
    }
  }

  /** The inner loop of `build_graph` over router `h`'s interfaces. */
  function AddLinks(g: Graph, routers: Dict<Router>, h: string, ifaces: seq<Interface>): (r: Graph)
    requires g.Valid()
    ensures r.Valid()
  {
    if ifaces == [] then g
    else
      var g1 := AddLinks(g, routers, h, ifaces[..|ifaces| - 1]);
      var i := ifaces[|ifaces| - 1];
      if Linked(i, routers) then AddEdge(g1, h, i.neighbor.value, EdgeDataOf(i)) else g1
  }

  /** The second loop of `build_graph` over the first `n` routers. */
  function AddAllLinks(g: Graph, routers: Dict<Router>, n: nat): (r: Graph)
    requires g.Valid() && routers.Valid() && n <= |routers.keys|
    ensures r.Valid()
  {
    if n == 0 then g
    else
      var h := routers.keys[n - 1];
      AddLinks(AddAllLinks(g, routers, n - 1), routers, h, IfacesOf(routers.entries[h]))
  }

  /** `build_graph` applied to graph `g`. */
  function Built(g: Graph, routers: Dict<Router>): (r: Graph)
    requires g.Valid() && routers.Valid()
    ensures r.Valid()
  {
    AddAllLinks(WithNodes(g, routers.keys), routers, |routers.keys|)
  }

  /** Some interface in `ifaces` names the known router `y` as its neighbour. */
  ghost predicate NamesNeighbour(ifaces: seq<Interface>, routers: Dict<Router>, y: string) {
    exists j :: 0 <= j < |ifaces| && Linked(ifaces[j], routers) && ifaces[j].neighbor.value == y
  }

  lemma NamesNeighbourSnoc(ifaces: seq<Interface>, routers: Dict<Router>, y: string)
    requires ifaces != []
    ensures NamesNeighbour(ifaces, routers, y) <==>
      NamesNeighbour(ifaces[..|ifaces| - 1], routers, y)
      || (Linked(ifaces[|ifaces| - 1], routers) && ifaces[|ifaces| - 1].neighbor.value == y)
  {
    var init := ifaces[..|ifaces| - 1];
    if NamesNeighbour(ifaces, routers, y) {
      var j :| 0 <= j < |ifaces| && Linked(ifaces[j], routers) && ifaces[j].neighbor.value == y;
      if j < |init| {
        assert init[j] == ifaces[j];
      }
    }
    if NamesNeighbour(init, routers, y) {
      var j :| 0 <= j < |init| && Linked(init[j], routers) && init[j].neighbor.value == y;
      assert init[j] == ifaces[j];
    }
  }

  /** The interface loop adds an edge from `h` to each linked neighbour, and nothing else. */
  lemma {:induction false} AddLinksEdges(g: Graph, routers: Dict<Router>, h: string, ifaces: seq<Interface>, x: string, y: string)
    requires g.Valid()
    ensures AddLinks(g, routers, h, ifaces).HasEdge(x, y) <==>
      g.HasEdge(x, y) || (x == h && NamesNeighbour(ifaces, routers, y))
  {
    if ifaces != [] {
      var init, i := ifaces[..|ifaces| - 1], ifaces[|ifaces| - 1];
      NamesNeighbourSnoc(ifaces, routers, y);
      AddLinksEdges(g, routers, h, init, x, y);
      var g1 := AddLinks(g, routers, h, init);
      if Linked(i, routers) {
        AddEdgeEdges(g1, h, i.neighbor.value, EdgeDataOf(i), x, y);
      }
    }
  }

  /** When every router is already a node, the interface loop adds no node. */
  lemma {:induction false} AddLinksNodes(g: Graph, routers: Dict<Router>, h: string, ifaces: seq<Interface>)
    requires g.Valid() && h in g.succ && forall k :: k in routers.entries ==> k in g.succ
    ensures AddLinks(g, routers, h, ifaces).nodes == g.nodes
    ensures forall x :: x in AddLinks(g, routers, h, ifaces).succ <==> x in g.succ
  {
    if ifaces != [] {
      AddLinksNodes(g, routers, h, ifaces[..|ifaces| - 1]);
    }
  }

  /** The router loop adds, for each router visited, its links, and nothing else. */
  lemma {:induction false} AddAllLinksEdges(g: Graph, routers: Dict<Router>, n: nat, x: string, y: string)
    requires g.Valid() && routers.Valid() && n <= |routers.keys|
    ensures AddAllLinks(g, routers, n).HasEdge(x, y) <==> g.HasEdge(x, y) || (x in routers.keys[..n] && LinksTo(routers, x, y))
  {
    if n > 0 {
      var h := routers.keys[n - 1];
      assert routers.keys[..n] == routers.keys[..n - 1] + [h];
      AddAllLinksEdges(g, routers, n - 1, x, y);
      AddLinksEdges(AddAllLinks(g, routers, n - 1), routers, h, IfacesOf(routers.entries[h]), x, y);
    }
  }

  /** When every router is already a node, the router loop adds no node. */
  lemma {:induction false} AddAllLinksNodes(g: Graph, routers: Dict<Router>, n: nat)
    requires g.Valid() && routers.Valid() && n <= |routers.keys|
    requires forall k :: k in routers.entries ==> k in g.succ
    ensures AddAllLinks(g, routers, n).nodes == g.nodes
    ensures forall x :: x in AddAllLinks(g, routers, n).succ <==> x in g.succ
  {
    if n > 0 {
      AddAllLinksNodes(g, routers, n - 1);
      var h := routers.keys[n - 1];
      AddLinksNodes(AddAllLinks(g, routers, n - 1), routers, h, IfacesOf(routers.entries[h]));
    }
  }

  /**
   * Built from scratch, the graph has one node per router, in dictionary order, and an edge
   * from `u` to `v` exactly when an interface of router `u` names the known router `v`.
   */
  lemma BuiltGraph(routers: Dict<Router>, u: string, v: string)
    requires routers.Valid()
    ensures Built(EmptyGraph(), routers).nodes == routers.keys
    ensures Built(EmptyGraph(), routers).HasEdge(u, v) <==> LinksTo(routers, u, v)
  {
    BuiltNodes(routers);
    BuiltEdges(routers, u, v);
  }

  /** Built from scratch, the graph has one node per router, in dictionary order. */
  lemma BuiltNodes(routers: Dict<Router>)
    requires routers.Valid()
    ensures Built(EmptyGraph(), routers).nodes == routers.keys
  {
    var g := WithNodes(EmptyGraph(), routers.keys);
    RouterNodes(routers);
    AddAllLinksNodes(g, routers, |routers.keys|);
  }

  /** Built from scratch, the graph has an edge exactly where a router's interface names another. */
  lemma BuiltEdges(routers: Dict<Router>, u: string, v: string)
    requires routers.Valid()
    ensures Built(EmptyGraph(), routers).HasEdge(u, v) <==> LinksTo(routers, u, v)
  {
    var g := WithNodes(EmptyGraph(), routers.keys);
    var n := |routers.keys|;
    assert !g.HasEdge(u, v) by {
      assert !EmptyGraph().HasEdge(u, v);
    }
    assert routers.keys[..n] == routers.keys;
    AddAllLinksEdges(g, routers, n, u, v);
  }

  /** The first loop of `build_graph` makes one node per router, in dictionary order. */
  lemma RouterNodes(routers: Dict<Router>)
    requires routers.Valid()
    ensures WithNodes(EmptyGraph(), routers.keys).nodes == routers.keys
    ensures forall k :: k in routers.entries ==> k in WithNodes(EmptyGraph(), routers.keys).succ
  {
    WithNodesOrder(EmptyGraph(), routers.keys);
    assert EmptyGraph().nodes + routers.keys == routers.keys;
  }

  // ----- Inventory queries -----

  /** `get_routers_by_role`: the routers with that role, in dictionary order. */
  function RoutersByRole(routers: Dict<Router>, role: DeviceRole): (rs: seq<Router>)
    requires routers.Valid()
    ensures forall r :: r in rs <==> r in routers.Values() && r.role == role
  {
    Filter(routers.Values(), (r: Router) => r.role == role)
  }

  /** `get_routers_by_tier`. */
  function RoutersByTier(routers: Dict<Router>, tier: int): (rs: seq<Router>)
    requires routers.Valid()
    ensures forall r :: r in rs <==> r in routers.Values() && r.tier == Some(tier)
  {
    Filter(routers.Values(), (r: Router) => r.tier == Some(tier))
  }

  /** `get_routers_by_site`. */
  function RoutersBySite(routers: Dict<Router>, site: string): (rs: seq<Router>)
    requires routers.Valid()
    ensures forall r :: r in rs <==> r in routers.Values() && r.site == Some(site)
  {
    Filter(routers.Values(), (r: Router) => r.site == Some(site))
  }

  /** `get_routers_in_domain`. */
  function RoutersInDomain(routers: Dict<Router>, domain: string): (rs: seq<Router>)
    requires routers.Valid()
    ensures forall r :: r in rs <==> r in routers.Values() && r.domain == domain
  {
    Filter(routers.Values(), (r: Router) => r.domain == domain)
  }

  /** `get_rr_by_tier`: route reflectors of that reflector tier. */
  function RrByTier(routers: Dict<Router>, rrTier: RrTier): (rs: seq<Router>)
    requires routers.Valid()
    ensures forall r :: r in rs <==> r in routers.Values() && r.role == Rr && r.rrTier == Some(rrTier)
  {
    Filter(routers.Values(), (r: Router) => r.role == Rr && r.rrTier == Some(rrTier))
  }

  /** Whether `r` has a VRF named `name`. */
  predicate HasVrf(r: Router, name: string) {
    exists j :: 0 <= j < |r.vrfs| && r.vrfs[j].name == name
  }

  /** `get_routers_with_vrf`. */
  function RoutersWithVrf(routers: Dict<Router>, name: string): (rs: seq<Router>)
    requires routers.Valid()
    ensures forall r :: r in rs <==> r in routers.Values() && HasVrf(r, name)
  {
    Filter(routers.Values(), (r: Router) => HasVrf(r, name))
  }

  /** A child VRF routed through parent VRF `parent`. */
  predicate IsChildOf(v: Vrf, parent: string) {
    v.vrfType == ChildVrf && v.parentVrf == Some(parent)
  }

  /** The pairs the inner loop of `get_child_vrfs` appends for router `r` over `vs`. */
  function ChildPairs(r: Router, vs: seq<Vrf>, parent: string): (ps: seq<(Router, Vrf)>)
    ensures |ps| <= |vs|
    ensures forall k :: 0 <= k < |ps| ==> ps[k].0 == r && IsChildOf(ps[k].1, parent)
  {
    if vs == [] then []
    else
      ChildPairs(r, vs[..|vs| - 1], parent)
      + (if IsChildOf(vs[|vs| - 1], parent) then [(r, vs[|vs| - 1])] else [])
  }

  /** `get_child_vrfs` over the routers `rs`. */
  function ChildVrfs(rs: seq<Router>, parent: string): (ps: seq<(Router, Vrf)>)
    ensures forall k :: 0 <= k < |ps| ==> ps[k].0 in rs && IsChildOf(ps[k].1, parent)
  {
    if rs == [] then []
    else ChildVrfs(rs[..|rs| - 1], parent) + ChildPairs(rs[|rs| - 1], rs[|rs| - 1].vrfs, parent)
  }

  lemma {:induction false} ChildPairsExactly(r: Router, vs: seq<Vrf>, parent: string, p: (Router, Vrf))
    ensures p in ChildPairs(r, vs, parent) <==> p.0 == r && p.1 in vs && IsChildOf(p.1, parent)
  {
    if vs != [] {
      var init, v := vs[..|vs| - 1], vs[|vs| - 1];
      assert vs == init + [v];
      ChildPairsExactly(r, init, parent, p);
    }
  }

  /**
   * `get_child_vrfs` returns exactly the (router, VRF) pairs whose VRF is a child of
   * `parent`.
   */
  lemma {:induction false} ChildVrfsExactly(rs: seq<Router>, parent: string, p: (Router, Vrf))
    ensures p in ChildVrfs(rs, parent) <==> p.0 in rs && p.1 in p.0.vrfs && IsChildOf(p.1, parent)
  {
    if rs != [] {
      var init, r := rs[..|rs| - 1], rs[|rs| - 1];
      assert rs == init + [r];
      ChildVrfsExactly(init, parent, p);
      ChildPairsExactly(r, r.vrfs, parent, p);
    }
  }

  // ----- Next-hop resolution -----

  /** `iface.ip and iface.ip.split("/")[0] == next_hop_ip`. */
  predicate IpMatches(i: Interface, nextHop: string) {
    i.ip.Some? && i.ip.value != "" && SplitOn(i.ip.value, '/')[0] == nextHop
  }

  /** Node `n` is a router with an interface whose address is `nextHop`. */
  predicate Answers(routers: Dict<Router>, n: string, nextHop: string) {
    n in routers.entries
    && exists j :: 0 <= j < |IfacesOf(routers.entries[n])| && IpMatches(IfacesOf(routers.entries[n])[j], nextHop)
  }

  /** The first position from `i` in `ns` of a node that answers for `nextHop`. */
  function FirstAnswering(ns: seq<string>, routers: Dict<Router>, nextHop: string, i: nat): (r: Option<nat>)
    requires i <= |ns|
    ensures r.Some? ==> i <= r.value < |ns| && Answers(routers, ns[r.value], nextHop)
    ensures r.Some? ==> forall k :: i <= k < r.value ==> !Answers(routers, ns[k], nextHop)
    ensures r.None? ==> forall k :: i <= k < |ns| ==> !Answers(routers, ns[k], nextHop)
    decreases |ns| - i
  {
    if i == |ns| then None
    else if Answers(routers, ns[i], nextHop) then Some(i)
    else FirstAnswering(ns, routers, nextHop, i + 1)
  }

  /**
   * `resolve_next_hop` from node `h`: the first successor, in insertion order, that answers
   * for `nextHop`; networkx raises when `h` is not a node.
   */
  function Resolve(g: Graph, routers: Dict<Router>, h: string, nextHop: string): (r: Result<Option<Router>>)
    requires g.Valid()
    ensures r.Ok? <==> h in g.succ
    ensures r.Ok? && r.value.Some? ==>
      exists n :: g.HasEdge(h, n) && n in routers.entries && routers.entries[n] == r.value.value && Answers(routers, n, nextHop)
    ensures r.Ok? && r.value.None? ==> forall n :: g.HasEdge(h, n) ==> !Answers(routers, n, nextHop)
    ensures h in g.succ ==>
      forall k :: 0 <= k < |g.succ[h].keys| && Answers(routers, g.succ[h].keys[k], nextHop)
        && (forall j :: 0 <= j < k ==> !Answers(routers, g.succ[h].keys[j], nextHop))
        ==> r == Ok(Some(routers.entries[g.succ[h].keys[k]]))
  {
    if h !in g.succ then Err("The node " + h + " is not in the digraph.")
    else
      var ns := g.succ[h].keys;
      match FirstAnswering(ns, routers, nextHop, 0)
      case Some(k) => Ok(Some(routers.entries[ns[k]]))
      case None => Ok(None)
  }

  // ----- Domain boundaries -----

  /** `b` separates domains `a` and `c`, in either orientation. */
  predicate Joins(b: DomainBoundary, a: string, c: string) {
    (b.upstreamDomain == a && b.downstreamDomain == c) || (b.upstreamDomain == c && b.downstreamDomain == a)
  }

  /** The first position from `i` of a boundary joining `a` and `c`. */
  function FirstJoining(bs: seq<DomainBoundary>, a: string, c: string, i: nat): (r: Option<nat>)
    requires i <= |bs|
    ensures r.Some? ==> i <= r.value < |bs| && Joins(bs[r.value], a, c)
    ensures r.Some? ==> forall k :: i <= k < r.value ==> !Joins(bs[k], a, c)
    ensures r.None? ==> forall k :: i <= k < |bs| ==> !Joins(bs[k], a, c)
    decreases |bs| - i
  {
    if i == |bs| then None
    else if Joins(bs[i], a, c) then Some(i)
    else FirstJoining(bs, a, c, i + 1)
  }

  /** `get_domain_boundary(a, c)`: the first boundary joining the two domains. */
  function BoundaryBetween(bs: seq<DomainBoundary>, a: string, c: string): (r: Option<DomainBoundary>)
    ensures r.Some? ==> r.value in bs && Joins(r.value, a, c)
    ensures r.None? ==> forall k :: 0 <= k < |bs| ==> !Joins(bs[k], a, c)
    ensures forall k ::
              0 <= k < |bs| && Joins(bs[k], a, c) && (forall j :: 0 <= j < k ==> !Joins(bs[j], a, c))
              ==> r == Some(bs[k])
  {
    match FirstJoining(bs, a, c, 0)
    case Some(k) => Some(bs[k])
    case None => None
  }

  /** The search does not depend on the order in which the two domains are given. */
  lemma {:induction false} FirstJoiningSymmetric(bs: seq<DomainBoundary>, a: string, c: string, i: nat)
    requires i <= |bs|
    ensures FirstJoining(bs, a, c, i) == FirstJoining(bs, c, a, i)
    decreases |bs| - i
  {
    if i < |bs| {
      FirstJoiningSymmetric(bs, a, c, i + 1);
    }
  }

  /** `get_domain_boundary(a, c) == get_domain_boundary(c, a)`. */
  lemma BoundarySymmetric(bs: seq<DomainBoundary>, a: string, c: string)
    ensures BoundaryBetween(bs, a, c) == BoundaryBetween(bs, c, a)
  {
    FirstJoiningSymmetric(bs, a, c, 0);
  }

  /** The first position from `i` of a boundary whose firewall is `host`. */
  function FirstFirewall(bs: seq<DomainBoundary>, host: string, i: nat): (r: Option<nat>)
    requires i <= |bs|
    ensures r.Some? ==> i <= r.value < |bs| && bs[r.value].firewall == host
    ensures r.Some? ==> forall k :: i <= k < r.value ==> bs[k].firewall != host
    ensures r.None? ==> forall k :: i <= k < |bs| ==> bs[k].firewall != host
    decreases |bs| - i
  {
    if i == |bs| then None
    else if bs[i].firewall == host then Some(i)
    else FirstFirewall(bs, host, i + 1)
  }

  /**
   * `get_firewall_tier`: the tier of the first boundary naming the firewall, which may itself
   * be absent; absent when no boundary names it.
   */
  function FirewallTier(bs: seq<DomainBoundary>, host: string): (r: Option<string>)
    ensures r.Some? ==> exists k :: 0 <= k < |bs| && bs[k].firewall == host && bs[k].tier == r
    ensures (forall k :: 0 <= k < |bs| ==> bs[k].firewall != host) ==> r.None?
    ensures forall k ::
              0 <= k < |bs| && bs[k].firewall == host && (forall j :: 0 <= j < k ==> bs[j].firewall != host)
              ==> r == bs[k].tier
  {
    match FirstFirewall(bs, host, 0)
    case Some(k) => bs[k].tier
    case None => None
  }

  // ----- to_vis_json edges -----

  /** One edge of `graph.edges(data=True)`. */
  datatype Arc = Arc(from: string, to: string, data: EdgeData)

  /** The first `n` out-edges of `u`, in successor order. */
  function OutArcs(u: string, d: Dict<EdgeData>, n: nat): (r: seq<Arc>)
    requires d.Valid() && n <= |d.keys|
    ensures |r| == n
    ensures forall k :: 0 <= k < n ==> r[k] == Arc(u, d.keys[k], d.entries[d.keys[k]])
  {
    if n == 0 then [] else OutArcs(u, d, n - 1) + [Arc(u, d.keys[n - 1], d.entries[d.keys[n - 1]])]
  }

  /** The edges of the first `n` nodes: networkx lists them node by node. */
  function ArcsUpTo(g: Graph, n: nat): seq<Arc>
    requires g.Valid() && n <= |g.nodes|
  {
    if n == 0 then []
    else
      var u := g.nodes[n - 1];
      ArcsUpTo(g, n - 1) + OutArcs(u, g.succ[u], |g.succ[u].keys|)
  }

  /** `graph.edges(data=True)`. */
  function Arcs(g: Graph): seq<Arc>
    requires g.Valid()
  {
    ArcsUpTo(g, |g.nodes|)
  }

  /** Every listed edge is an edge of the graph with its attributes. */
  lemma {:induction false} ArcsAreEdges(g: Graph, n: nat)
    requires g.Valid() && n <= |g.nodes|
    ensures forall k :: 0 <= k < |ArcsUpTo(g, n)| ==>
      g.HasEdge(ArcsUpTo(g, n)[k].from, ArcsUpTo(g, n)[k].to)
      && ArcsUpTo(g, n)[k].data == g.succ[ArcsUpTo(g, n)[k].from].entries[ArcsUpTo(g, n)[k].to]
  {
    if n > 0 {
      ArcsAreEdges(g, n - 1);
      var u := g.nodes[n - 1];
      var prev, out := ArcsUpTo(g, n - 1), OutArcs(u, g.succ[u], |g.succ[u].keys|);
      var all: seq<Arc> := prev + out;
      forall k | |prev| <= k < |all|
        ensures g.HasEdge(all[k].from, all[k].to) && all[k].data == g.succ[all[k].from].entries[all[k].to]
      {
        assert all[k] == out[k - |prev|];
      }
    }
  }

  /** Every edge of the graph is listed, at position `k`. */
  lemma {:induction false} EdgesAreArcs(g: Graph, n: nat, u: string, v: string) returns (k: nat)
    requires g.Valid() && n <= |g.nodes| && g.HasEdge(u, v) && u in g.nodes[..n]
    ensures k < |ArcsUpTo(g, n)| && ArcsUpTo(g, n)[k].from == u && ArcsUpTo(g, n)[k].to == v
  {
    var w := g.nodes[n - 1];
    assert g.nodes[..n] == g.nodes[..n - 1] + [w];
    var prev, out := ArcsUpTo(g, n - 1), OutArcs(w, g.succ[w], |g.succ[w].keys|);
    var all: seq<Arc> := prev + out;
    assert ArcsUpTo(g, n) == all;
    if u == w {
      var j :| 0 <= j < |g.succ[u].keys| && g.succ[u].keys[j] == v;
      k := |prev| + j;
      assert all[k] == out[j];
    } else {
      k := EdgesAreArcs(g, n - 1, u, v);
      assert all[k] == prev[k];
    }
  }

  /** The drawing width of an edge by its speed: the first of 100G, 40G and 10G it mentions. */
  function EdgeWidth(speed: string): (w: nat)
    ensures w == 4 <==> Contains(speed, "100G")
    ensures w == 3 <==> !Contains(speed, "100G") && Contains(speed, "40G")
    ensures w == 2 <==> !Contains(speed, "100G") && !Contains(speed, "40G") && Contains(speed, "10G")
    ensures w == 1 <==> !Contains(speed, "100G") && !Contains(speed, "40G") && !Contains(speed, "10G")
  {
    if Contains(speed, "100G") then 4
    else if Contains(speed, "40G") then 3
    else if Contains(speed, "10G") then 2
    else 1
  }

  /** The fields of a drawn edge that are not display constants. */
  datatype VisEdge = VisEdge(from: string, to: string, width: nat, title: string)

  function VisOf(a: Arc): VisEdge {
    VisEdge(a.from, a.to, EdgeWidth(a.data.speed), a.data.iface + " " + a.data.speed)
  }

  /** `tuple(sorted([u, v]))`: the unordered pair of an edge's endpoints. */
  function PairOf(u: string, v: string): set<string> {
    {u, v}
  }

  /** The drawn edges so far and the endpoint pairs already drawn. */
  datatype VisState = VisState(edges: seq<VisEdge>, seen: set<set<string>>)

  /** The edge loop of `to_vis_json` over `arcs`: an edge is drawn unless its pair was drawn. */
  function Dedup(arcs: seq<Arc>): (st: VisState)
    ensures |st.edges| == |st.seen| <= |arcs|
  {
    if arcs == [] then VisState([], {})
    else DrawStep(Dedup(arcs[..|arcs| - 1]), arcs[|arcs| - 1])
  }

  /** One iteration of the edge loop: draw arc `a` unless its pair was drawn. */
  function DrawStep(st: VisState, a: Arc): VisState {
    if PairOf(a.from, a.to) in st.seen then st
    else VisState(st.edges + [VisOf(a)], st.seen + {PairOf(a.from, a.to)})
  }

  lemma DedupSnoc(arcs: seq<Arc>, a: Arc)
    ensures Dedup(arcs + [a]) == DrawStep(Dedup(arcs), a)
  {
    assert (arcs + [a])[..|arcs|] == arcs;
  }

  /** Arc `k` is the first arc joining its two endpoints. */
  ghost predicate FirstOfPair(arcs: seq<Arc>, k: nat)
    requires k < |arcs|
  {
    forall j :: 0 <= j < k ==> PairOf(arcs[j].from, arcs[j].to) != PairOf(arcs[k].from, arcs[k].to)
  }

  /** The endpoint pairs of a list of arcs. */
  ghost function ArcPairs(arcs: seq<Arc>): set<set<string>> {
    set k | 0 <= k < |arcs| :: PairOf(arcs[k].from, arcs[k].to)
  }

  /** The endpoint pairs of a list of drawn edges. */
  ghost function EdgePairs(edges: seq<VisEdge>): set<set<string>> {
    set i | 0 <= i < |edges| :: PairOf(edges[i].from, edges[i].to)
  }

  /** The pairs remembered as drawn are exactly the pairs of the arcs walked. */
  lemma {:induction false} DedupSeen(arcs: seq<Arc>)
    ensures Dedup(arcs).seen == ArcPairs(arcs)
  {
    if arcs != [] {
      var init, a := arcs[..|arcs| - 1], arcs[|arcs| - 1];
      DedupSeen(init);
      assert forall k :: 0 <= k < |init| ==> init[k] == arcs[k];
      assert ArcPairs(arcs) == ArcPairs(init) + {PairOf(a.from, a.to)};
    }
  }

  /** The pairs remembered as drawn are exactly the pairs of the drawn edges. */
  lemma {:induction false} DedupSeenDrawn(arcs: seq<Arc>)
    ensures EdgePairs(Dedup(arcs).edges) == Dedup(arcs).seen
  {
    if arcs != [] {
      var init, a := arcs[..|arcs| - 1], arcs[|arcs| - 1];
      DedupSeenDrawn(init);
      var st := Dedup(init);
      if PairOf(a.from, a.to) !in st.seen {
        var edges := st.edges + [VisOf(a)];
        assert forall i :: 0 <= i < |st.edges| ==> edges[i] == st.edges[i];
        assert edges[|st.edges|].from == a.from && edges[|st.edges|].to == a.to;
        assert EdgePairs(edges) == EdgePairs(st.edges) + {PairOf(a.from, a.to)};
      }
    }
  }

  /** No two drawn edges join the same pair of devices. */
  lemma {:induction false} DedupDistinct(arcs: seq<Arc>)
    ensures forall i, j :: 0 <= i < j < |Dedup(arcs).edges| ==>
      PairOf(Dedup(arcs).edges[i].from, Dedup(arcs).edges[i].to) != PairOf(Dedup(arcs).edges[j].from, Dedup(arcs).edges[j].to)
  {
    if arcs != [] {
      var init, a := arcs[..|arcs| - 1], arcs[|arcs| - 1];
      DedupDistinct(init);
      DedupSeenDrawn(init);
      var st := Dedup(init);
      if PairOf(a.from, a.to) !in st.seen {
        var edges := st.edges + [VisOf(a)];
        assert forall i :: 0 <= i < |st.edges| ==> edges[i] == st.edges[i];
        assert forall i :: 0 <= i < |st.edges| ==> PairOf(st.edges[i].from, st.edges[i].to) in st.seen;
      }
    }
  }

  /** Being first of its pair depends only on the arcs before. */
  lemma FirstOfPairPrefix(arcs: seq<Arc>, n: nat, k: nat)
    requires k < n <= |arcs| && FirstOfPair(arcs[..n], k)
    ensures FirstOfPair(arcs, k)
  {
    assert forall j :: 0 <= j <= k ==> arcs[..n][j] == arcs[j];
  }

  /** An arc whose pair the earlier arcs did not mark as seen is the first of its pair. */
  lemma FirstOfPairLast(arcs: seq<Arc>)
    requires arcs != []
    requires PairOf(arcs[|arcs| - 1].from, arcs[|arcs| - 1].to) !in Dedup(arcs[..|arcs| - 1]).seen
    ensures FirstOfPair(arcs, |arcs| - 1)
  {
    var n := |arcs| - 1;
    var init := arcs[..n];
    DedupSeen(init);
    forall j | 0 <= j < n
      ensures PairOf(arcs[j].from, arcs[j].to) != PairOf(arcs[n].from, arcs[n].to)
    {
      assert arcs[j] == init[j];
    }
  }

  /** `e` is the drawing of an arc that is the first of its pair in `arcs`. */
  ghost predicate DrawsFirstArc(arcs: seq<Arc>, e: VisEdge) {
    exists k :: 0 <= k < |arcs| && FirstOfPair(arcs, k) && e == VisOf(arcs[k])
  }

  /** Every drawn edge is the first arc of its pair, drawn with its speed's width and title. */
  lemma {:induction false} DedupFirst(arcs: seq<Arc>)
    ensures forall i :: 0 <= i < |Dedup(arcs).edges| ==> DrawsFirstArc(arcs, Dedup(arcs).edges[i])
  {
    if arcs != [] {
      var n := |arcs| - 1;
      var init, a := arcs[..n], arcs[n];
      DedupFirst(init);
      var st := Dedup(init);
      var r := Dedup(arcs);
      assert r == DrawStep(st, a);
      forall i | 0 <= i < |r.edges|
        ensures DrawsFirstArc(arcs, r.edges[i])
      {
        if i < |st.edges| {
          assert r.edges[i] == st.edges[i] by {
            if PairOf(a.from, a.to) !in st.seen {
              assert r.edges == st.edges + [VisOf(a)];
            }
          }
          assert DrawsFirstArc(init, st.edges[i]);
          var k :| 0 <= k < |init| && FirstOfPair(init, k) && st.edges[i] == VisOf(init[k]);
          FirstOfPairPrefix(arcs, n, k);
          assert r.edges[i] == VisOf(arcs[k]);
        } else {
          assert PairOf(a.from, a.to) !in st.seen;
          assert r.edges == st.edges + [VisOf(a)];
          FirstOfPairLast(arcs);
          assert FirstOfPair(arcs, n) && r.edges[i] == VisOf(arcs[n]);
        }
      }
    } else {
      assert Dedup(arcs).edges == [];
    }
  }

  /** Every arc's pair of devices is joined by exactly one drawn edge. */
  lemma DedupCovers(arcs: seq<Arc>)
    ensures EdgePairs(Dedup(arcs).edges) == ArcPairs(arcs)
  {
    DedupSeen(arcs);
    DedupSeenDrawn(arcs);
  }

  // ----- The engine -----

  /** Router records keyed by hostname, a later record replacing an earlier one. */
  function WithRouters(d: Dict<Router>, rs: seq<Router>): (r: Dict<Router>)
    requires d.Valid()
    ensures r.Valid()
    ensures forall h :: h in r.entries <==> h in d.entries || exists k :: 0 <= k < |rs| && rs[k].hostname == h
  {
    if rs == [] then d
    else
      var init := WithRouters(d, rs[..|rs| - 1]);
      assert forall k :: 0 <= k < |rs| - 1 ==> rs[..|rs| - 1][k] == rs[k];
      init.Put(rs[|rs| - 1].hostname, rs[|rs| - 1])
  }

  /** The first loop of `build_graph`: adds the hosts as nodes, in order. */
  method AddRouterNodes(g: Graph, hosts: seq<string>) returns (r: Graph)
    requires g.Valid()
    ensures r == WithNodes(g, hosts)
  {
    r := g;
    for i := 0 to |hosts|
      invariant r.Valid() && r == WithNodes(g, hosts[..i])
    {
      WithNodesPrefix(g, hosts, i);
      r := AddNode(r, hosts[i]);
    }
    assert hosts[..|hosts|] == hosts;
  }

  /** Adding the hosts one prefix longer adds the next host. */
  lemma WithNodesPrefix(g: Graph, hosts: seq<string>, i: nat)
    requires g.Valid() && i < |hosts|
    ensures WithNodes(g, hosts[..i + 1]) == AddNode(WithNodes(g, hosts[..i]), hosts[i])
  {
    assert hosts[..i + 1][..i] == hosts[..i];
  }

  /** The inner loop of `build_graph`: an edge from `h` per interface naming a known router. */
  method AddRouterLinks(g: Graph, routers: Dict<Router>, h: string, ifaces: seq<Interface>) returns (r: Graph)
    requires g.Valid()
    ensures r == AddLinks(g, routers, h, ifaces)
  {
    r := g;
    for j := 0 to |ifaces|
      invariant r.Valid() && r == AddLinks(g, routers, h, ifaces[..j])
    {
      assert ifaces[..j + 1][..j] == ifaces[..j];
      var iface := ifaces[j];
      if iface.neighbor.Some? && iface.neighbor.value != "" && iface.neighbor.value in routers.entries {
        r := AddEdge(r, h, iface.neighbor.value, EdgeDataOf(iface));
      }
    }
    assert ifaces[..|ifaces|] == ifaces;
  }

  /** The second loop of `build_graph`: each router's links, in dictionary order. */
  method AddAllRouterLinks(g: Graph, routers: Dict<Router>) returns (r: Graph)
    requires g.Valid() && routers.Valid()
    ensures r == AddAllLinks(g, routers, |routers.keys|)
  {
    r := g;
    for i := 0 to |routers.keys|
      invariant r == AddAllLinks(g, routers, i)
    {
      var h := routers.keys[i];
      assert h in routers.entries;
      r := AddRouterLinks(r, routers, h, IfacesOf(routers.entries[h]));
    }
  }

  /** The two loops of `build_graph` over graph `g`. */
  method BuildFrom(g: Graph, routers: Dict<Router>) returns (r: Graph)
    requires g.Valid() && routers.Valid()
    ensures r == Built(g, routers)
  {
    var nodes := AddRouterNodes(g, routers.keys);
    r := AddAllRouterLinks(nodes, routers);
  }

  /** The edge loop of `to_vis_json` over the out-edges of `u`, from drawing state `st`. */
  method DrawOutArcs(u: string, d: Dict<EdgeData>, edges: seq<VisEdge>, seen: set<set<string>>, ghost before: seq<Arc>)
    returns (edges': seq<VisEdge>, seen': set<set<string>>)
    requires d.Valid() && Dedup(before) == VisState(edges, seen)
    ensures Dedup(before + OutArcs(u, d, |d.keys|)) == VisState(edges', seen')
  {
    edges', seen' := edges, seen;
    assert before + OutArcs(u, d, 0) == before;
    for j := 0 to |d.keys|
      invariant Dedup(before + OutArcs(u, d, j)) == VisState(edges', seen')
    {
      var v := d.keys[j];
      var a := Arc(u, v, d.entries[v]);
      ghost var walked := before + OutArcs(u, d, j);
      assert before + OutArcs(u, d, j + 1) == walked + [a];
      DedupSnoc(walked, a);
      var key := PairOf(u, v);
      if key !in seen' {
        seen' := seen' + {key};
        edges' := edges' + [VisOf(a)];
      }
    }
  }

  /** The edge loop of `to_vis_json`: the edges of `graph.edges()`, one per pair of endpoints. */
  method DrawEdges(g: Graph) returns (edges: seq<VisEdge>)
    requires g.Valid()
    ensures edges == Dedup(Arcs(g)).edges
  {
    edges := [];
    var seen: set<set<string>> := {};
    for i := 0 to |g.nodes|
      invariant Dedup(ArcsUpTo(g, i)) == VisState(edges, seen)
    {
      var u := g.nodes[i];
      ArcsUpToNext(g, i);
      edges, seen := DrawOutArcs(u, g.succ[u], edges, seen, ArcsUpTo(g, i));
    }
  }

  /** One more node adds its outgoing arcs. */
  lemma ArcsUpToNext(g: Graph, i: nat)
    requires g.Valid() && i < |g.nodes|
    ensures ArcsUpTo(g, i + 1) == ArcsUpTo(g, i) + OutArcs(g.nodes[i], g.succ[g.nodes[i]], |g.succ[g.nodes[i]].keys|)
  {
  }

  /** The router loop of `load_inventory`: `self.routers[hostname] = router` for each record. */
  method StoreRouters(d: Dict<Router>, rs: seq<Router>) returns (r: Dict<Router>)
    requires d.Valid()
    ensures r == WithRouters(d, rs)
  {
    r := d;
    for i := 0 to |rs|
      invariant r.Valid() && r == WithRouters(d, rs[..i])
    {
      assert rs[..i + 1][..i] == rs[..i];
      r := r.Put(rs[i].hostname, rs[i]);
    }
    assert rs[..|rs|] == rs;
  }

  /** The inner loop of `get_child_vrfs`: appends router `r`'s child VRFs of `parent`, in order. */
  method AppendChildPairs(done: seq<(Router, Vrf)>, r: Router, parent: string) returns (results: seq<(Router, Vrf)>)
    ensures results == done + ChildPairs(r, r.vrfs, parent)
  {
    results := done;
    for j := 0 to |r.vrfs|
      invariant results == done + ChildPairs(r, r.vrfs[..j], parent)
    {
      assert r.vrfs[..j + 1][..j] == r.vrfs[..j];
      var v := r.vrfs[j];
      if v.vrfType == ChildVrf && v.parentVrf == Some(parent) {
        results := results + [(r, v)];
      }
    }
    assert r.vrfs[..|r.vrfs|] == r.vrfs;
  }

  /** `GraphEngine`: the inventory's routers and boundaries, and the topology built from them. */
  class Engine {
    var routers: Dict<Router>
    var boundaries: seq<DomainBoundary>
    var graph: Graph

    ghost predicate Valid()
      reads this
    {
      routers.Valid() && graph.Valid()
    }

    /** `GraphEngine()`: no routers, no boundaries, an empty graph. */
    constructor ()
      ensures Valid() && routers.keys == [] && boundaries == [] && graph == EmptyGraph()
    {
      routers := Empty();
      boundaries := [];
      graph := EmptyGraph();
    }

    /**
     * `load_inventory` over already-parsed records: each router is stored under its
     * hostname, the boundaries are appended, and the graph is built.
     */
    method LoadInventory(rs: seq<Router>, bs: seq<DomainBoundary>)
      requires Valid()
      modifies this
      ensures Valid()
      ensures routers == WithRouters(old(routers), rs)
      ensures boundaries == old(boundaries) + bs
      ensures graph == Built(old(graph), routers)
    {
      routers := StoreRouters(routers, rs);
      boundaries := boundaries + bs;
      BuildGraph();
    }

    /** `build_graph`: a node per router, then an edge per interface naming a known router. */
    method BuildGraph()
      requires Valid()
      modifies this
      ensures Valid() && routers == old(routers) && boundaries == old(boundaries)
      ensures graph == Built(old(graph), routers)
    {
      graph := BuildFrom(graph, routers);
    }

    /** `get_child_vrfs(parent)`: the routers in order, each with its child VRFs in order. */
    method GetChildVrfs(parent: string) returns (results: seq<(Router, Vrf)>)
      requires routers.Valid()
      ensures results == ChildVrfs(routers.Values(), parent)
    {
      var rs := routers.Values();
      results := [];
      for i := 0 to |rs|
        invariant results == ChildVrfs(rs[..i], parent)
      {
        assert rs[..i + 1][..i] == rs[..i];
        results := AppendChildPairs(results, rs[i], parent);
      }
      assert rs[..|rs|] == rs;
    }

    /** `resolve_next_hop(current, next_hop_ip)`. */
    method ResolveNextHop(current: Router, nextHop: string) returns (r: Result<Option<Router>>)
      requires graph.Valid()
      ensures r == Resolve(graph, routers, current.hostname, nextHop)
    {
      var h := current.hostname;
      if h !in graph.succ {
        return Err("The node " + h + " is not in the digraph.");
      }
      var ns := graph.succ[h].keys;
      for i := 0 to |ns|
        invariant FirstAnswering(ns, routers, nextHop, 0) == FirstAnswering(ns, routers, nextHop, i)
      {
        var n := ns[i];
        var found := routers.Get(n);
        if found.Some? {
          var ifaces := IfacesOf(found.value);
          for j := 0 to |ifaces|
            invariant forall k :: 0 <= k < j ==> !IpMatches(ifaces[k], nextHop)
          {
            var iface := ifaces[j];
            if iface.ip.Some? && iface.ip.value != "" && SplitOn(iface.ip.value, '/')[0] == nextHop {
              assert IpMatches(ifaces[j], nextHop);
              return Ok(found);
            }
          }
        }
      }
      r := Ok(None);
    }

    /** `get_domain_boundary(from_domain, to_domain)`. */
    method GetDomainBoundary(fromDomain: string, toDomain: string) returns (r: Option<DomainBoundary>)
      ensures r == BoundaryBetween(boundaries, fromDomain, toDomain)
    {
      for i := 0 to |boundaries|
        invariant FirstJoining(boundaries, fromDomain, toDomain, 0) == FirstJoining(boundaries, fromDomain, toDomain, i)
      {
        var b := boundaries[i];
        if b.upstreamDomain == fromDomain && b.downstreamDomain == toDomain {
          return Some(b);
        }
        if b.upstreamDomain == toDomain && b.downstreamDomain == fromDomain {
          return Some(b);
        }
      }
      r := None;
    }

    /** `get_firewall_tier(hostname)`. */
    method GetFirewallTier(hostname: string) returns (r: Option<string>)
      ensures r == FirewallTier(boundaries, hostname)
    {
      for i := 0 to |boundaries|
        invariant FirstFirewall(boundaries, hostname, 0) == FirstFirewall(boundaries, hostname, i)
      {
        if boundaries[i].firewall == hostname {
          return boundaries[i].tier;
        }
      }
      r := None;
    }

    /** The node ids and the de-duplicated edges of `to_vis_json`. */
    method ToVisJson() returns (nodes: seq<string>, edges: seq<VisEdge>)
      requires graph.Valid()
      ensures nodes == graph.nodes
      ensures edges == Dedup(Arcs(graph)).edges
    {
      var g := graph;
      nodes := [];
      for i := 0 to |g.nodes|
        invariant nodes == g.nodes[..i]
      {
        nodes := nodes + [g.nodes[i]];
      }
      assert g.nodes[..|g.nodes|] == g.nodes;
      edges := DrawEdges(g);
    }
  }
}
