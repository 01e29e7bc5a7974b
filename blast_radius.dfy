/**
 * Failure impact (backend/blast_radius.py): when one node of the topology fails, which
 * ordered source/destination pairs lose a path through it, and whether each of them still
 * has an alternate path or is isolated.
 *
 * Simple-path enumeration and shortest path are networkx algorithms. They enter the model as
 * the two functions of an `Oracle`, and every property below holds whatever they return:
 * `simplePaths` gives `None` where the enumeration raises.
 */
module BlastRadius {
  import opened Wrappers
  import opened Text
  import opened Seqs
  import opened GraphEngine

  type Path = seq<string>
  type NodePair = (string, string)

  /**
   * `nx.all_simple_paths(graph, src, dst, cutoff=15)` as a list, `None` when it raises; and
   * `shortest_path(src, dst, exclude=[x])`, `[]` when there is no such path.
   */
  datatype Oracle = Oracle(simplePaths: (string, string) -> Option<seq<Path>>, shortest: (string, string, string) -> Path)

  datatype Status = Rerouted | Isolated

  datatype AffectedPair = AffectedPair(
    source: string,
    destination: string,
    originalPath: Path,
    alternatePath: Path,
    status: Status)

  datatype BlastRadiusResult = BlastRadiusResult(
    failedNode: string,
    isolatedPairs: seq<AffectedPair>,
    reroutedPairs: seq<AffectedPair>,
    unaffectedNodeCount: nat,
    summary: string)

  /** A pair with more enumerated paths than this is skipped as dense. */
  const MaxPaths := 50

  // ----- The pairs visited -----

  /** The pairs the inner loop visits for `src` among the first `m` destinations. */
  function RowPairs<N(==)>(nodes: seq<N>, failed: N, src: N, m: nat): seq<(N, N)>
    requires m <= |nodes|
  {
    if m == 0 then []
    else
      var dst := nodes[m - 1];
      RowPairs(nodes, failed, src, m - 1) + (if dst == failed || dst == src then [] else [(src, dst)])
  }

  /** The pairs the two loops visit for the first `n` sources. */
  function PairsUpTo<N(==)>(nodes: seq<N>, failed: N, n: nat): seq<(N, N)>
    requires n <= |nodes|
  {
    if n == 0 then []
    else
      var src := nodes[n - 1];
      PairsUpTo(nodes, failed, n - 1) + (if src == failed then [] else RowPairs(nodes, failed, src, |nodes|))
  }

  /** One more destination adds its pair unless it is the failed node or the source. */
  lemma RowPairsNext<N>(nodes: seq<N>, failed: N, src: N, j: nat)
    requires j < |nodes|
    ensures nodes[j] == failed || nodes[j] == src ==> RowPairs(nodes, failed, src, j + 1) == RowPairs(nodes, failed, src, j)
    ensures nodes[j] != failed && nodes[j] != src ==> RowPairs(nodes, failed, src, j + 1) == RowPairs(nodes, failed, src, j) + [(src, nodes[j])]
  {
    assert RowPairs(nodes, failed, src, j) + [] == RowPairs(nodes, failed, src, j);
  }

  /** One more source adds its row of pairs unless it is the failed node. */
  lemma PairsUpToNext<N>(nodes: seq<N>, failed: N, i: nat)
    requires i < |nodes|
    ensures nodes[i] == failed ==> PairsUpTo(nodes, failed, i + 1) == PairsUpTo(nodes, failed, i)
    ensures nodes[i] != failed ==> PairsUpTo(nodes, failed, i + 1) == PairsUpTo(nodes, failed, i) + RowPairs(nodes, failed, nodes[i], |nodes|)
  {
    assert PairsUpTo(nodes, failed, i) + [] == PairsUpTo(nodes, failed, i);
  }

  /** Every ordered pair visited, in loop order. */
  function Pairs<N(==)>(nodes: seq<N>, failed: N): seq<(N, N)> {
    PairsUpTo(nodes, failed, |nodes|)
  }

  /** `x` is one of the first `n` nodes. */
  ghost predicate InPrefix<N>(nodes: seq<N>, n: nat, x: N)
    requires n <= |nodes|
  {
    x in nodes[..n]
  }

  lemma InPrefixSnoc<N>(nodes: seq<N>, n: nat, x: N)
    requires 0 < n <= |nodes|
    ensures InPrefix(nodes, n, x) <==> InPrefix(nodes, n - 1, x) || nodes[n - 1] == x
  {
    assert nodes[..n] == nodes[..n - 1] + [nodes[n - 1]];
  }

  /** With distinct nodes, no node occurs before its own position. */
  lemma NotInPrefix<N>(nodes: seq<N>, n: nat)
    requires Distinct(nodes) && n < |nodes|
    ensures !InPrefix(nodes, n, nodes[n])
  {
    forall i | 0 <= i < n ensures nodes[..n][i] != nodes[n] {
      assert nodes[..n][i] == nodes[i];
    }
  }

  lemma {:induction false} RowPairsExactly<N>(nodes: seq<N>, failed: N, src: N, m: nat, c: (N, N))
    requires m <= |nodes|
    ensures c in RowPairs(nodes, failed, src, m) <==>
      c.0 == src && InPrefix(nodes, m, c.1) && c.1 != failed && c.1 != src
  {
    if m > 0 {
      RowPairsExactly(nodes, failed, src, m - 1, c);
      InPrefixSnoc(nodes, m, c.1);
    }
  }

  /** The pair of a visited pair's fields: two different, non-failed nodes, the source among the first `n`. */
  ghost predicate Visitable<N>(nodes: seq<N>, failed: N, n: nat, c: (N, N))
    requires n <= |nodes|
  {
    InPrefix(nodes, n, c.0) && InPrefix(nodes, |nodes|, c.1) && c.0 != c.1 && c.0 != failed && c.1 != failed
  }

  lemma PairsUpToExactly<N>(nodes: seq<N>, failed: N, n: nat, c: (N, N))
    requires n <= |nodes|
    ensures c in PairsUpTo(nodes, failed, n) <==> Visitable(nodes, failed, n, c)
  {
    PairsUpToSound(nodes, failed, n, c);
    if Visitable(nodes, failed, n, c) {
      PairsUpToComplete(nodes, failed, n, c);
    }
  }

  lemma {:induction false} PairsUpToSound<N>(nodes: seq<N>, failed: N, n: nat, c: (N, N))
    requires n <= |nodes|
    ensures c in PairsUpTo(nodes, failed, n) ==> Visitable(nodes, failed, n, c)
  {
    if n > 0 {
      var src := nodes[n - 1];
      PairsUpToMember(nodes, failed, n, c);
      PairsUpToSound(nodes, failed, n - 1, c);
      RowPairsExactly(nodes, failed, src, |nodes|, c);
      InPrefixSnoc(nodes, n, c.0);
    }
  }

  lemma {:induction false} PairsUpToComplete<N>(nodes: seq<N>, failed: N, n: nat, c: (N, N))
    requires n <= |nodes| && Visitable(nodes, failed, n, c)
    ensures c in PairsUpTo(nodes, failed, n)
  {
    if n > 0 {
      var src := nodes[n - 1];
      PairsUpToMember(nodes, failed, n, c);
      InPrefixSnoc(nodes, n, c.0);
      if c.0 == src {
        RowPairsExactly(nodes, failed, src, |nodes|, c);
      } else {
        PairsUpToComplete(nodes, failed, n - 1, c);
      }
    }
  }

  /** A pair is visited for the first `n` sources when it is for the first `n - 1` or in the row of the `n`-th. */
  lemma PairsUpToMember<N>(nodes: seq<N>, failed: N, n: nat, c: (N, N))
    requires 0 < n <= |nodes|
    ensures c in PairsUpTo(nodes, failed, n) <==>
      c in PairsUpTo(nodes, failed, n - 1) || (nodes[n - 1] != failed && c in RowPairs(nodes, failed, nodes[n - 1], |nodes|))
  {
  }

  /**
   * The loops visit exactly the ordered pairs of two different nodes, neither of them the
   * failed one.
   */
  lemma PairsExactly<N>(nodes: seq<N>, failed: N, c: (N, N))
    ensures c in Pairs(nodes, failed) <==>
      c.0 in nodes && c.1 in nodes && c.0 != c.1 && c.0 != failed && c.1 != failed
  {
    PairsUpToExactly(nodes, failed, |nodes|, c);
    assert nodes[..|nodes|] == nodes;
  }

  lemma {:induction false} RowPairsDistinct<N>(nodes: seq<N>, failed: N, src: N, m: nat)
    requires m <= |nodes| && Distinct(nodes)
    ensures Distinct(RowPairs(nodes, failed, src, m))
  {
    if m > 0 {
      RowPairsDistinct(nodes, failed, src, m - 1);
      var prev := RowPairs(nodes, failed, src, m - 1);
      var dst := nodes[m - 1];
      NotInPrefix(nodes, m - 1);
      forall i | 0 <= i < |prev| ensures prev[i] != (src, dst) {
        RowPairsExactly(nodes, failed, src, m - 1, prev[i]);
      }
      DistinctConcat(prev, if dst == failed || dst == src then [] else [(src, dst)]);
    }
  }

  lemma {:induction false} PairsUpToDistinct<N>(nodes: seq<N>, failed: N, n: nat)
    requires n <= |nodes| && Distinct(nodes)
    ensures Distinct(PairsUpTo(nodes, failed, n))
  {
    if n > 0 {
      PairsUpToDistinct(nodes, failed, n - 1);
      var prev := PairsUpTo(nodes, failed, n - 1);
      var src := nodes[n - 1];
      var row := if src == failed then [] else RowPairs(nodes, failed, src, |nodes|);
      RowPairsDistinct(nodes, failed, src, |nodes|);
      NotInPrefix(nodes, n - 1);
      forall i | 0 <= i < |prev| ensures prev[i] !in row {
        PairsUpToExactly(nodes, failed, n - 1, prev[i]);
        assert prev[i].0 != src;
        RowPairsExactly(nodes, failed, src, |nodes|, prev[i]);
      }
      DistinctConcat(prev, row);
    }
  }

  /** No pair is visited twice when the nodes are distinct. */
  lemma PairsDistinct<N>(nodes: seq<N>, failed: N)
    requires Distinct(nodes)
    ensures Distinct(Pairs(nodes, failed))
  {
    PairsUpToDistinct(nodes, failed, |nodes|);
  }

  // ----- One pair -----

  /** The outcome for one pair. */
  datatype Verdict = Unreachable | Dense | Unaffected | Hit(pair: AffectedPair)

  /** `list(islice(gen, n))`. */
  function Take<T>(xs: seq<T>, n: nat): (r: seq<T>)
    ensures |r| == if |xs| <= n then |xs| else n
    ensures r == xs[..|r|]
  {
    if |xs| <= n then xs else xs[..n]
  }

  /** The first position from `i` of a path through `failed`. */
  function FirstThrough(ps: seq<Path>, failed: string, i: nat): (r: Option<nat>)
    requires i <= |ps|
    ensures r.Some? ==> i <= r.value < |ps| && failed in ps[r.value]
    ensures r.Some? ==> forall k :: i <= k < r.value ==> failed !in ps[k]
    ensures r.None? ==> forall k :: i <= k < |ps| ==> failed !in ps[k]
    decreases |ps| - i
  {
    if i == |ps| then None
    else if failed in ps[i] then Some(i)
    else FirstThrough(ps, failed, i + 1)
  }

  /** No path in `ps` passes through `failed`. */
  predicate NoneThrough(ps: seq<Path>, failed: string) {
    forall k :: 0 <= k < |ps| ==> failed !in ps[k]
  }

  /** `path` is the first path in `ps` through `failed`. */
  predicate IsFirstThrough(ps: seq<Path>, failed: string, path: Path) {
    exists k :: 0 <= k < |ps| && ps[k] == path && failed in path && NoneThrough(ps[..k], failed)
  }

  /**
   * The body of the inner loop for pair `c`: unreachable when enumeration raises, dense when
   * more than 50 paths come back, unaffected when none passes through `failed`; otherwise
   * the first path through `failed` is the original path, and the pair is rerouted exactly
   * when a shortest path avoiding `failed` exists.
   */
  function Classify(o: Oracle, failed: string, c: NodePair): (v: Verdict)
    ensures v.Unreachable? <==> o.simplePaths(c.0, c.1).None?
    ensures v.Dense? <==> o.simplePaths(c.0, c.1).Some? && |o.simplePaths(c.0, c.1).value| > MaxPaths
    ensures v.Unaffected? <==> (o.simplePaths(c.0, c.1).Some? && |o.simplePaths(c.0, c.1).value| <= MaxPaths
                                && NoneThrough(o.simplePaths(c.0, c.1).value, failed))
    ensures v.Hit? ==> v.pair.source == c.0 && v.pair.destination == c.1
    ensures v.Hit? ==> o.simplePaths(c.0, c.1).Some? && |o.simplePaths(c.0, c.1).value| <= MaxPaths
    ensures v.Hit? ==> IsFirstThrough(o.simplePaths(c.0, c.1).value, failed, v.pair.originalPath)
    ensures v.Hit? ==> (v.pair.status == Rerouted <==> o.shortest(c.0, c.1, failed) != [])
    ensures v.Hit? && v.pair.status == Rerouted ==> v.pair.alternatePath == o.shortest(c.0, c.1, failed)
    ensures v.Hit? && v.pair.status == Isolated ==> v.pair.alternatePath == []
  {
    match o.simplePaths(c.0, c.1)
    case None => Unreachable
    case Some(ps) =>
      var taken := Take(ps, MaxPaths + 1);
      if |taken| > MaxPaths then Dense
      else
        assert taken == ps;
        match FirstThrough(taken, failed, 0)
        case None => Unaffected
        case Some(k) =>
          assert NoneThrough(taken[..k], failed);
          var alt := o.shortest(c.0, c.1, failed);
          if alt != [] then Hit(AffectedPair(c.0, c.1, taken[k], alt, Rerouted))
          else Hit(AffectedPair(c.0, c.1, taken[k], [], Isolated))
  }

  // ----- The tally -----

  /** The loop's state: both lists, the dense-pair count, the affected endpoints. */
  datatype Tally = Tally(
    isolated: seq<AffectedPair>,
    rerouted: seq<AffectedPair>,
    skipped: nat,
    sources: set<string>,
    destinations: set<string>)

  /** One pass of the inner loop's body. */
  function Step(t: Tally, v: Verdict): (r: Tally)
    ensures |r.isolated| + |r.rerouted| + r.skipped
              == |t.isolated| + |t.rerouted| + t.skipped + (if v.Dense? || v.Hit? then 1 else 0)
    ensures t.sources <= r.sources && t.destinations <= r.destinations
  {
    match v
    case Dense => t.(skipped := t.skipped + 1)
    case Hit(p) =>
      var t1 := t.(sources := t.sources + {p.source}, destinations := t.destinations + {p.destination});
      if p.status == Rerouted then t1.(rerouted := t.rerouted + [p]) else t1.(isolated := t.isolated + [p])
    case _ => t
  }

  /** The state after visiting the pairs `cs` in order. */
  function TallyOf(o: Oracle, failed: string, cs: seq<NodePair>): (t: Tally)
    ensures |t.isolated| + |t.rerouted| + t.skipped <= |cs|
  {
    if cs == [] then Tally([], [], 0, {}, {})
    else Step(TallyOf(o, failed, cs[..|cs| - 1]), Classify(o, failed, cs[|cs| - 1]))
  }

  lemma TallySnoc(o: Oracle, failed: string, cs: seq<NodePair>, c: NodePair)
    ensures TallyOf(o, failed, cs + [c]) == Step(TallyOf(o, failed, cs), Classify(o, failed, c))
  {
    assert (cs + [c])[..|cs|] == cs;
  }

  /** Pair `c` is reported with status `s`. */
  predicate HitAs(o: Oracle, failed: string, s: Status, c: NodePair) {
    var v := Classify(o, failed, c);
    v.Hit? && v.pair.status == s
  }

  function ReportedAs(o: Oracle, failed: string, s: Status): NodePair -> bool {
    (c: NodePair) => HitAs(o, failed, s, c)
  }

  predicate IsDense(o: Oracle, failed: string, c: NodePair) {
    Classify(o, failed, c).Dense?
  }

  function KeyOf(p: AffectedPair): NodePair {
    (p.source, p.destination)
  }

  /** The list a pair reported with status `s` goes to. */
  function Listed(t: Tally, s: Status): seq<AffectedPair> {
    if s == Isolated then t.isolated else t.rerouted
  }

  /** Each list holds, in visiting order, exactly the pairs reported with its status. */
  lemma {:induction false} TallyLists(o: Oracle, failed: string, cs: seq<NodePair>, s: Status)
    ensures Map(Listed(TallyOf(o, failed, cs), s), KeyOf) == Filter(cs, ReportedAs(o, failed, s))
  {
    if cs != [] {
      var init, c := cs[..|cs| - 1], cs[|cs| - 1];
      assert cs == init + [c];
      TallyLists(o, failed, init, s);
      var t, v := TallyOf(o, failed, init), Classify(o, failed, c);
      FilterSnoc(init, c, ReportedAs(o, failed, s));
      StepListed(t, v, s);
      if v.Hit? && v.pair.status == s {
        var p := v.pair;
        MapConcat(Listed(t, s), [p], KeyOf);
        assert Map([p], KeyOf) == [c];
      }
    }
  }

  /** A step appends the reported pair to the list of its status and leaves the other list alone. */
  lemma StepListed(t: Tally, v: Verdict, s: Status)
    ensures v.Hit? && v.pair.status == s ==> Listed(Step(t, v), s) == Listed(t, s) + [v.pair]
    ensures !(v.Hit? && v.pair.status == s) ==> Listed(Step(t, v), s) == Listed(t, s)
  {
  }

  /** The skipped count is the number of dense pairs. */
  lemma {:induction false} TallySkipped(o: Oracle, failed: string, cs: seq<NodePair>)
    ensures TallyOf(o, failed, cs).skipped == |Filter(cs, (c: NodePair) => IsDense(o, failed, c))|
  {
    if cs != [] {
      var init, c := cs[..|cs| - 1], cs[|cs| - 1];
      assert cs == init + [c];
      TallySkipped(o, failed, init);
      FilterSnoc(init, c, (c: NodePair) => IsDense(o, failed, c));
    }
  }

  /** All reported pairs, isolated first. */
  function Reported(t: Tally): seq<AffectedPair> {
    t.isolated + t.rerouted
  }

  /** The affected sources and destinations are the endpoints of the reported pairs. */
  lemma {:induction false} TallyEndpoints(o: Oracle, failed: string, cs: seq<NodePair>)
    ensures TallyOf(o, failed, cs).sources == set p | p in Reported(TallyOf(o, failed, cs)) :: p.source
    ensures TallyOf(o, failed, cs).destinations == set p | p in Reported(TallyOf(o, failed, cs)) :: p.destination
  {
    if cs != [] {
      var init, c := cs[..|cs| - 1], cs[|cs| - 1];
      TallyEndpoints(o, failed, init);
      var t, v := TallyOf(o, failed, init), Classify(o, failed, c);
      if v.Hit? {
        assert forall q :: q in Reported(Step(t, v)) <==> q in Reported(t) || q == v.pair;
      }
    }
  }

  // ----- The result -----

  /** The sentence every summary starts with. */
  function SummaryHead(failed: string, isolated: nat, rerouted: nat): string {
    "Failing " + failed + " breaks " + NatToString(isolated)
      + " path(s) with no alternate and reroutes " + NatToString(rerouted) + " path(s)."
  }

  /** The summary: the head sentence, then a sentence on the dense pairs when there are any. */
  function Summary(failed: string, isolated: nat, rerouted: nat, skipped: nat): (s: string)
    ensures StartsWith(s, SummaryHead(failed, isolated, rerouted))
    ensures skipped == 0 <==> s == SummaryHead(failed, isolated, rerouted)
    ensures skipped > 0 ==> EndsWith(s, " dense pair(s) with >50 simple paths.")
  {
    var head := SummaryHead(failed, isolated, rerouted);
    if skipped > 0 then
      var tail := " Skipped " + NatToString(skipped) + " dense pair(s) with >50 simple paths.";
      assert (head + tail)[..|head|] == head;
      assert (head + tail)[|head + tail| - 37..] == " dense pair(s) with >50 simple paths.";
      head + tail
    else head
  }

  /** Neither the failed node nor an endpoint of a reported pair. */
  function IsUnaffected(failed: string, affected: set<string>): string -> bool {
    (n: string) => n != failed && n !in affected
  }

  /** The nodes that are neither the failed one nor an endpoint of a reported pair. */
  function UnaffectedNodes(nodes: seq<string>, failed: string, affected: set<string>): seq<string> {
    Filter(nodes, IsUnaffected(failed, affected))
  }

  /** `BlastRadiusCalculator.calculate(failed)` over graph `g`. */
  function Blast(g: Graph, failed: string, o: Oracle): (r: Result<BlastRadiusResult>)
    ensures r.Err? <==> failed !in g.nodes
    ensures r.Err? ==> r.message == "Node not in graph"
    ensures r.Ok? ==> r.value.failedNode == failed
  {
    if failed !in g.nodes then Err("Node not in graph")
    else
      var t := TallyOf(o, failed, Pairs(g.nodes, failed));
      var affected := t.sources + t.destinations;
      Ok(BlastRadiusResult(
        failed, t.isolated, t.rerouted,
        |UnaffectedNodes(g.nodes, failed, affected)|,
        Summary(failed, |t.isolated|, |t.rerouted|, t.skipped)))
  }

  /** Over distinct pairs, no pair is reported twice, in one list or across both. */
  lemma TallyDistinct(o: Oracle, failed: string, cs: seq<NodePair>)
    requires Distinct(cs)
    ensures Distinct(Map(Reported(TallyOf(o, failed, cs)), KeyOf))
  {
    var t := TallyOf(o, failed, cs);
    TallyLists(o, failed, cs, Isolated);
    TallyLists(o, failed, cs, Rerouted);
    var iso := Filter(cs, ReportedAs(o, failed, Isolated));
    var rer := Filter(cs, ReportedAs(o, failed, Rerouted));
    MapConcat(t.isolated, t.rerouted, KeyOf);
    FilterDistinct(cs, ReportedAs(o, failed, Isolated));
    FilterDistinct(cs, ReportedAs(o, failed, Rerouted));
    forall i | 0 <= i < |iso| ensures iso[i] !in rer {
      assert HitAs(o, failed, Isolated, iso[i]);
    }
    DistinctConcat(iso, rer);
  }

  /** A pair is reported exactly when it is visited and its verdict is a hit. */
  lemma TallyReportsExactly(o: Oracle, failed: string, cs: seq<NodePair>, c: NodePair)
    ensures c in Map(Reported(TallyOf(o, failed, cs)), KeyOf) <==> c in cs && Classify(o, failed, c).Hit?
  {
    var t := TallyOf(o, failed, cs);
    TallyLists(o, failed, cs, Isolated);
    TallyLists(o, failed, cs, Rerouted);
    MapConcat(t.isolated, t.rerouted, KeyOf);
    var iso := Filter(cs, ReportedAs(o, failed, Isolated));
    var rer := Filter(cs, ReportedAs(o, failed, Rerouted));
    FilterMember(cs, ReportedAs(o, failed, Isolated), c);
    FilterMember(cs, ReportedAs(o, failed, Rerouted), c);
    assert Map(Reported(t), KeyOf) == iso + rer;
  }

  /** Every reported pair comes from a visited pair whose verdict it is. */
  lemma {:induction false} TallyHits(o: Oracle, failed: string, cs: seq<NodePair>, p: AffectedPair)
    requires p in Reported(TallyOf(o, failed, cs))
    ensures KeyOf(p) in cs
    ensures Classify(o, failed, KeyOf(p)) == Hit(p)
    ensures p in TallyOf(o, failed, cs).rerouted <==> p.status == Rerouted
  {
    if cs != [] {
      var init, c := cs[..|cs| - 1], cs[|cs| - 1];
      var t := TallyOf(o, failed, init);
      if p in Reported(t) {
        TallyHits(o, failed, init, p);
      }
    }
  }

  /**
   * Each ordered pair is reported at most once across both lists, and the reported pairs are
   * exactly the pairs of two different nodes, neither of them the failed one, whose verdict
   * is a hit.
   */
  lemma BlastPairs(g: Graph, failed: string, o: Oracle, c: NodePair)
    requires g.Valid() && failed in g.nodes
    ensures Distinct(Map(Blast(g, failed, o).value.isolatedPairs + Blast(g, failed, o).value.reroutedPairs, KeyOf))
    ensures c in Map(Blast(g, failed, o).value.isolatedPairs + Blast(g, failed, o).value.reroutedPairs, KeyOf) <==>
      (c.0 in g.nodes && c.1 in g.nodes && c.0 != c.1 && c.0 != failed && c.1 != failed
       && Classify(o, failed, c).Hit?)
  {
    var cs := Pairs(g.nodes, failed);
    PairsDistinct(g.nodes, failed);
    TallyDistinct(o, failed, cs);
    TallyReportsExactly(o, failed, cs, c);
    PairsExactly(g.nodes, failed, c);
  }

  /**
   * Every reported pair's original path is the first enumerated path through the failed
   * node; it is listed as rerouted exactly when a shortest path avoiding the failed node
   * exists, and then that path is its alternate.
   */
  lemma BlastPaths(g: Graph, failed: string, o: Oracle, p: AffectedPair)
    requires failed in g.nodes
    requires p in Blast(g, failed, o).value.isolatedPairs + Blast(g, failed, o).value.reroutedPairs
    ensures Classify(o, failed, KeyOf(p)) == Hit(p)
    ensures p in Blast(g, failed, o).value.reroutedPairs <==> o.shortest(p.source, p.destination, failed) != []
  {
    TallyHits(o, failed, Pairs(g.nodes, failed), p);
  }

  /** The affected endpoints are nodes other than the failed one. */
  lemma AffectedAreNodes(g: Graph, failed: string, o: Oracle)
    ensures var t := TallyOf(o, failed, Pairs(g.nodes, failed));
      forall x :: x in t.sources + t.destinations ==> x in g.nodes && x != failed
  {
    var cs := Pairs(g.nodes, failed);
    var t := TallyOf(o, failed, cs);
    TallyEndpoints(o, failed, cs);
    forall x | x in t.sources + t.destinations ensures x in g.nodes && x != failed {
      var p :| p in Reported(t) && (p.source == x || p.destination == x);
      TallyHits(o, failed, cs, p);
      PairsExactly(g.nodes, failed, KeyOf(p));
    }
  }

  /**
   * With distinct nodes, the unaffected count is the number of nodes other than the failed
   * one less the number of affected endpoints.
   */
  lemma BlastUnaffected(g: Graph, failed: string, o: Oracle)
    requires g.Valid() && failed in g.nodes
    ensures var t := TallyOf(o, failed, Pairs(g.nodes, failed));
      Blast(g, failed, o).value.unaffectedNodeCount == |g.nodes| - 1 - |t.sources + t.destinations|
  {
    var t := TallyOf(o, failed, Pairs(g.nodes, failed));
    AffectedAreNodes(g, failed, o);
    UnaffectedCount(g.nodes, failed, t.sources + t.destinations);
  }

  /** Among distinct nodes, those left are all but the failed one and the affected ones. */
  lemma UnaffectedCount(nodes: seq<string>, failed: string, affected: set<string>)
    requires Distinct(nodes) && failed in nodes
    requires forall x :: x in affected ==> x in nodes && x != failed
    ensures |UnaffectedNodes(nodes, failed, affected)| == |nodes| - 1 - |affected|
  {
    var all := Elems(nodes);
    var kept := ElemsWhere(nodes, IsUnaffected(failed, affected));
    calc {
      |UnaffectedNodes(nodes, failed, affected)|;
      { FilterCardinality(nodes, IsUnaffected(failed, affected)); }
      |kept|;
      { UnaffectedElems(nodes, failed, affected); SplitCount(all, failed, affected, kept); }
      |all| - 1 - |affected|;
      { DistinctCardinality(nodes); }
      |nodes| - 1 - |affected|;
    }
  }

  /** The set of nodes left is the set of all nodes less the failed one and the affected ones. */
  lemma UnaffectedElems(nodes: seq<string>, failed: string, affected: set<string>)
    ensures ElemsWhere(nodes, IsUnaffected(failed, affected)) == Elems(nodes) - {failed} - affected
  {
    forall x
      ensures x in ElemsWhere(nodes, IsUnaffected(failed, affected)) <==> x in Elems(nodes) - {failed} - affected
    {
      assert IsUnaffected(failed, affected)(x) == (x != failed && x !in affected);
    }
  }

  /** Removing one member and then a disjoint part leaves the rest. */
  lemma SplitCount(all: set<string>, failed: string, affected: set<string>, kept: set<string>)
    requires failed in all && affected <= all - {failed}
    requires kept == all - {failed} - affected
    ensures |kept| == |all| - 1 - |affected|
  {
    assert |all - {failed}| == |all| - 1;
    assert all - {failed} == kept + affected;
    assert kept * affected == {};
  }

  // ----- The calculator -----

  /** `failed_node in p`. */
  function Through(failed: string): Path -> bool {
    (p: Path) => failed in p
  }

  /** A pair whose at most 50 paths include `ps[k]` as the first through `failed` is a hit. */
  lemma ClassifyHit(o: Oracle, failed: string, c: NodePair, k: nat)
    requires o.simplePaths(c.0, c.1).Some? && |o.simplePaths(c.0, c.1).value| <= MaxPaths
    requires k < |o.simplePaths(c.0, c.1).value| && failed in o.simplePaths(c.0, c.1).value[k]
    requires forall j :: 0 <= j < k ==> failed !in o.simplePaths(c.0, c.1).value[j]
    ensures Classify(o, failed, c)
         == var alt := o.shortest(c.0, c.1, failed);
            var ps := o.simplePaths(c.0, c.1).value;
            if alt != [] then Hit(AffectedPair(c.0, c.1, ps[k], alt, Rerouted))
            else Hit(AffectedPair(c.0, c.1, ps[k], [], Isolated))
  {
    var ps := o.simplePaths(c.0, c.1).value;
    assert Take(ps, MaxPaths + 1) == ps;
    assert FirstThrough(ps, failed, 0) == Some(k);
  }

  /** The body of `calculate`'s inner loop for the pair (`src`, `dst`). */
  method Visit(t: Tally, o: Oracle, failed: string, src: string, dst: string) returns (t': Tally)
    ensures t' == Step(t, Classify(o, failed, (src, dst)))
  {
    ghost var v := Classify(o, failed, (src, dst));
    var gen := o.simplePaths(src, dst);
    if gen.None? {
      assert v.Unreachable?;
      return t;
    }
    var allPaths := Take(gen.value, MaxPaths + 1);
    if |allPaths| > MaxPaths {
      assert v.Dense?;
      return t.(skipped := t.skipped + 1);
    }
    assert allPaths == gen.value;
    var throughFailed := Filter(allPaths, Through(failed));
    FilterEmpty(allPaths, Through(failed));
    if throughFailed == [] {
      assert v.Unaffected? by {
        assert forall j :: 0 <= j < |allPaths| ==> !Through(failed)(allPaths[j]);
      }
      return t;
    }
    var k := FilterHead(allPaths, Through(failed));
    assert forall j :: 0 <= j < k ==> !Through(failed)(allPaths[j]);
    ClassifyHit(o, failed, (src, dst), k);
    var originalPath := throughFailed[0];
    var alternatePath := o.shortest(src, dst, failed);
    t' := t.(sources := t.sources + {src}, destinations := t.destinations + {dst});
    if alternatePath != [] {
      t' := t'.(rerouted := t.rerouted + [AffectedPair(src, dst, originalPath, alternatePath, Rerouted)]);
    } else {
      t' := t'.(isolated := t.isolated + [AffectedPair(src, dst, originalPath, [], Isolated)]);
    }
  }

  /** `calculate`'s inner loop for source `src`, from the state reached after `before`. */
  method VisitRow(t: Tally, o: Oracle, failed: string, nodes: seq<string>, src: string, ghost before: seq<NodePair>)
    returns (t': Tally)
    requires t == TallyOf(o, failed, before)
    ensures t' == TallyOf(o, failed, before + RowPairs(nodes, failed, src, |nodes|))
  {
    t' := t;
    assert before + RowPairs(nodes, failed, src, 0) == before;
    for j := 0 to |nodes|
      invariant t' == TallyOf(o, failed, before + RowPairs(nodes, failed, src, j))
    {
      var dst := nodes[j];
      ghost var visited := before + RowPairs(nodes, failed, src, j);
      RowPairsNext(nodes, failed, src, j);
      if dst != failed && dst != src {
        assert before + RowPairs(nodes, failed, src, j + 1) == visited + [(src, dst)];
        TallySnoc(o, failed, visited, (src, dst));
        t' := Visit(t', o, failed, src, dst);
      }
    }
  }

  /** `calculate`'s outer loop: every ordered pair of `nodes` apart from `failed`, in order. */
  method VisitPairs(o: Oracle, failed: string, nodes: seq<string>) returns (t: Tally)
    ensures t == TallyOf(o, failed, Pairs(nodes, failed))
  {
    t := Tally([], [], 0, {}, {});
    for i := 0 to |nodes|
      invariant t == TallyOf(o, failed, PairsUpTo(nodes, failed, i))
    {
      var src := nodes[i];
      PairsUpToNext(nodes, failed, i);
      if src != failed {
        t := VisitRow(t, o, failed, nodes, src, PairsUpTo(nodes, failed, i));
      }
    }
  }

  /** `BlastRadiusCalculator`: failure impact over the graph of a topology engine. */
  class BlastRadiusCalculator {
    const ge: Engine

    constructor (ge: Engine)
      ensures this.ge == ge
    {
      this.ge := ge;
    }

    /** `calculate(failed_node)`, with networkx's path algorithms given by `o`. */
    method Calculate(failed: string, o: Oracle) returns (r: Result<BlastRadiusResult>)
      requires ge.graph.Valid()
      ensures r == Blast(ge.graph, failed, o)
    {
      var nodes := ge.graph.nodes;
      if failed !in nodes {
        return Err("Node not in graph");
      }
      var t := VisitPairs(o, failed, nodes);
      var affected := t.sources + t.destinations;
      var unaffected := |Filter(nodes, IsUnaffected(failed, affected))|;
      assert unaffected == |UnaffectedNodes(nodes, failed, affected)|;
      var summary := SummaryHead(failed, |t.isolated|, |t.rerouted|);
      if t.skipped > 0 {
        summary := summary + (" Skipped " + NatToString(t.skipped) + " dense pair(s) with >50 simple paths.");
      }
      assert summary == Summary(failed, |t.isolated|, |t.rerouted|, t.skipped);
      r := Ok(BlastRadiusResult(failed, t.isolated, t.rerouted, unaffected, summary));
    }
  }
}
