/**
 * The Junos route parser (backend/collectors/junos_collector.py, `JunosParser`): it cuts the
 * text of `show route <prefix> detail` into one block per BGP path and fills a route entry
 * from the lines of each block; when there is no BGP path at all it falls back to one entry
 * per directly connected, static, local, OSPF or IS-IS route.
 *
 * Each regular expression is modelled by a matcher that reads it at one position: it gives
 * the captured text (or the end of the match) when the expression matches there, and `None`
 * otherwise. `re.match` is the matcher at position 0, `re.search` the leftmost position
 * where the matcher succeeds (`Text.SearchValue`), and `^` under `re.MULTILINE` a position
 * at the start of the text or just after a newline.
 */
module JunosCollector {
  import opened Wrappers
  import opened Text
  import opened Seqs

  /** RouteEntry (backend/collectors/__init__.py), the record every collector returns. */
  datatype RouteEntry = RouteEntry(
    prefix: string,
    protocol: string,
    nextHop: string,
    iface: string,
    communities: seq<string>,
    localPref: Option<int>,
    asPath: seq<string>,
    metric: Option<nat>,
    vrf: string,
    active: bool,
    paths: seq<RouteEntry>,
    inactiveReason: string,
    peerAs: Option<nat>,
    routerId: string,
    age: string,
    source: string)

  /** `RouteEntry(prefix=..., protocol=..., active=...)`, every other field at its default. */
  function NewEntry(prefix: string, protocol: string, active: bool): RouteEntry {
    RouteEntry(prefix, protocol, "", "", [], None, [], None, "", active, [], "", None, "", "", "")
  }

  // ----- Pieces of the regular expressions -----

  /** Where the whitespace starting at `i` ends. */
  function SkipSpaces(s: string, i: nat): (k: nat)
    requires i <= |s|
    ensures i <= k <= |s|
    ensures forall j :: i <= j < k ==> IsSpace(s[j])
    ensures k < |s| ==> !IsSpace(s[k])
  {
    i + SpaceRun(s, i)
  }

  /** `lit\s+(\S+)` at position `i`: the token after the literal and at least one space. */
  function TokenAfter(s: string, lit: string, i: nat): (r: Option<string>)
    ensures r.Some? ==> OccursAt(s, lit, i) && r.value != [] && forall c :: c in r.value ==> !IsSpace(c)
  {
    if !OccursAt(s, lit, i) then None
    else
      var k := SkipSpaces(s, i + |lit|);
      if k == i + |lit| || k == |s| then None
      else Some(s[k..k + WordRun(s, k)])
  }

  /** `lit\s+(\d+)` at position `i`: the number after the literal and at least one space. */
  function NumberAfter(s: string, lit: string, i: nat): (r: Option<nat>)
    ensures r.Some? ==> OccursAt(s, lit, i)
  {
    if !OccursAt(s, lit, i) then None
    else
      var k := SkipSpaces(s, i + |lit|);
      var n := DigitRun(s, k);
      if k == i + |lit| || n == 0 then None else Some(DecimalValue(s[k..k + n]))
  }

  /** What `line.strip()` gives for a line of a block: no newline, no whitespace at either end. */
  predicate IsStrippedLine(s: string) {
    '\n' !in s && (s == [] || (!IsSpace(s[0]) && !IsSpace(s[|s| - 1])))
  }

  /**
   * `lit\s+(.+)` matched at the start of a stripped line: the rest of the line after the
   * literal and its spaces (the line ends in a non-space, so `\s+` never gives one back).
   */
  function RestAfter(s: string, lit: string): (r: Option<string>)
    requires IsStrippedLine(s)
    ensures r.Some? ==> OccursAt(s, lit, 0) && r.value != [] && EndsWith(s, r.value)
  {
    if !OccursAt(s, lit, 0) then None
    else
      var k := SkipSpaces(s, |lit|);
      if k == |lit| || k == |s| then None else Some(s[k..])
  }

  /** `State:\s+<(.+?)>` matched at the start of a stripped line: the shortest text closed by `>`. */
  function StateText(s: string): (r: Option<string>)
    requires IsStrippedLine(s)
    ensures r.Some? ==> OccursAt(s, "State:", 0) && r.value != []
  {
    if !OccursAt(s, "State:", 0) then None
    else
      var k := SkipSpaces(s, 6);
      if k == 6 || k + 2 > |s| || s[k] != '<' then None
      else match IndexFrom(s, ">", k + 2)
        case None => None
        case Some(j) => Some(s[k + 1..j])
  }

  /** `Local AS:\s+(\d+)\s+Peer AS:\s+(\d+)` at position `i`: the peer AS. */
  function PeerAsAt(s: string, i: nat): (r: Option<nat>)
    ensures r.Some? ==> OccursAt(s, "Local AS:", i)
  {
    if !OccursAt(s, "Local AS:", i) then None
    else
      var a := SkipSpaces(s, i + 9);
      var m := DigitRun(s, a);
      var b := SkipSpaces(s, a + m);
      if a == i + 9 || m == 0 || b == a + m then None
      else NumberAfter(s, "Peer AS:", b)
  }

  /** `Task:\s+BGP_(\d+)\.` matched at the start of a line: the peer AS in the task name. */
  function TaskPeerAs(s: string): (r: Option<nat>)
    ensures r.Some? ==> OccursAt(s, "Task:", 0)
  {
    if !OccursAt(s, "Task:", 0) then None
    else
      var k := SkipSpaces(s, 5);
      if k == 5 || !OccursAt(s, "BGP_", k) then None
      else
        var n := DigitRun(s, k + 4);
        if n == 0 || !OccursAt(s, ".", k + 4 + n) then None
        else Some(DecimalValue(s[k + 4..k + 4 + n]))
  }

  // ----- One BGP block -----

  /** `'Active' in state and 'NotBest' not in state`. */
  predicate StateActive(state: string) {
    Contains(state, "Active") && !Contains(state, "NotBest")
  }

  /** The AS path tokens without a final origin marker I, E or ?. */
  function DropOriginMarker(parts: seq<string>): (r: seq<string>)
    ensures parts != [] && parts[|parts| - 1] in ["I", "E", "?"] ==> r == parts[..|parts| - 1]
    ensures parts == [] || parts[|parts| - 1] !in ["I", "E", "?"] ==> r == parts
    ensures r != [] ==> r[0] == parts[0]
  {
    if parts != [] && parts[|parts| - 1] in ["I", "E", "?"] then parts[..|parts| - 1] else parts
  }

  /** The `Source:` token of a line, if the line is one. */
  function SourceOf(line: string): Option<string> {
    TokenAfter(Strip(line), "Source:", 0)
  }

  /** The `State: <...>` text of a line, if the line is one. */
  function StateOf(line: string): Option<string>
    requires '\n' !in line
  {
    StateText(Strip(line))
  }

  /** The leftmost `Local AS: n Peer AS: m` of a line. */
  function PeerAsOf(s: string): Option<nat> {
    SearchValue(s, k => PeerAsAt(s, k))
  }

  /** The leftmost `Metric2: n` of a line. */
  function MetricOf(s: string): Option<nat> {
    SearchValue(s, k => NumberAfter(s, "Metric2:", k))
  }

  /** The leftmost `Age: t` of a line. */
  function AgeOf(s: string): Option<string> {
    SearchValue(s, k => TokenAfter(s, "Age:", k))
  }

  /** Two literals that differ at position `k` cannot both begin a string. */
  lemma LiteralsDiffer(s: string, a: string, b: string, k: nat)
    requires k < |a| && k < |b| && a[k] != b[k]
    ensures OccursAt(s, a, 0) ==> !OccursAt(s, b, 0)
  {
    if OccursAt(s, a, 0) {
      assert s[k] == a[k];
    }
  }

  /** The field a line after the `Local AS:` pattern sets, besides its age. */
  datatype Attribute =
    | MetricAttr(metric: nat)
    | AsPathAttr(asPath: seq<string>)
    | CommunitiesAttr(communities: seq<string>)
    | LocalPrefAttr(localPref: nat)
    | RouterIdAttr(routerId: string)
    | TaskAttr(peerAs: nat)
    | NoAttribute

  /** Which pattern of `_parse_bgp_block` a line matches first, with what it captured. */
  datatype LineKind =
    | SourceLine(token: string)
    | StateLine(state: string)
    | InactiveLine(reason: string)
    | PeerAsLine(peerAs: nat)
    | AttributeLine(age: Option<string>, attr: Attribute)

  /** The patterns after `Local AS:`, tried in order on a stripped line. */
  function AttributeOf(s: string): (r: Attribute)
    requires IsStrippedLine(s)
    ensures RestAfter(s, "AS path:").Some? && MetricOf(s).None? ==>
      r == AsPathAttr(DropOriginMarker(Words(RestAfter(s, "AS path:").value)))
    ensures RestAfter(s, "Communities:").Some? && MetricOf(s).None? ==>
      r == CommunitiesAttr(Words(RestAfter(s, "Communities:").value))
  {
    LiteralsDiffer(s, "AS path:", "Communities:", 0);
    if MetricOf(s).Some? then MetricAttr(MetricOf(s).value)
    // `m.group(1).strip().split()`: splitting on whitespace already ignores the ends.
    else if RestAfter(s, "AS path:").Some? then AsPathAttr(DropOriginMarker(Words(RestAfter(s, "AS path:").value)))
    else if RestAfter(s, "Communities:").Some? then CommunitiesAttr(Words(RestAfter(s, "Communities:").value))
    else if NumberAfter(s, "Localpref:", 0).Some? then LocalPrefAttr(NumberAfter(s, "Localpref:", 0).value)
    else if TokenAfter(s, "Router ID:", 0).Some? then RouterIdAttr(TokenAfter(s, "Router ID:", 0).value)
    else if TaskPeerAs(s).Some? then TaskAttr(TaskPeerAs(s).value)
    else NoAttribute
  }

  /**
   * The patterns of `_parse_bgp_block` tried in order on the stripped line: a `Source:` line
   * is exactly one with a source token, a `State:` line one with a state text.
   */
  function Classify(line: string): (r: LineKind)
    requires '\n' !in line
    ensures r.SourceLine? <==> SourceOf(line).Some?
    ensures r.SourceLine? ==> r.token == SourceOf(line).value
    ensures r.StateLine? <==> StateOf(line).Some?
    ensures r.StateLine? ==> r.state == StateOf(line).value
  {
    var s := Strip(line);
    assert IsStrippedLine(s);
    LiteralsDiffer(s, "State:", "Source:", 1);
    if TokenAfter(s, "Source:", 0).Some? then SourceLine(TokenAfter(s, "Source:", 0).value)
    else if StateText(s).Some? then StateLine(StateText(s).value)
    else if RestAfter(s, "Inactive reason:").Some? then InactiveLine(Strip(RestAfter(s, "Inactive reason:").value))
    else if PeerAsOf(s).Some? then PeerAsLine(PeerAsOf(s).value)
    else AttributeLine(AgeOf(s), AttributeOf(s))
  }

  /**
   * An `AS path:` line gives the AS path as its tokens less a final origin marker, and a
   * `Communities:` line gives its tokens as the communities, unless the line also carries a
   * `Local AS:`/`Peer AS:` pair or a `Metric2:` value, whose patterns are tried first.
   */
  lemma AttributeLines(line: string)
    requires '\n' !in line
    ensures var s := Strip(line);
      && (RestAfter(s, "AS path:").Some? && PeerAsOf(s).None? && MetricOf(s).None? ==>
            Classify(line) == AttributeLine(AgeOf(s), AsPathAttr(DropOriginMarker(Words(RestAfter(s, "AS path:").value)))))
      && (RestAfter(s, "Communities:").Some? && PeerAsOf(s).None? && MetricOf(s).None? ==>
            Classify(line) == AttributeLine(AgeOf(s), CommunitiesAttr(Words(RestAfter(s, "Communities:").value))))
  {
    var s := Strip(line);
    assert IsStrippedLine(s);
    LiteralsDiffer(s, "AS path:", "Source:", 0);
    LiteralsDiffer(s, "AS path:", "State:", 0);
    LiteralsDiffer(s, "AS path:", "Inactive reason:", 0);
    LiteralsDiffer(s, "Communities:", "Source:", 0);
    LiteralsDiffer(s, "Communities:", "State:", 0);
    LiteralsDiffer(s, "Communities:", "Inactive reason:", 0);
  }

  /** An `AS path:` line, as classified. */
  predicate IsAsPathLine(kind: LineKind) {
    kind.AttributeLine? && kind.attr.AsPathAttr?
  }

  /** A `Communities:` line, as classified. */
  predicate IsCommunitiesLine(kind: LineKind) {
    kind.AttributeLine? && kind.attr.CommunitiesAttr?
  }

  /** One line of `_parse_bgp_block`: the field its pattern fills (`Age:` falls through). */
  function Step(e: RouteEntry, kind: LineKind): (r: RouteEntry)
    ensures r.prefix == e.prefix && r.protocol == e.protocol && r.paths == e.paths
    ensures r.iface == e.iface && r.vrf == e.vrf
    ensures kind.SourceLine? ==> r.nextHop == r.source == kind.token
    ensures !kind.SourceLine? ==> r.nextHop == e.nextHop && r.source == e.source
    ensures kind.StateLine? ==> r.active == StateActive(kind.state)
    ensures !kind.StateLine? ==> r.active == e.active
    ensures IsAsPathLine(kind) ==> r.asPath == kind.attr.asPath
    ensures !IsAsPathLine(kind) ==> r.asPath == e.asPath
    ensures IsCommunitiesLine(kind) ==> r.communities == kind.attr.communities
    ensures !IsCommunitiesLine(kind) ==> r.communities == e.communities
  {
    match kind
    case SourceLine(t) => e.(nextHop := t, source := t)
    case StateLine(st) => e.(active := StateActive(st))
    case InactiveLine(reason) => e.(inactiveReason := reason)
    case PeerAsLine(n) => e.(peerAs := Some(n))
    case AttributeLine(age, attr) =>
      var aged := if age.Some? then e.(age := age.value) else e;
      match attr
      case MetricAttr(n) => aged.(metric := Some(n))
      case AsPathAttr(parts) => aged.(asPath := parts)
      case CommunitiesAttr(parts) => aged.(communities := parts)
      case LocalPrefAttr(n) => aged.(localPref := Some(n))
      case RouterIdAttr(t) => aged.(routerId := t)
      case TaskAttr(n) => aged.(peerAs := Some(n))
      case NoAttribute => aged
  }

  /** Every `Source:` line carries a token. */
  predicate TokensGiven(kinds: seq<LineKind>) {
    forall k :: 0 <= k < |kinds| && kinds[k].SourceLine? ==> kinds[k].token != []
  }

  /** The lines of a block, each classified. */
  function Classified(lines: seq<string>): (kinds: seq<LineKind>)
    requires forall k :: 0 <= k < |lines| ==> '\n' !in lines[k]
    ensures |kinds| == |lines| && TokensGiven(kinds)
  {
    seq(|lines|, k requires 0 <= k < |lines| => Classify(lines[k]))
  }

  /** The entry after the lines of a block from position `i` on. */
  function BlockFrom(e: RouteEntry, kinds: seq<LineKind>, i: nat): RouteEntry
    requires i <= |kinds|
    decreases |kinds| - i
  {
    if i == |kinds| then e else BlockFrom(Step(e, kinds[i]), kinds, i + 1)
  }

  /** The entry a block starts from: active when its first line holds `*BGP`. */
  function BlockStart(lines: seq<string>, prefix: string): RouteEntry
    requires lines != []
  {
    NewEntry(prefix, "bgp", Contains(lines[0], "*BGP"))
  }

  /** What `_parse_bgp_block` returns: the entry, kept only when it has a next hop. */
  function BlockEntry(block: string, prefix: string): (r: Option<RouteEntry>)
    ensures r.Some? ==> r.value.prefix == prefix && r.value.protocol == "bgp" && r.value.nextHop != ""
  {
    var lines := SplitOn(block, '\n');
    BlockKeeps(BlockStart(lines, prefix), Classified(lines), 0);
    var e := BlockFrom(BlockStart(lines, prefix), Classified(lines), 0);
    if e.nextHop != "" then Some(e) else None
  }

  /** `_parse_bgp_block`: applies every line of the block in turn. */
  method ParseBgpBlock(block: string, prefix: string) returns (r: Option<RouteEntry>)
    ensures r == BlockEntry(block, prefix)
  {
    var lines := SplitOn(block, '\n');
    var entry := NewEntry(prefix, "bgp", Contains(lines[0], "*BGP"));
    entry := StepLines(entry, lines);
    r := if entry.nextHop != "" then Some(entry) else None;
  }

  /** The loop of `_parse_bgp_block`: each line, classified, updates the entry in turn. */
  method StepLines(e: RouteEntry, lines: seq<string>) returns (entry: RouteEntry)
    requires forall k :: 0 <= k < |lines| ==> '\n' !in lines[k]
    ensures entry == BlockFrom(e, Classified(lines), 0)
  {
    ghost var kinds := Classified(lines);
    entry := e;
    for i := 0 to |lines|
      invariant BlockFrom(e, kinds, 0) == BlockFrom(entry, kinds, i)
    {
      var kind := Classify(lines[i]);
      assert kind == kinds[i];
      entry := Step(entry, kind);
    }
  }

  /** The text of the last `State:` line from position `i` on. */
  function LastState(kinds: seq<LineKind>, i: nat): Option<string>
    requires i <= |kinds|
    decreases |kinds| - i
  {
    if i == |kinds| then None
    else if LastState(kinds, i + 1).Some? then LastState(kinds, i + 1)
    else if kinds[i].StateLine? then Some(kinds[i].state)
    else None
  }

  /** The token of the last `Source:` line from position `i` on. */
  function LastSource(kinds: seq<LineKind>, i: nat): (r: Option<string>)
    requires i <= |kinds|
    ensures r.None? ==> forall k :: i <= k < |kinds| ==> !kinds[k].SourceLine?
    ensures r.Some? && TokensGiven(kinds) ==> r.value != []
    decreases |kinds| - i
  {
    if i == |kinds| then None
    else if LastSource(kinds, i + 1).Some? then LastSource(kinds, i + 1)
    else if kinds[i].SourceLine? then Some(kinds[i].token)
    else None
  }

  /** Over a block, the last `State:` line decides whether the entry is active. */
  lemma {:induction false} BlockActive(e: RouteEntry, kinds: seq<LineKind>, i: nat)
    requires i <= |kinds|
    ensures BlockFrom(e, kinds, i).active
      == if LastState(kinds, i).Some? then StateActive(LastState(kinds, i).value) else e.active
    decreases |kinds| - i
  {
    if i < |kinds| {
      BlockActive(Step(e, kinds[i]), kinds, i + 1);
    }
  }

  /** Over a block, the last `Source:` line gives both the next hop and the source. */
  lemma {:induction false} BlockNextHop(e: RouteEntry, kinds: seq<LineKind>, i: nat)
    requires i <= |kinds|
    ensures var r := BlockFrom(e, kinds, i);
      && r.nextHop == (if LastSource(kinds, i).Some? then LastSource(kinds, i).value else e.nextHop)
      && r.source == (if LastSource(kinds, i).Some? then LastSource(kinds, i).value else e.source)
    decreases |kinds| - i
  {
    if i < |kinds| {
      BlockNextHop(Step(e, kinds[i]), kinds, i + 1);
    }
  }

  /** The AS path of the last `AS path:` line from position `i` on. */
  function LastAsPath(kinds: seq<LineKind>, i: nat): (r: Option<seq<string>>)
    requires i <= |kinds|
    ensures r.None? ==> forall k :: i <= k < |kinds| ==> !IsAsPathLine(kinds[k])
    ensures r.Some? ==> exists k :: i <= k < |kinds| && IsAsPathLine(kinds[k]) && r.value == kinds[k].attr.asPath
    decreases |kinds| - i
  {
    if i == |kinds| then None
    else if LastAsPath(kinds, i + 1).Some? then LastAsPath(kinds, i + 1)
    else if IsAsPathLine(kinds[i]) then Some(kinds[i].attr.asPath)
    else None
  }

  /** The communities of the last `Communities:` line from position `i` on. */
  function LastCommunities(kinds: seq<LineKind>, i: nat): (r: Option<seq<string>>)
    requires i <= |kinds|
    ensures r.None? ==> forall k :: i <= k < |kinds| ==> !IsCommunitiesLine(kinds[k])
    ensures r.Some? ==>
      exists k :: i <= k < |kinds| && IsCommunitiesLine(kinds[k]) && r.value == kinds[k].attr.communities
    decreases |kinds| - i
  {
    if i == |kinds| then None
    else if LastCommunities(kinds, i + 1).Some? then LastCommunities(kinds, i + 1)
    else if IsCommunitiesLine(kinds[i]) then Some(kinds[i].attr.communities)
    else None
  }

  /**
   * Over a block, the last `AS path:` line gives `as_path` and the last `Communities:` line
   * gives `communities`; with no such line the field keeps its starting value.
   */
  lemma {:induction false} BlockAttributes(e: RouteEntry, kinds: seq<LineKind>, i: nat)
    requires i <= |kinds|
    ensures var r := BlockFrom(e, kinds, i);
      && r.asPath == (if LastAsPath(kinds, i).Some? then LastAsPath(kinds, i).value else e.asPath)
      && r.communities == (if LastCommunities(kinds, i).Some? then LastCommunities(kinds, i).value else e.communities)
    decreases |kinds| - i
  {
    if i < |kinds| {
      BlockAttributes(Step(e, kinds[i]), kinds, i + 1);
    }
  }

  /** Over a block, prefix, protocol and the ECMP list stay as they were. */
  lemma {:induction false} BlockKeeps(e: RouteEntry, kinds: seq<LineKind>, i: nat)
    requires i <= |kinds|
    ensures var r := BlockFrom(e, kinds, i);
      r.prefix == e.prefix && r.protocol == e.protocol && r.paths == e.paths
    decreases |kinds| - i
  {
    if i < |kinds| {
      BlockKeeps(Step(e, kinds[i]), kinds, i + 1);
    }
  }

  /**
   * A block yields an entry exactly when one of its lines is a `Source:` line; the entry is
   * a BGP entry for the given prefix whose next hop is its source, active as its last
   * `State:` line says, or else as its first line's `*BGP` says.
   */
  lemma BlockEntryShape(block: string, prefix: string)
    ensures var lines := SplitOn(block, '\n'); var kinds := Classified(lines); var r := BlockEntry(block, prefix);
      && (r.Some? <==> LastSource(kinds, 0).Some?)
      && (r.Some? ==>
            (&& r.value.prefix == prefix && r.value.protocol == "bgp" && r.value.paths == []
             && r.value.nextHop == r.value.source == LastSource(kinds, 0).value
             && r.value.active == (if LastState(kinds, 0).Some? then StateActive(LastState(kinds, 0).value)
                                   else Contains(lines[0], "*BGP"))
             && r.value.asPath == (if LastAsPath(kinds, 0).Some? then LastAsPath(kinds, 0).value else [])
             && r.value.communities
                == (if LastCommunities(kinds, 0).Some? then LastCommunities(kinds, 0).value else [])))
  {
    var lines := SplitOn(block, '\n');
    var kinds := Classified(lines);
    var start := BlockStart(lines, prefix);
    BlockActive(start, kinds, 0);
    BlockNextHop(start, kinds, 0);
    BlockKeeps(start, kinds, 0);
    BlockAttributes(start, kinds, 0);
  }

  // ----- The whole output -----

  /** `^` under `re.MULTILINE`: the start of the text or just after a newline. */
  predicate IsLineStart(s: string, k: nat) {
    k == 0 || (k <= |s| && s[k - 1] == '\n')
  }

  /** How many digits end `s[lo..hi]`. */
  function TrailingDigits(s: string, lo: nat, hi: nat): (n: nat)
    requires lo <= hi <= |s|
    ensures n <= hi - lo
    ensures forall j :: hi - n <= j < hi ==> IsDigit(s[j])
    ensures hi - n > lo ==> !IsDigit(s[hi - n - 1])
    decreases hi - lo
  {
    if hi > lo && IsDigit(s[hi - 1]) then 1 + TrailingDigits(s, lo, hi - 1) else 0
  }

  /**
   * `^(\S+/\d+)\s+\(\d+ entries` at position `k`: the prefix a header line names. The
   * group is the whole first token of the line, which must end in `/` and digits with at
   * least one character before the `/`.
   */
  function HeaderAt(out: string, k: nat): (r: Option<string>)
    ensures r.Some? ==> IsLineStart(out, k) && r.value != [] && forall c :: c in r.value ==> !IsSpace(c)
  {
    if !(k < |out| && IsLineStart(out, k)) then None
    else
      var t := k + WordRun(out, k);
      var n := TrailingDigits(out, k, t);
      var u := SkipSpaces(out, t);
      if n == 0 || t - n - 1 <= k || out[t - n - 1] != '/' || u == t || u == |out| || out[u] != '(' then None
      else
        var d := DigitRun(out, u + 1);
        if d == 0 || !OccursAt(out, " entries", u + 1 + d) then None
        else Some(out[k..t])
  }

  /** The header pattern as a matcher over positions of `out`. */
  function Header(out: string): nat -> Option<string> {
    (k: nat) => HeaderAt(out, k)
  }

  /**
   * The prefix every entry carries: the caller's when no line is a header, else the one the
   * first header line names.
   */
  function EffectivePrefix(out: string, prefix: string): (r: string)
    ensures FirstMatchAt(out, Header(out), 0).None? ==> r == prefix
    ensures FirstMatchAt(out, Header(out), 0).Some? ==>
      r == HeaderAt(out, FirstMatchAt(out, Header(out), 0).value).value
  {
    var header := SearchValue(out, Header(out));
    if header.Some? then header.value else prefix
  }

  /**
   * `^\s+\*?<proto>\s+Preference:` at position `k`: where the match ends. The leading
   * whitespace may run over blank lines.
   */
  function ProtoStartAt(out: string, k: nat, proto: string): (r: Option<nat>)
    ensures r.Some? ==> IsLineStart(out, k) && k < r.value <= |out|
  {
    if !(k < |out| && IsLineStart(out, k) && IsSpace(out[k])) then None
    else
      var a := SkipSpaces(out, k);
      var b := if a < |out| && out[a] == '*' then a + 1 else a;
      if !OccursAt(out, proto, b) then None
      else
        var c := SkipSpaces(out, b + |proto|);
        if c == b + |proto| || !OccursAt(out, "Preference:", c) then None else Some(c + 11)
  }

  /** The entry-start pattern for a protocol as a matcher over positions of `out`. */
  function ProtoStart(out: string, proto: string): nat -> Option<nat> {
    (k: nat) => ProtoStartAt(out, k, proto)
  }

  /** Whether `<proto> Preference:` begins some line at or after position `i`. */
  predicate ProtoFoundFrom(out: string, proto: string, i: nat)
    decreases |out| - i
  {
    i <= |out| && (ProtoStartAt(out, i, proto).Some? || (i < |out| && ProtoFoundFrom(out, proto, i + 1)))
  }

  /** Whether `<proto> Preference:` begins some line. */
  predicate ProtoFound(out: string, proto: string) {
    ProtoFoundFrom(out, proto, 0)
  }

  /** The pattern is found exactly when `re.search` finds a match. */
  lemma {:induction false} ProtoFoundSearch(out: string, proto: string, i: nat)
    requires i <= |out|
    ensures ProtoFoundFrom(out, proto, i) <==> FirstMatchAt(out, ProtoStart(out, proto), i).Some?
    decreases |out| - i
  {
    assert ProtoStart(out, proto)(i) == ProtoStartAt(out, i, proto);
    if i < |out| {
      ProtoFoundSearch(out, proto, i + 1);
      FirstMatchStep(out, ProtoStart(out, proto), i);
    }
  }

  /**
   * The starts of the non-overlapping matches of `m` from `i` on, each search resuming where
   * the previous match ended: `finditer`.
   */
  function MatchStarts(out: string, m: nat -> Option<nat>, i: nat): (r: seq<nat>)
    requires i <= |out|
    requires forall k: nat :: m(k).Some? ==> k < m(k).value <= |out|
    ensures forall j :: 0 <= j < |r| ==> i <= r[j] < |out|
    ensures forall j, k :: 0 <= j < k < |r| ==> r[j] < r[k]
    decreases |out| - i
  {
    match FirstMatchAt(out, m, i)
    case None => []
    case Some(p) => [p] + MatchStarts(out, m, m(p).value)
  }

  /** A `<proto> Preference:` match ends after the line start it begins at, within the output. */
  lemma ProtoStartBounds(out: string, proto: string)
    ensures forall k: nat :: ProtoStart(out, proto)(k).Some? ==> k < ProtoStart(out, proto)(k).value <= |out|
  {
    forall k: nat | ProtoStart(out, proto)(k).Some? ensures k < ProtoStart(out, proto)(k).value <= |out| {
      assert ProtoStart(out, proto)(k) == ProtoStartAt(out, k, proto);
    }
  }

  /** The starts of the non-overlapping `BGP Preference:` matches from `i` on. */
  function EntryStarts(out: string, i: nat): (r: seq<nat>)
    requires i <= |out|
    ensures forall j :: 0 <= j < |r| ==> i <= r[j] < |out|
    ensures forall j, k :: 0 <= j < k < |r| ==> r[j] < r[k]
  {
    ProtoStartBounds(out, "BGP");
    MatchStarts(out, ProtoStart(out, "BGP"), i)
  }

  /** Each start up to the next one (the last up to the end): the blocks. */
  function Blocks(out: string, starts: seq<nat>): (bs: seq<string>)
    requires forall j :: 0 <= j < |starts| ==> starts[j] < |out|
    requires forall j, k :: 0 <= j < k < |starts| ==> starts[j] < starts[k]
    ensures |bs| == |starts|
  {
    seq(|starts|, j requires 0 <= j < |starts| =>
      out[starts[j]..if j + 1 < |starts| then starts[j + 1] else |out|])
  }

  /** `_parse_bgp_block` for a given prefix, as a function of the block. */
  function BlockParser(prefix: string): string -> Option<RouteEntry> {
    block => BlockEntry(block, prefix)
  }

  /** What `_parse_bgp_block` returns for each block. */
  function BlockResults(blocks: seq<string>, prefix: string): (r: seq<Option<RouteEntry>>)
    ensures |r| == |blocks|
  {
    Map(blocks, BlockParser(prefix))
  }

  /** The values of the results from position `i` on that are present, appended to `acc`. */
  function Kept<T>(rs: seq<Option<T>>, acc: seq<T>, i: nat): (r: seq<T>)
    requires i <= |rs|
    ensures |r| <= |acc| + |rs| - i
    decreases |rs| - i
  {
    if i == |rs| then acc
    else Kept(rs, acc + (match rs[i] case Some(e) => [e] case None => []), i + 1)
  }

  /** The active entries, in order: `[e for e in entries if e.active]`. */
  function ActiveOf(entries: seq<RouteEntry>): (r: seq<RouteEntry>)
    ensures |r| <= |entries|
    ensures forall e :: e in r ==> e.active && e in entries
  {
    if entries == [] then []
    else (if entries[0].active then [entries[0]] else []) + ActiveOf(entries[1..])
  }

  /** The position of the first active entry. */
  function FirstActive(entries: seq<RouteEntry>): (r: Option<nat>)
    ensures r.Some? ==> r.value < |entries| && entries[r.value].active
    ensures r.Some? ==> forall k :: 0 <= k < r.value ==> !entries[k].active
    ensures r.None? <==> ActiveOf(entries) == []
    ensures r.Some? ==> ActiveOf(entries)[0] == entries[r.value]
  {
    if entries == [] then None
    else if entries[0].active then Some(0)
    else match FirstActive(entries[1..])
      case None => None
      case Some(k) => Some(k + 1)
  }

  /**
   * The ECMP grouping of `parse`: with more than one active entry, the first active entry's
   * ECMP list becomes the other active entries in order; nothing else changes, and no entry
   * is added or removed.
   */
  function GroupEcmp(entries: seq<RouteEntry>): (r: seq<RouteEntry>)
    ensures |r| == |entries|
    ensures |ActiveOf(entries)| <= 1 ==> r == entries
    ensures |ActiveOf(entries)| > 1 ==>
      var p := FirstActive(entries).value;
      && r[p] == entries[p].(paths := ActiveOf(entries)[1..])
      && forall k :: 0 <= k < |r| && k != p ==> r[k] == entries[k]
  {
    var active := ActiveOf(entries);
    if |active| > 1 then
      var p := FirstActive(entries).value;
      entries[p := entries[p].(paths := active[1..])]
    else entries
  }

  // ----- The fallback for routes that are not BGP -----

  /** The protocols `_parse_non_bgp` looks for, in order. */
  function FallbackProtocols(): seq<string> {
    ["Direct", "Static", "Local", "OSPF", "IS-IS"]
  }

  /** `proto.lower().replace('is-is', 'isis')`. */
  function ProtocolName(proto: string): string {
    Replace(ToLower(proto), "is-is", "isis")
  }

  /** `IS-IS` is reported as `isis`. */
  lemma IsisName()
    ensures ProtocolName("IS-IS") == "isis"
  {
    assert ToLower("IS-IS") == "is-is";
    assert Replace("is-is", "is-is", "isis") == "isis" + Replace("", "is-is", "isis");
  }

  /** `Replace` leaves a string alone when some character of the pattern occurs nowhere in it. */
  lemma {:induction false} ReplaceAbsent(s: string, pat: string, rep: string, c: char)
    requires c in pat && c !in s
    ensures Replace(s, pat, rep) == s
    decreases |s|
  {
    if s != [] {
      ReplaceAbsent(s[1..], pat, rep, c);
    }
  }

  /** `Direct` is reported as `direct`. */
  lemma DirectName()
    ensures ProtocolName("Direct") == "direct"
  {
    assert ToLower("Direct") == "direct";
    ReplaceAbsent("direct", "is-is", "isis", '-');
  }

  /** `Static` is reported as `static`. */
  lemma StaticName()
    ensures ProtocolName("Static") == "static"
  {
    assert ToLower("Static") == "static";
    ReplaceAbsent("static", "is-is", "isis", '-');
  }

  /** `Local` is reported as `local`. */
  lemma LocalName()
    ensures ProtocolName("Local") == "local"
  {
    assert ToLower("Local") == "local";
    ReplaceAbsent("local", "is-is", "isis", '-');
  }

  /** `OSPF` is reported as `ospf`. */
  lemma OspfName()
    ensures ProtocolName("OSPF") == "ospf"
  {
    assert ToLower("OSPF") == "ospf";
    ReplaceAbsent("ospf", "is-is", "isis", '-');
  }

  /** `'*' in output.split(proto)[0][-5:] if proto in output else False`. */
  predicate StarBefore(out: string, proto: string) {
    match IndexFrom(out, proto, 0)
    case None => false
    case Some(i) => '*' in out[if i >= 5 then i - 5 else 0..i]
  }

  /** `Next hop:\s+(\S+)` as a matcher over positions of `out`. */
  function NextHopMatch(out: string): nat -> Option<string> {
    (k: nat) => TokenAfter(out, "Next hop:", k)
  }

  /** `via\s+(\S+)` as a matcher over positions of `out`. */
  function ViaMatch(out: string): nat -> Option<string> {
    (k: nat) => TokenAfter(out, "via", k)
  }

  /**
   * The fallback entry for one protocol: the next hop and interface come from the first
   * `Next hop:` and `via` anywhere in the output, the same for every protocol.
   */
  function FallbackEntry(out: string, prefix: string, proto: string): (e: RouteEntry)
    ensures e.prefix == prefix && e.protocol == ProtocolName(proto) && e.paths == []
    ensures e.active == StarBefore(out, proto)
  {
    var e := NewEntry(prefix, ProtocolName(proto), StarBefore(out, proto));
    var nh := SearchValue(out, NextHopMatch(out));
    var via := SearchValue(out, ViaMatch(out));
    var e1 := if nh.Some? then e.(nextHop := nh.value) else e;
    if via.Some? then e1.(iface := via.value) else e1
  }

  /** Whether each protocol of the list has its `Preference:` line in the output. */
  function Found(out: string): (r: seq<bool>)
    ensures |r| == 5
  {
    seq(5, k requires 0 <= k < 5 => ProtoFound(out, FallbackProtocols()[k]))
  }

  /** The fallback entries for the first `n` protocols of the list, `found` telling which are present. */
  function Fallback(out: string, prefix: string, found: seq<bool>, n: nat): (r: seq<RouteEntry>)
    requires n <= 5 == |found|
    ensures |r| <= n
    ensures forall e :: e in r ==> e.prefix == prefix
  {
    if n == 0 then []
    else
      var proto := FallbackProtocols()[n - 1];
      Fallback(out, prefix, found, n - 1) + (if found[n - 1] then [FallbackEntry(out, prefix, proto)] else [])
  }

  /** The body of `_parse_non_bgp`'s loop for a protocol whose line is present. */
  method BuildFallbackEntry(out: string, prefix: string, proto: string) returns (entry: RouteEntry)
    ensures entry == FallbackEntry(out, prefix, proto)
  {
    entry := NewEntry(prefix, ProtocolName(proto), StarBefore(out, proto));
    var nh := SearchValue(out, NextHopMatch(out));
    if nh.Some? {
      entry := entry.(nextHop := nh.value);
    }
    var via := SearchValue(out, ViaMatch(out));
    if via.Some? {
      entry := entry.(iface := via.value);
    }
  }

  /** `pattern.search(output)` for the `<proto> Preference:` pattern, as a test. */
  method SearchProto(out: string, proto: string) returns (found: bool)
    ensures found == ProtoFound(out, proto)
  {
    found := FirstMatchAt(out, ProtoStart(out, proto), 0).Some?;
    ProtoFoundSearch(out, proto, 0);
  }

  /** `_parse_non_bgp`: one entry for each protocol whose `Preference:` line is present. */
  method ParseNonBgp(out: string, prefix: string) returns (entries: seq<RouteEntry>)
    ensures entries == Fallback(out, prefix, Found(out), 5)
  {
    entries := [];
    var protos := FallbackProtocols();
    for i := 0 to 5
      invariant entries == Fallback(out, prefix, Found(out), i)
    {
      var proto := protos[i];
      var found := SearchProto(out, proto);
      assert found == Found(out)[i];
      if found {
        var entry := BuildFallbackEntry(out, prefix, proto);
        entries := entries + [entry];
      }
    }
  }

  /** The positions among the first `n` whose flag is set. */
  function Present(found: seq<bool>, n: nat): (r: seq<nat>)
    requires n <= |found|
    ensures forall j :: 0 <= j < |r| ==> r[j] < n
  {
    if n == 0 then []
    else Present(found, n - 1) + (if found[n - 1] then [n - 1] else [])
  }

  /** The present positions are increasing, and they are exactly the positions whose flag is set. */
  lemma {:induction false} PresentShape(found: seq<bool>, n: nat)
    requires n <= |found|
    ensures forall j, k :: 0 <= j < k < |Present(found, n)| ==> Present(found, n)[j] < Present(found, n)[k]
    ensures forall j :: 0 <= j < |Present(found, n)| ==> found[Present(found, n)[j]]
    ensures forall k :: 0 <= k < n && found[k] ==> k in Present(found, n)
  {
    if n > 0 {
      var r0 := Present(found, n - 1);
      PresentShape(found, n - 1);
      if found[n - 1] {
        var r := r0 + [n - 1];
        assert Present(found, n) == r;
        forall j, k | 0 <= j < k < |r| ensures r[j] < r[k] {
          assert r[j] == r0[j];
          if k < |r0| {
            assert r[k] == r0[k];
          } else {
            assert r[k] == n - 1;
          }
        }
        forall j | 0 <= j < |r| ensures found[r[j]] {
          if j < |r0| {
            assert r[j] == r0[j];
          }
        }
        forall k | 0 <= k < n && found[k] ensures k in r {
          if k < n - 1 {
            assert k in r0;
          } else {
            assert r[|r0|] == k;
          }
        }
      } else {
        assert Present(found, n) == r0;
      }
    }
  }

  /**
   * The fallback holds one entry per protocol whose line is present, in the fixed order
   * Direct, Static, Local, OSPF, IS-IS, each for the given prefix.
   */
  lemma {:induction false} FallbackShape(out: string, prefix: string, found: seq<bool>, n: nat)
    requires n <= 5 == |found|
    ensures |Fallback(out, prefix, found, n)| == |Present(found, n)| <= n
    ensures forall j :: 0 <= j < |Fallback(out, prefix, found, n)| ==>
      Fallback(out, prefix, found, n)[j] == FallbackEntry(out, prefix, FallbackProtocols()[Present(found, n)[j]])
  {
    if n > 0 {
      FallbackShape(out, prefix, found, n - 1);
      var r0, p0 := Fallback(out, prefix, found, n - 1), Present(found, n - 1);
      if found[n - 1] {
        var e := FallbackEntry(out, prefix, FallbackProtocols()[n - 1]);
        var r, p := r0 + [e], p0 + [n - 1];
        assert Fallback(out, prefix, found, n) == r;
        assert Present(found, n) == p;
        forall j | 0 <= j < |r| ensures r[j] == FallbackEntry(out, prefix, FallbackProtocols()[p[j]]) {
          if j < |r0| {
            assert r[j] == r0[j] && p[j] == p0[j];
          }
        }
      } else {
        assert Fallback(out, prefix, found, n) == r0;
        assert Present(found, n) == p0;
      }
    }
  }

  // ----- `parse` -----

  /** What `parse` returns. */
  function Parse(out: string, prefix: string): (r: seq<RouteEntry>)
    ensures EntryStarts(out, 0) == [] ==> |r| <= 5
  {
    var pfx := EffectivePrefix(out, prefix);
    var starts := EntryStarts(out, 0);
    if starts == [] then Fallback(out, pfx, Found(out), 5)
    else GroupEcmp(Kept(BlockResults(Blocks(out, starts), pfx), [], 0))
  }

  /** The loop of `parse` over the blocks: each block that names a source adds its entry. */
  method ParseBlocks(blocks: seq<string>, prefix: string) returns (entries: seq<RouteEntry>)
    ensures entries == Kept(BlockResults(blocks, prefix), [], 0)
  {
    entries := [];
    ghost var results := BlockResults(blocks, prefix);
    for i := 0 to |blocks|
      invariant Kept(results, [], 0) == Kept(results, entries, i)
    {
      var entry := ParseBgpBlock(blocks[i], prefix);
      MapAt(blocks, BlockParser(prefix), i);
      assert results[i] == entry;
      ghost var more := match entry case Some(e) => [e] case None => [];
      assert Kept(results, entries, i) == Kept(results, entries + more, i + 1);
      if entry.Some? {
        entries := entries + [entry.value];
      } else {
        assert entries + more == entries;
      }
    }
  }

  /**
   * The ECMP step of `parse`: `primary` is the list's own first active element, so setting
   * its `paths` changes that element of the list.
   */
  method GroupActive(entries: seq<RouteEntry>) returns (r: seq<RouteEntry>)
    ensures r == GroupEcmp(entries)
  {
    r := entries;
    var active := ActiveOf(entries);
    if |active| > 1 {
      var p := FirstActive(entries).value;
      r := r[p := r[p].(paths := active[1..])];
    }
  }

  /**
   * `parse`: takes the prefix from the header line, cuts the output at every
   * `BGP Preference:` line, parses each block and groups the active entries; without any
   * BGP block it falls back to `_parse_non_bgp`.
   */
  method ParseOutput(out: string, prefix: string) returns (entries: seq<RouteEntry>)
    ensures entries == Parse(out, prefix)
  {
    var header := SearchValue(out, Header(out));
    var pfx := if header.Some? then header.value else prefix;
    assert pfx == EffectivePrefix(out, prefix);
    var starts := EntryStarts(out, 0);
    if starts == [] {
      entries := ParseNonBgp(out, pfx);
    } else {
      var blocks := Blocks(out, starts);
      entries := ParseBlocks(blocks, pfx);
      entries := GroupActive(entries);
    }
  }

  /** A BGP entry of `parse`: the given prefix, protocol "bgp", a next hop equal to its source. */
  predicate IsBgpEntry(e: RouteEntry, prefix: string) {
    e.prefix == prefix && e.protocol == "bgp" && e.nextHop != "" && e.nextHop == e.source
  }

  /** Every entry kept from the blocks is a BGP entry. */
  lemma {:induction false} KeptBgp(blocks: seq<string>, prefix: string, acc: seq<RouteEntry>, i: nat)
    requires i <= |blocks|
    requires forall e :: e in acc ==> IsBgpEntry(e, prefix)
    ensures forall e :: e in Kept(BlockResults(blocks, prefix), acc, i) ==> IsBgpEntry(e, prefix)
    decreases |blocks| - i
  {
    if i < |blocks| {
      var results := BlockResults(blocks, prefix);
      MapAt(blocks, BlockParser(prefix), i);
      BlockEntryShape(blocks[i], prefix);
      var more := match results[i] case Some(e) => [e] case None => [];
      KeptBgp(blocks, prefix, acc + more, i + 1);
    }
  }

  /**
   * When the output has `BGP Preference:` lines, `parse` returns at most one entry per
   * block, each a BGP entry for the header's prefix whose next hop is its source.
   */
  lemma BgpEntries(out: string, prefix: string)
    requires EntryStarts(out, 0) != []
    ensures var r := Parse(out, prefix);
      && |r| <= |EntryStarts(out, 0)|
      && forall e :: e in r ==> IsBgpEntry(e, EffectivePrefix(out, prefix))
  {
    var pfx := EffectivePrefix(out, prefix);
    var blocks := Blocks(out, EntryStarts(out, 0));
    var entries := Kept(BlockResults(blocks, pfx), [], 0);
    KeptBgp(blocks, pfx, [], 0);
    GroupEcmpBgp(entries, pfx);
  }

  /** Grouping ECMP paths keeps every entry a BGP entry. */
  lemma GroupEcmpBgp(entries: seq<RouteEntry>, prefix: string)
    requires forall e :: e in entries ==> IsBgpEntry(e, prefix)
    ensures forall e :: e in GroupEcmp(entries) ==> IsBgpEntry(e, prefix)
  {
    var r := GroupEcmp(entries);
    forall e | e in r ensures IsBgpEntry(e, prefix) {
      var k :| 0 <= k < |r| && r[k] == e;
      assert IsBgpEntry(entries[k], prefix);
    }
  }

  /** Without any protocol's line the fallback is empty. */
  lemma {:induction false} FallbackNone(out: string, prefix: string, found: seq<bool>, n: nat)
    requires n <= 5 == |found|
    requires forall k :: 0 <= k < n ==> !found[k]
    ensures Fallback(out, prefix, found, n) == []
  {
    if n > 0 {
      FallbackNone(out, prefix, found, n - 1);
    }
  }

  /** Without a `BGP Preference:` line there are no block starts. */
  lemma NoBgpStarts(out: string)
    requires !ProtoFound(out, "BGP")
    ensures EntryStarts(out, 0) == []
  {
    ProtoFoundSearch(out, "BGP", 0);
  }

  /**
   * Output with no `Preference:` line for BGP or any fallback protocol, the empty output
   * among them, parses to no entries.
   */
  lemma NoRoutes(out: string, prefix: string)
    requires !ProtoFound(out, "BGP")
    requires forall k :: 0 <= k < 5 ==> !ProtoFound(out, FallbackProtocols()[k])
    ensures Parse(out, prefix) == []
  {
    NoBgpStarts(out);
    FallbackNone(out, EffectivePrefix(out, prefix), Found(out), 5);
  }

  /** The empty output has no `Preference:` line and parses to no entries. */
  lemma EmptyOutput(prefix: string)
    ensures Parse("", prefix) == []
  {
    forall proto ensures !ProtoFound("", proto) {
      assert ProtoStartAt("", 0, proto).None?;
    }
    NoRoutes("", prefix);
  }
}
