/**
 * The BGP path record and the parser for Cisco `show ip bgp <prefix>` output
 * (backend/collectors/bgp.py). The parser is a line loop with an `in_paths` flag and a
 * cursor on the path being filled; a new path starts at every line made of AS numbers.
 */
module BgpCollector {
  import opened Wrappers
  import opened Text

  /** `BGPPath`: one path to a prefix as a route server reports it. */
  datatype BgpPath = BgpPath(
    prefix: string,
    nextHop: string,
    asPath: string,
    origin: string,
    localPref: Option<int>,
    med: Option<int>,
    communities: Option<seq<string>>,
    best: bool,
    sourceRouter: Option<string>)

  /** A path as it is created at its AS-path line: no next hop yet, origin incomplete. */
  function NewPath(prefix: string, asPath: string): BgpPath {
    BgpPath(prefix, "", asPath, "?", None, None, None, false, None)
  }

  /** `re.match(r'^[\d\s]+$', line) and line.strip()` on a line that is already stripped. */
  predicate IsAsLine(line: string) {
    line != [] && forall k :: 0 <= k < |line| ==> IsDigit(line[k]) || IsSpace(line[k])
  }

  /** `[\d.]`. */
  predicate IsDotted(c: char) {
    IsDigit(c) || c == '.'
  }

  /** Length of the run of `[\d.]` characters starting at `i`. */
  function DottedRun(s: string, i: nat): (n: nat)
    requires i <= |s|
    ensures i + n <= |s|
    ensures forall k :: i <= k < i + n ==> IsDotted(s[k])
    ensures i + n < |s| ==> !IsDotted(s[i + n])
    decreases |s| - i
  {
    if i < |s| && IsDotted(s[i]) then 1 + DottedRun(s, i + 1) else 0
  }

  /** The word "from" starts at position `k` of `line`, spelled out character by character. */
  predicate FromAt(line: string, k: nat) {
    k + 4 <= |line| && line[k] == 'f' && line[k + 1] == 'r' && line[k + 2] == 'o' && line[k + 3] == 'm'
  }

  /** `FromAt` is `OccursAt` for the word "from". */
  lemma FromAtOccurs(line: string, k: nat)
    ensures FromAt(line, k) <==> OccursAt(line, "from", k)
  {
    if FromAt(line, k) {
      assert line[k..k + 4] == "from";
    }
  }

  /**
   * `^\s*([\d.]+)\s+from` matches `line` with the address taking `n` characters and the
   * gap before "from" taking `w`, after the leading whitespace.
   */
  predicate NextHopMatch(line: string, n: nat, w: nat) {
    var s0 := SpaceRun(line, 0);
    0 < n && 0 < w && s0 + n + w <= |line|
    && (forall k :: s0 <= k < s0 + n ==> IsDotted(line[k]))
    && (forall k :: s0 + n <= k < s0 + n + w ==> IsSpace(line[k]))
    && FromAt(line, s0 + n + w)
  }

  /** The address a next-hop line names: group 1 of `^\s*([\d.]+)\s+from`. */
  function NextHopOf(line: string): (r: Option<string>)
    ensures r.Some? ==> r.value != [] && forall k :: 0 <= k < |r.value| ==> IsDotted(r.value[k])
  {
    var s0 := SpaceRun(line, 0);
    var n := DottedRun(line, s0);
    NextHopWith(line, s0, n, SpaceRun(line, s0 + n))
  }

  /** The address when the leading whitespace, the address and the gap take `s0`, `n` and `w`. */
  function NextHopWith(line: string, s0: nat, n: nat, w: nat): Option<string>
    requires s0 + n <= |line|
  {
    if n > 0 && w > 0 && FromAt(line, s0 + n + w) then Some(line[s0..s0 + n]) else None
  }

  /** A run of exactly `n` dotted characters is what `DottedRun` measures. */
  lemma {:induction false} DottedRunExact(s: string, i: nat, n: nat)
    requires i + n <= |s|
    requires forall k :: i <= k < i + n ==> IsDotted(s[k])
    requires i + n == |s| || !IsDotted(s[i + n])
    ensures DottedRun(s, i) == n
    decreases n
  {
    if n > 0 {
      DottedRunExact(s, i + 1, n - 1);
    }
  }

  /** A run of exactly `n` whitespace characters is what `SpaceRun` measures. */
  lemma {:induction false} SpaceRunExact(s: string, i: nat, n: nat)
    requires i + n <= |s|
    requires forall k :: i <= k < i + n ==> IsSpace(s[k])
    requires i + n == |s| || !IsSpace(s[i + n])
    ensures SpaceRun(s, i) == n
    decreases n
  {
    if n > 0 {
      SpaceRunExact(s, i + 1, n - 1);
    }
  }

  /** When `NextHopOf` finds an address, the pattern matches with that address. */
  lemma NextHopOfSound(line: string)
    requires NextHopOf(line).Some?
    ensures NextHopMatch(line, |NextHopOf(line).value|, SpaceRun(line, SpaceRun(line, 0) + |NextHopOf(line).value|))
  {
    var s0 := SpaceRun(line, 0);
    var n := DottedRun(line, s0);
    var w := SpaceRun(line, s0 + n);
    assert NextHopOf(line) == NextHopWith(line, s0, n, w);
    assert NextHopMatch(line, n, w);
  }

  /** When the pattern matches, `NextHopOf` finds the address the match captures: the greedy
      runs are the only way the pattern can match. */
  lemma NextHopOfComplete(line: string, n: nat, w: nat)
    requires NextHopMatch(line, n, w)
    ensures NextHopOf(line) == Some(line[SpaceRun(line, 0)..SpaceRun(line, 0) + n])
  {
    MatchAddress(line, n, w);
    MatchGap(line, n, w);
    NextHopOfRuns(line, n, w);
  }

  /** `NextHopOf` when the address run and the gap after it measure `n` and `w`. */
  lemma NextHopOfRuns(line: string, n: nat, w: nat)
    requires n > 0 && w > 0 && DottedRun(line, SpaceRun(line, 0)) == n && SpaceRun(line, SpaceRun(line, 0) + n) == w
    requires FromAt(line, SpaceRun(line, 0) + n + w)
    ensures NextHopOf(line) == Some(line[SpaceRun(line, 0)..SpaceRun(line, 0) + n])
  {
  }

  /** A match's address is the greedy run of `[\d.]` after the leading whitespace. */
  lemma MatchAddress(line: string, n: nat, w: nat)
    requires NextHopMatch(line, n, w)
    ensures DottedRun(line, SpaceRun(line, 0)) == n
  {
    var s0 := SpaceRun(line, 0);
    assert IsSpace(line[s0 + n]);
    DottedRunExact(line, s0, n);
  }

  /** A match's gap before "from" is the greedy run of whitespace after the address. */
  lemma MatchGap(line: string, n: nat, w: nat)
    requires NextHopMatch(line, n, w)
    ensures SpaceRun(line, SpaceRun(line, 0) + n) == w
  {
    SpaceRunExact(line, SpaceRun(line, 0) + n, w);
  }

  /**
   * `word\s+(\d+)` matches at `k`. Because `\s+` and `\d+` are greedy and no whitespace is
   * a digit, the match takes the whole whitespace run and then the whole digit run.
   */
  predicate NumberAt(line: string, word: string, k: nat) {
    OccursAt(line, word, k)
    && var a := k + |word|;
    SpaceRun(line, a) > 0 && DigitRun(line, a + SpaceRun(line, a)) > 0
  }

  /** `int(m.group(1))` for the match at `k`. */
  function NumberValueAt(line: string, word: string, k: nat): nat
    requires NumberAt(line, word, k)
  {
    var b := k + |word| + SpaceRun(line, k + |word|);
    DecimalValue(line[b..b + DigitRun(line, b)])
  }

  /** Where `re.search(word + r'\s+(\d+)', line)` matches, scanning from `i`. */
  function FindNumber(line: string, word: string, i: nat): (r: Option<nat>)
    requires i <= |line|
    ensures r.Some? ==> i <= r.value && NumberAt(line, word, r.value)
    ensures r.Some? ==> forall k :: i <= k < r.value ==> !NumberAt(line, word, k)
    ensures r.None? ==> forall k :: i <= k <= |line| ==> !NumberAt(line, word, k)
    decreases |line| - i
  {
    if i == |line| || i + |word| > |line| then None
    else if NumberAt(line, word, i) then Some(i)
    else FindNumber(line, word, i + 1)
  }

  /** The number after the leftmost `word\s+\d+` in `line`, if there is one. */
  function SearchNumber(line: string, word: string): (r: Option<int>)
    ensures r.Some? ==> r.value >= 0
  {
    match FindNumber(line, word, 0)
    case None => None
    case Some(k) => Some(NumberValueAt(line, word, k))
  }

  /** `SearchNumber` yields the number of the leftmost match, and nothing when there is none. */
  lemma SearchNumberMatches(line: string, word: string)
    ensures SearchNumber(line, word).Some? <==> exists k :: 0 <= k <= |line| && NumberAt(line, word, k)
    ensures forall k :: (0 <= k <= |line| && NumberAt(line, word, k)
                         && (forall j :: 0 <= j < k ==> !NumberAt(line, word, j)))
                         ==> SearchNumber(line, word) == Some(NumberValueAt(line, word, k) as int)
  {
    var r := FindNumber(line, word, 0);
    if r.Some? {
      assert 0 <= r.value <= |line| && NumberAt(line, word, r.value);
    }
  }

  /** The origin code an "Origin" line gives: IGP, then EGP, else incomplete. */
  function OriginCode(line: string): (r: string)
    ensures r in {"i", "e", "?"}
  {
    if Contains(line, "IGP") then "i" else if Contains(line, "EGP") then "e" else "?"
  }

  /** What an "Origin" line does to the current path. */
  function ApplyOrigin(p: BgpPath, line: string): (q: BgpPath)
    ensures q.origin == OriginCode(line)
    ensures q.best == (p.best || Contains(line, "best"))
    ensures q.localPref == (if SearchNumber(line, "localpref").Some? then SearchNumber(line, "localpref") else p.localPref)
    ensures q.med == (if SearchNumber(line, "metric").Some? then SearchNumber(line, "metric") else p.med)
    ensures q.(origin := p.origin, best := p.best, localPref := p.localPref, med := p.med) == p
  {
    var lp := SearchNumber(line, "localpref");
    var med := SearchNumber(line, "metric");
    p.(origin := OriginCode(line),
       best := p.best || Contains(line, "best"),
       localPref := if lp.Some? then lp else p.localPref,
       med := if med.Some? then med else p.med)
  }

  /** `line.replace('Community:', '').strip().split()`. */
  function CommunityTokens(line: string): (r: seq<string>)
    ensures forall k :: 0 <= k < |r| ==> r[k] != []
  {
    Words(Replace(line, "Community:", ""))
  }

  /** What every parsed path satisfies. */
  predicate WellFormed(p: BgpPath, prefix: string) {
    p.prefix == prefix
    && IsAsLine(p.asPath)
    && p.origin in {"i", "e", "?"}
    && (forall k :: 0 <= k < |p.nextHop| ==> IsDotted(p.nextHop[k]))
    && (p.localPref.Some? ==> p.localPref.value >= 0)
    && (p.med.Some? ==> p.med.value >= 0)
    && p.sourceRouter.None?
  }

  /** An attribute line: "Origin" and "Community:" are both applied when both occur. */
  function ApplyAttributes(p: BgpPath, line: string): (q: BgpPath)
    ensures q.prefix == p.prefix && q.asPath == p.asPath && q.nextHop == p.nextHop
    ensures Contains(line, "Community:") ==> q.communities == Some(CommunityTokens(line))
    ensures !Contains(line, "Community:") ==> q.communities == p.communities
    ensures Contains(line, "Origin") ==> q.origin == OriginCode(line)
    ensures !Contains(line, "Origin") ==> (q.origin == p.origin && q.best == p.best
      && q.localPref == p.localPref && q.med == p.med)
    ensures WellFormed(p, p.prefix) ==> WellFormed(q, p.prefix)
  {
    var p1 := if Contains(line, "Origin") then ApplyOrigin(p, line) else p;
    if Contains(line, "Community:") then p1.(communities := Some(CommunityTokens(line))) else p1
  }

  /** How the loop treats a stripped line, tested in the order the loop tests. */
  datatype LineKind =
    | PathsHeader
    | AsNumbers(text: string)
    | NextHopLine(addr: string)
    | OtherLine(text: string)

  /** What the classification guarantees about the text it keeps. */
  predicate KindWellFormed(k: LineKind) {
    (k.AsNumbers? ==> IsAsLine(k.text))
    && (k.NextHopLine? ==> forall j :: 0 <= j < |k.addr| ==> IsDotted(k.addr[j]))
  }

  function Classify(raw: string): (k: LineKind)
    ensures KindWellFormed(k)
    ensures k.PathsHeader? <==> Contains(Strip(raw), "Paths:")
    ensures k.AsNumbers? <==> IsAsLine(Strip(raw))
    ensures k.AsNumbers? ==> k.text == Strip(raw)
    ensures k.NextHopLine? ==> NextHopOf(Strip(raw)) == Some(k.addr)
    ensures k.OtherLine? ==> k.text == Strip(raw) && NextHopOf(k.text).None?
  {
    var line := Strip(raw);
    AsLineIsNotPathsLine(line);
    if Contains(line, "Paths:") then PathsHeader
    else if IsAsLine(line) then AsNumbers(line)
    else match NextHopOf(line)
      case Some(nh) => NextHopLine(nh)
      case None => OtherLine(line)
  }

  /** A line of AS numbers never mentions "Paths:" ('P' is neither a digit nor a space). */
  lemma AsLineIsNotPathsLine(line: string)
    ensures IsAsLine(line) ==> !Contains(line, "Paths:")
  {
    if IsAsLine(line) {
      forall k | 0 <= k <= |line| ensures !OccursAt(line, "Paths:", k) {
      if k + 6 <= |line| {
        assert line[k..k + 6][0] == line[k];
      }
      }
    }
  }

  function Classified(lines: seq<string>): (r: seq<LineKind>)
    ensures |r| == |lines| && forall k :: 0 <= k < |lines| ==> r[k] == Classify(lines[k])
  {
    seq(|lines|, k requires 0 <= k < |lines| => Classify(lines[k]))
  }

  /** The parser's variables between two lines. */
  datatype ParseState = ParseState(paths: seq<BgpPath>, current: Option<BgpPath>, inPaths: bool)

  /** The path under the cursor, as a list of zero or one. */
  function Pending(current: Option<BgpPath>): seq<BgpPath> {
    if current.Some? then [current.value] else []
  }

  /** The paths returned when the input ends in state `st`. */
  function Flush(st: ParseState): seq<BgpPath> {
    st.paths + Pending(st.current)
  }

  /** One iteration of the line loop. */
  function Step(st: ParseState, prefix: string, line: LineKind): (r: ParseState)
    ensures r.inPaths == (st.inPaths || line.PathsHeader?)
    ensures !st.inPaths && !line.PathsHeader? ==> r == st
    ensures st.inPaths && line.AsNumbers? ==>
              r.paths == st.paths + Pending(st.current) && r.current == Some(NewPath(prefix, line.text))
    ensures !(st.inPaths && line.AsNumbers?) ==> r.paths == st.paths
    ensures st.inPaths && st.current.None? && !line.AsNumbers? ==> r == st
    ensures st.inPaths && st.current.Some? && line.NextHopLine? ==>
              r.current == Some(st.current.value.(nextHop := line.addr))
    ensures st.inPaths && st.current.Some? && line.OtherLine? ==>
              r.current == Some(ApplyAttributes(st.current.value, line.text))
    ensures st.inPaths && line.PathsHeader? ==> r == st
  {
    if line.PathsHeader? then st.(inPaths := true)
    else if !st.inPaths then st
    else if line.AsNumbers? then ParseState(st.paths + Pending(st.current), Some(NewPath(prefix, line.text)), true)
    else if st.current.None? then st
    else if line.NextHopLine? then st.(current := Some(st.current.value.(nextHop := line.addr)))
    else st.(current := Some(ApplyAttributes(st.current.value, line.text)))
  }

  /** The state after the lines from `i` on. */
  function ParseFrom(st: ParseState, prefix: string, lines: seq<LineKind>, i: nat): ParseState
    requires i <= |lines|
    decreases |lines| - i
  {
    if i == |lines| then st else ParseFrom(Step(st, prefix, lines[i]), prefix, lines, i + 1)
  }

  /** `_parse_cisco_bgp_output(output, prefix)`: the paths in output order. */
  function ParseCisco(output: string, prefix: string): (r: seq<BgpPath>)
    ensures |r| == |PathsSection(Classified(SplitOn(output, '\n')))|
  {
    LinesAsPaths(Classified(SplitOn(output, '\n')), prefix);
    Flush(ParseFrom(ParseState([], None, false), prefix, Classified(SplitOn(output, '\n')), 0))
  }

  method ParseCiscoBgpOutput(output: string, prefix: string) returns (paths: seq<BgpPath>)
    ensures paths == ParseCisco(output, prefix)
  {
    paths := [];
    var lines := SplitOn(output, '\n');
    ghost var kinds := Classified(lines);
    var current: Option<BgpPath> := None;
    var inPaths := false;
    var i := 0;
    while i < |lines|
      invariant i <= |lines|
      invariant ParseFrom(ParseState([], None, false), prefix, kinds, 0)
        == ParseFrom(ParseState(paths, current, inPaths), prefix, kinds, i)
    {
      paths, current, inPaths := ParseLine(paths, current, inPaths, prefix, lines[i]);
      i := i + 1;
    }
    assert ParseFrom(ParseState(paths, current, inPaths), prefix, kinds, i) == ParseState(paths, current, inPaths);
    if current.Some? {
      paths := paths + [current.value];
    }
    assert paths == Flush(ParseFrom(ParseState([], None, false), prefix, kinds, 0));
  }

  /** The body of the line loop. */
  method ParseLine(paths: seq<BgpPath>, current: Option<BgpPath>, inPaths: bool, prefix: string, raw: string)
    returns (paths': seq<BgpPath>, current': Option<BgpPath>, inPaths': bool)
    ensures ParseState(paths', current', inPaths') == Step(ParseState(paths, current, inPaths), prefix, Classify(raw))
  {
    paths', current', inPaths' := paths, current, inPaths;
    var line := Classify(raw);
    if line.PathsHeader? {
      inPaths' := true;
      return;
    }
    if !inPaths {
      return;
    }
    if line.AsNumbers? {
      if current.Some? {
        paths' := paths + [current.value];
      }
      current' := Some(NewPath(prefix, line.text));
      return;
    }
    if line.NextHopLine? && current.Some? {
      current' := Some(current.value.(nextHop := line.addr));
      return;
    }
    if current.Some? && line.OtherLine? {
      current' := Some(ApplyAttributes(current.value, line.text));
    }
  }

  // ----- What the parser yields -----

  /** The AS-path texts of a list of paths. */
  function AsPaths(ps: seq<BgpPath>): (r: seq<string>)
    ensures |r| == |ps|
  {
    if ps == [] then [] else [ps[0].asPath] + AsPaths(ps[1..])
  }

  lemma {:induction false} AsPathsConcat(ps: seq<BgpPath>, qs: seq<BgpPath>)
    ensures AsPaths(ps + qs) == AsPaths(ps) + AsPaths(qs)
  {
    if ps == [] {
      assert ps + qs == qs;
    } else {
      assert (ps + qs)[1..] == ps[1..] + qs;
      AsPathsConcat(ps[1..], qs);
    }
  }

  /** The texts of the AS-number lines from `i` on, in order. */
  function AsLinesFrom(lines: seq<LineKind>, i: nat): seq<string>
    requires i <= |lines|
    decreases |lines| - i
  {
    if i == |lines| then []
    else (if lines[i].AsNumbers? then [lines[i].text] else []) + AsLinesFrom(lines, i + 1)
  }

  /** The first "Paths:" line at or after `i`. */
  function FirstPathsLine(lines: seq<LineKind>, i: nat): (r: Option<nat>)
    requires i <= |lines|
    ensures r.Some? ==> i <= r.value < |lines| && lines[r.value].PathsHeader?
    ensures r.Some? ==> forall k :: i <= k < r.value ==> !lines[k].PathsHeader?
    ensures r.None? ==> forall k :: i <= k < |lines| ==> !lines[k].PathsHeader?
    decreases |lines| - i
  {
    if i == |lines| then None
    else if lines[i].PathsHeader? then Some(i)
    else FirstPathsLine(lines, i + 1)
  }

  /** Once the flag is up, an AS-number line adds one path, and nothing else does. */
  lemma StepAsPaths(st: ParseState, prefix: string, line: LineKind)
    requires st.inPaths
    ensures Step(st, prefix, line).inPaths
    ensures AsPaths(Flush(Step(st, prefix, line)))
      == AsPaths(Flush(st)) + (if line.AsNumbers? then [line.text] else [])
  {
    var next := Step(st, prefix, line);
    if line.AsNumbers? {
      var p := NewPath(prefix, line.text);
      assert Flush(next) == Flush(st) + [p];
      AsPathsConcat(Flush(st), [p]);
      assert AsPaths([p]) == [line.text];
    } else {
      assert next.paths == st.paths;
      assert AsPaths(Pending(next.current)) == AsPaths(Pending(st.current));
      AsPathsConcat(st.paths, Pending(st.current));
      AsPathsConcat(next.paths, Pending(next.current));
    }
  }

  lemma {:induction false} AsPathsInPaths(st: ParseState, prefix: string, lines: seq<LineKind>, i: nat)
    requires i <= |lines| && st.inPaths
    ensures AsPaths(Flush(ParseFrom(st, prefix, lines, i))) == AsPaths(Flush(st)) + AsLinesFrom(lines, i)
    decreases |lines| - i
  {
    if i < |lines| {
      var next := Step(st, prefix, lines[i]);
      var a, x, rest := AsPaths(Flush(st)), (if lines[i].AsNumbers? then [lines[i].text] else []), AsLinesFrom(lines, i + 1);
      calc {
        AsPaths(Flush(ParseFrom(st, prefix, lines, i)));
        AsPaths(Flush(ParseFrom(next, prefix, lines, i + 1)));
        { AsPathsInPaths(next, prefix, lines, i + 1); }
        AsPaths(Flush(next)) + rest;
        { StepAsPaths(st, prefix, lines[i]); }
        (a + x) + rest;
        a + (x + rest);
        a + AsLinesFrom(lines, i);
      }
    }
  }

  /** Before the flag is up, lines are skipped until the first "Paths:" line. */
  lemma {:induction false} SkipToPaths(st: ParseState, prefix: string, lines: seq<LineKind>, i: nat)
    requires i <= |lines| && !st.inPaths
    ensures ParseFrom(st, prefix, lines, i) == match FirstPathsLine(lines, i)
      case None => st
      case Some(j) => ParseFrom(st.(inPaths := true), prefix, lines, j + 1)
    decreases |lines| - i
  {
    if i < |lines| && !lines[i].PathsHeader? {
      SkipToPaths(st, prefix, lines, i + 1);
    }
  }

  /** The AS-number lines after the first "Paths:" line, or none without one. */
  function PathsSection(lines: seq<LineKind>): seq<string> {
    match FirstPathsLine(lines, 0)
    case None => []
    case Some(j) => AsLinesFrom(lines, j + 1)
  }

  /**
   * The paths come one per line of AS numbers after the first "Paths:" line, in order,
   * each carrying that line as its AS path; without a "Paths:" line there are none.
   */
  lemma ParsedAsPaths(output: string, prefix: string)
    ensures AsPaths(ParseCisco(output, prefix)) == PathsSection(Classified(SplitOn(output, '\n')))
  {
    LinesAsPaths(Classified(SplitOn(output, '\n')), prefix);
  }

  /** `ParsedAsPaths` over the classified lines. */
  lemma LinesAsPaths(lines: seq<LineKind>, prefix: string)
    ensures AsPaths(Flush(ParseFrom(ParseState([], None, false), prefix, lines, 0))) == PathsSection(lines)
  {
    var st := ParseState([], None, false);
    SkipToPaths(st, prefix, lines, 0);
    match FirstPathsLine(lines, 0)
    case None =>
    case Some(j) =>
      AsPathsInPaths(st.(inPaths := true), prefix, lines, j + 1);
  }

  predicate StateWellFormed(st: ParseState, prefix: string) {
    (forall k :: 0 <= k < |st.paths| ==> WellFormed(st.paths[k], prefix))
    && (st.current.Some? ==> WellFormed(st.current.value, prefix))
  }

  lemma {:induction false} ParseFromWellFormed(st: ParseState, prefix: string, lines: seq<LineKind>, i: nat)
    requires i <= |lines| && StateWellFormed(st, prefix)
    requires forall k :: 0 <= k < |lines| ==> KindWellFormed(lines[k])
    ensures StateWellFormed(ParseFrom(st, prefix, lines, i), prefix)
    decreases |lines| - i
  {
    if i < |lines| {
      ParseFromWellFormed(Step(st, prefix, lines[i]), prefix, lines, i + 1);
    }
  }

  /**
   * Every path carries the caller's prefix and a line of AS numbers; its origin is one of
   * i, e and ?; its next hop is empty or a dotted address; the numbers are non-negative.
   */
  lemma ParsedPathsWellFormed(output: string, prefix: string)
    ensures forall p :: p in ParseCisco(output, prefix) ==> WellFormed(p, prefix)
  {
    var lines := Classified(SplitOn(output, '\n'));
    var end := ParseFrom(ParseState([], None, false), prefix, lines, 0);
    ParseFromWellFormed(ParseState([], None, false), prefix, lines, 0);
    var out := Flush(end);
    forall p | p in out ensures WellFormed(p, prefix) {
      var k :| 0 <= k < |out| && out[k] == p;
      if k >= |end.paths| {
        assert p == end.current.value;
      }
    }
  }
}
