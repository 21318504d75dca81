/**
 The structural read of a FASTPATH text config: which lines open a section,
 which `exit` closes which block, and which lines a section's body holds.
 Every notion is a function of the file's lines; the methods are the code's
 loops and are proved to compute it.
 */
module TextCfg {
  import opened Wrappers
  import opened Text

  // ---------------------------------------------------------------------
  // Lines
  // ---------------------------------------------------------------------

  /** A line as the structural walk looks at it. */
  function Trimmed(line: string): string {
    TrimSpace(TrimCR(line))
  }

  predicate BlockSectionLabel(t: string) {
    t == "vlan database" || t == "configure" || t == "lineconfig" || "interface " <= t
  }

  predicate SectionStarts(t: string) {
    || "vlan database" <= t
    || "configure" <= t
    || "lineconfig" <= t
    || "snmp-server " <= t
    || "ip " <= t
    || "no sntp client mode" <= t
    || "sntp " <= t
    || "users passwd" <= t
    || "authentication login" <= t
    || "spanning-tree configuration name" <= t
    || "voip " <= t
    || "interface " <= t
    || "network mgmt_" <= t
  }

  /** What a line means to the structural walk. */
  datatype LineKind =
    | Skip   // blank, or a "!" annotation
    | Exit   // closes the innermost open block
    | Block  // opens a block that an "exit" closes
    | Flat   // opens a section that no "exit" closes
    | Plain

  function KindOf(line: string): LineKind {
    var t := Trimmed(line);
    if t == "" || "!" <= t then Skip
    else if t == "exit" then Exit
    else if BlockSectionLabel(t) then Block
    else if SectionStarts(t) then Flat
    else Plain
  }

  predicate IsLabel(line: string) {
    KindOf(line).Block? || KindOf(line).Flat?
  }

  predicate IsInterface(line: string) {
    "interface " <= Trimmed(line)
  }

  lemma InterfaceIsBlock(line: string)
    requires IsInterface(line)
    ensures KindOf(line).Block?
  {
    assert Trimmed(line)[0] == 'i' && Trimmed(line)[1] == 'n';
  }

  // ---------------------------------------------------------------------
  // Exit matching
  // ---------------------------------------------------------------------

  /** The result of scanning lines for the exit of a block opened before them. */
  datatype Scan = Found(at: nat) | Open(depth: nat)

  function Later(scan: Scan, lag: nat): Scan {
    match scan
    case Found(at) => Found(at + lag)
    case Open(depth) => Open(depth)
  }

  /** Scans for the exit that closes a block with `depth` blocks open inside it. */
  function ScanExit(lines: seq<string>, depth: nat): Scan {
    if lines == [] then Open(depth)
    else
      match KindOf(lines[0])
      case Exit => if depth == 0 then Found(0) else Later(ScanExit(lines[1..], depth - 1), 1)
      case Block => Later(ScanExit(lines[1..], depth + 1), 1)
      case _ => Later(ScanExit(lines[1..], depth), 1)
  }

  /** The exit line of the block whose label is line i. */
  function ExitOf(lines: seq<string>, i: nat): Option<nat>
    requires i < |lines|
  {
    if KindOf(lines[i]).Block? then
      match ScanExit(lines[i + 1..], 0)
      case Found(at) => Some(i + 1 + at)
      case Open(_) => None
    else None
  }

  lemma {:induction false} ScanBound(lines: seq<string>, depth: nat)
    ensures ScanExit(lines, depth).Found? ==>
              var at := ScanExit(lines, depth).at;
              at < |lines| && KindOf(lines[at]).Exit?
  {
    hide KindOf;
    if lines != [] {
      ScanBound(lines[1..], depth + 1);
      ScanBound(lines[1..], depth);
      if depth > 0 { ScanBound(lines[1..], depth - 1); }
    }
  }

  /** Scanning two stretches of lines is scanning one after the other. */
  lemma {:induction false} ScanConcat(a: seq<string>, b: seq<string>, depth: nat)
    ensures ScanExit(a + b, depth)
         == match ScanExit(a, depth)
            case Found(at) => Found(at)
            case Open(left) => Later(ScanExit(b, left), |a|)
  {
    hide KindOf;
    if a == [] {
      assert a + b == b;
    } else {
      assert (a + b)[1..] == a[1..] + b;
      match KindOf(a[0])
      case Exit => if depth > 0 { ScanConcat(a[1..], b, depth - 1); }
      case Block => ScanConcat(a[1..], b, depth + 1);
      case _ => ScanConcat(a[1..], b, depth);
    }
  }

  lemma ExitOfBound(lines: seq<string>, i: nat)
    requires i < |lines| && ExitOf(lines, i).Some?
    ensures i < ExitOf(lines, i).value < |lines|
    ensures KindOf(lines[ExitOf(lines, i).value]).Exit?
  {
    hide KindOf, ScanExit;
    ScanBound(lines[i + 1..], 0);
  }

  /** Where the block labelled at line a stands after the first n lines. */
  function Standing(lines: seq<string>, a: nat, n: nat): Scan
    requires a < n <= |lines|
  {
    ScanExit(lines[a + 1..n], 0)
  }

  lemma StandingStep(lines: seq<string>, a: nat, n: nat)
    requires a < n < |lines|
    ensures Standing(lines, a, n + 1)
         == match Standing(lines, a, n)
            case Found(at) => Found(at)
            case Open(d) =>
              match KindOf(lines[n])
              case Exit => if d == 0 then Found(n - a - 1) else Open(d - 1)
              case Block => Open(d + 1)
              case _ => Open(d)
  {
    hide KindOf;
    assert lines[a + 1..n + 1] == lines[a + 1..n] + [lines[n]];
    ScanConcat(lines[a + 1..n], [lines[n]], 0);
    assert [lines[n]][1..] == [];
  }

  /** The block at line a is recorded: paired, or on the stack below the blocks open inside it. */
  ghost predicate Recorded(lines: seq<string>, n: nat, stack: seq<nat>, pairs: map<nat, nat>, a: nat)
    requires a < n <= |lines|
  {
    match Standing(lines, a, n)
    case Found(at) => a in pairs && pairs[a] == a + 1 + at
    case Open(d) => a !in pairs && d < |stack| && stack[|stack| - 1 - d] == a
  }

  ghost predicate Stacked(lines: seq<string>, n: nat, stack: seq<nat>, k: nat)
    requires k < |stack| && stack[k] < n <= |lines|
  {
    Standing(lines, stack[k], n) == Open(|stack| - 1 - k)
  }

  ghost predicate StackInv(lines: seq<string>, n: nat, stack: seq<nat>, pairs: map<nat, nat>)
    requires n <= |lines|
  {
    && (forall a: nat :: a < n && KindOf(lines[a]).Block? ==> Recorded(lines, n, stack, pairs, a))
    && (forall a: nat :: a in pairs ==> a < n && KindOf(lines[a]).Block?)
    && (forall k: nat :: k < |stack| ==>
          stack[k] < n && KindOf(lines[stack[k]]).Block? && Stacked(lines, n, stack, k))
  }

  ghost predicate PairStep(kind: LineKind, n: nat, stack: seq<nat>, pairs: map<nat, nat>,
                           stack': seq<nat>, pairs': map<nat, nat>)
  {
    match kind
    case Exit =>
      if |stack| > 0 then stack' == stack[..|stack| - 1] && pairs' == pairs[stack[|stack| - 1] := n]
      else stack' == stack && pairs' == pairs
    case Block => stack' == stack + [n] && pairs' == pairs
    case _ => stack' == stack && pairs' == pairs
  }

  lemma RecordedStep(lines: seq<string>, n: nat, stack: seq<nat>, pairs: map<nat, nat>,
                     stack': seq<nat>, pairs': map<nat, nat>, a: nat)
    requires n < |lines| && StackInv(lines, n, stack, pairs)
    requires a <= n && KindOf(lines[a]).Block?
    requires PairStep(KindOf(lines[n]), n, stack, pairs, stack', pairs')
    ensures Recorded(lines, n + 1, stack', pairs', a)
  {
    hide KindOf;
    if a < n {
      assert Recorded(lines, n, stack, pairs, a);
      StandingStep(lines, a, n);
      assert |stack| > 0 ==> Stacked(lines, n, stack, |stack| - 1);
      hide Standing;
    } else {
      assert lines[n + 1..n + 1] == [];
    }
  }

  lemma StackedStep(lines: seq<string>, n: nat, stack: seq<nat>, pairs: map<nat, nat>,
                    stack': seq<nat>, pairs': map<nat, nat>, k: nat)
    requires n < |lines| && StackInv(lines, n, stack, pairs)
    requires PairStep(KindOf(lines[n]), n, stack, pairs, stack', pairs')
    requires k < |stack'|
    ensures stack'[k] <= n && KindOf(lines[stack'[k]]).Block? && Stacked(lines, n + 1, stack', k)
  {
    hide KindOf;
    if k < |stack| {
      assert Stacked(lines, n, stack, k);
      StandingStep(lines, stack[k], n);
      hide Standing;
    } else {
      assert lines[n + 1..n + 1] == [];
    }
  }

  /** Matches block labels to their exits with a stack, in one pass. */
  method PairSectionExits(lines: seq<string>) returns (pairs: map<nat, nat>)
    ensures forall i: nat :: i in pairs <==> i < |lines| && ExitOf(lines, i).Some?
    ensures forall i: nat :: i in pairs ==> pairs[i] == ExitOf(lines, i).value
  {
    hide KindOf, Recorded, Stacked, ScanExit;
    pairs := map[];
    var stack: seq<nat> := [];
    for i := 0 to |lines|
      invariant StackInv(lines, i, stack, pairs)
    {
      ghost var stack0, pairs0 := stack, pairs;
      match KindOf(lines[i]) {
        case Exit =>
          if |stack| > 0 {
            assert Stacked(lines, i, stack, |stack| - 1);
            pairs := pairs[stack[|stack| - 1] := i];
            stack := stack[..|stack| - 1];
          }
        case Block =>
          stack := stack + [i];
        case _ =>
      }
      forall a: nat | a < i + 1 && KindOf(lines[a]).Block?
        ensures Recorded(lines, i + 1, stack, pairs, a)
      {
        RecordedStep(lines, i, stack0, pairs0, stack, pairs, a);
      }
      forall k: nat | k < |stack|
        ensures stack[k] < i + 1 && KindOf(lines[stack[k]]).Block? && Stacked(lines, i + 1, stack, k)
      {
        StackedStep(lines, i, stack0, pairs0, stack, pairs, k);
      }
    }
    forall i: nat | i < |lines| && KindOf(lines[i]).Block?
      ensures i in pairs <==> ExitOf(lines, i).Some?
      ensures i in pairs ==> pairs[i] == ExitOf(lines, i).value
    {
      RecordedIsExit(lines, stack, pairs, i);
    }
  }

  lemma RecordedIsExit(lines: seq<string>, stack: seq<nat>, pairs: map<nat, nat>, i: nat)
    requires i < |lines| && KindOf(lines[i]).Block? && Recorded(lines, |lines|, stack, pairs, i)
    ensures i in pairs <==> ExitOf(lines, i).Some?
    ensures i in pairs ==> pairs[i] == ExitOf(lines, i).value
  {
    hide KindOf, ScanExit;
    assert lines[i + 1..|lines|] == lines[i + 1..];
  }

  // ---------------------------------------------------------------------
  // Sections
  // ---------------------------------------------------------------------

  /** One section, with the inclusive line span of its editable body. */
  datatype Section = Section(name: string, labelLine: nat, bodyStart: int, bodyEnd: int)

  /** The number of lines before the first interface label. */
  function BeforeInterface(lines: seq<string>): (n: nat)
    ensures n <= |lines|
    ensures n < |lines| ==> IsInterface(lines[n])
    ensures forall k :: 0 <= k < n ==> !IsInterface(lines[k])
  {
    hide IsInterface;
    if lines == [] || IsInterface(lines[0]) then 0 else 1 + BeforeInterface(lines[1..])
  }

  /** The number of lines before the first section label. */
  function BeforeLabel(lines: seq<string>): (n: nat)
    ensures n <= |lines|
    ensures n < |lines| ==> IsLabel(lines[n])
    ensures forall k :: 0 <= k < n ==> !IsLabel(lines[k])
  {
    hide IsLabel;
    if lines == [] || IsLabel(lines[0]) then 0 else 1 + BeforeLabel(lines[1..])
  }

  /**
   The line after the editable body of the section labelled at line i: its exit,
   or the first interface label in front of that exit, or for a section that no
   exit closes the next section label.
   */
  function RegionEnd(lines: seq<string>, i: nat): (end: nat)
    requires i < |lines|
    ensures i < end <= |lines|
  {
    hide KindOf, BeforeInterface, BeforeLabel, ScanExit;
    match ExitOf(lines, i)
    case Some(e) => ExitOfBound(lines, i); i + 1 + BeforeInterface(lines[i + 1..e])
    case None => i + 1 + BeforeLabel(lines[i + 1..])
  }

  function SectionAt(lines: seq<string>, i: nat): Section
    requires i < |lines|
  {
    Section(Trimmed(lines[i]), i, i + 1, RegionEnd(lines, i) - 1)
  }

  /** The label lines among the first n lines, in file order. */
  function LabelLines(lines: seq<string>, n: nat): (labels: seq<nat>)
    requires n <= |lines|
    ensures forall k :: 0 <= k < |labels| ==> labels[k] < n
  {
    hide IsLabel;
    if n == 0 then []
    else
      var before := LabelLines(lines, n - 1);
      if IsLabel(lines[n - 1]) then before + [n - 1] else before
  }

  /** The label lines are exactly the lines that are labels, in ascending order. */
  lemma {:induction false} LabelLinesAscend(lines: seq<string>, n: nat)
    requires n <= |lines|
    ensures forall k :: 0 <= k < |LabelLines(lines, n)| ==> IsLabel(lines[LabelLines(lines, n)[k]])
    ensures forall i :: 0 <= i < n && IsLabel(lines[i]) ==> i in LabelLines(lines, n)
    ensures forall k, l :: 0 <= k < l < |LabelLines(lines, n)| ==> LabelLines(lines, n)[k] < LabelLines(lines, n)[l]
  {
    hide IsLabel;
    if n > 0 {
      LabelLinesAscend(lines, n - 1);
      forall i | 0 <= i < n && IsLabel(lines[i])
        ensures i in LabelLines(lines, n)
      {
        if i < n - 1 {
          assert i in LabelLines(lines, n - 1);
        } else {
          assert LabelLines(lines, n)[|LabelLines(lines, n)| - 1] == n - 1;
        }
      }
    }
  }

  function Sections(lines: seq<string>): seq<Section> {
    var labels := LabelLines(lines, |lines|);
    seq(|labels|, k requires 0 <= k < |labels| => SectionAt(lines, labels[k]))
  }

  /** The first line that labels a section with this label. */
  function LabelLine(lines: seq<string>, name: string): (r: Option<nat>)
    ensures r.Some? ==> r.value < |lines| && IsLabel(lines[r.value]) && Trimmed(lines[r.value]) == name
    ensures forall k :: 0 <= k < (if r.Some? then r.value else |lines|) ==>
              !(IsLabel(lines[k]) && Trimmed(lines[k]) == name)
  {
    hide IsLabel, Trimmed;
    if lines == [] then None
    else if IsLabel(lines[0]) && Trimmed(lines[0]) == name then Some(0)
    else
      match LabelLine(lines[1..], name)
      case None => None
      case Some(k) => Some(k + 1)
  }

  datatype ParseError = EmptyConfig

  /** A parsed config; the bytes stay the authority. */
  datatype TextConfig = TextConfig(raw: string, header: string, sections: seq<Section>)

  function LinesOf(raw: string): seq<string> {
    Split(raw, '\n')
  }

  function Parsed(raw: string): TextConfig {
    TextConfig(raw, TrimCR(LinesOf(raw)[0]), Sections(LinesOf(raw)))
  }

  lemma LabelKinds(line: string)
    ensures IsLabel(line) <==>
              var t := Trimmed(line); t != "" && !("!" <= t) && SectionStarts(t)
  {
    var t := Trimmed(line);
    if SectionStarts(t) {
      assert t[0] != 'e';
    }
  }

  /** The structural walk, then the spans. */
  method ParseTextConfig(raw: string) returns (r: Result<TextConfig, ParseError>)
    ensures r == if raw == "" then Err(EmptyConfig) else Ok(Parsed(raw))
  {
    hide IsLabel, Trimmed, TrimCR, Split, KindOf;
    if raw == "" {
      return Err(EmptyConfig);
    }
    var lines := Split(raw, '\n');
    var sections: seq<Section> := [];
    for i := 0 to |lines|
      invariant |sections| == |LabelLines(lines, i)|
      invariant forall k :: 0 <= k < |sections| ==>
                  var at := LabelLines(lines, i)[k]; sections[k] == Section(Trimmed(lines[at]), at, 0, 0)
    {
      if IsLabel(lines[i]) {
        sections := sections + [Section(Trimmed(lines[i]), i, 0, 0)];
      }
    }
    sections := ComputeSectionSpans(sections, lines);
    r := Ok(TextConfig(raw, TrimCR(lines[0]), sections));
  }

  method FirstNestedInterface(lines: seq<string>, from: nat, to: nat) returns (at: int)
    requires from <= to <= |lines|
    ensures var n := BeforeInterface(lines[from..to]);
            at == if n == to - from then -1 else from + n
  {
    hide IsInterface, BeforeInterface;
    for j := from to to
      invariant forall k :: from <= k < j ==> !IsInterface(lines[k])
    {
      if IsInterface(lines[j]) {
        assert IsInterface(lines[from..to][j - from]);
        return j;
      }
    }
    return -1;
  }

  method ComputeSectionSpans(open: seq<Section>, lines: seq<string>) returns (sections: seq<Section>)
    requires |open| == |LabelLines(lines, |lines|)|
    requires forall k :: 0 <= k < |open| ==>
               var at := LabelLines(lines, |lines|)[k]; open[k] == Section(Trimmed(lines[at]), at, 0, 0)
    ensures sections == Sections(lines)
  {
    hide KindOf, ScanExit, ExitOf, IsInterface, IsLabel, Trimmed, LabelLines, BeforeLabel, BeforeInterface,
      RegionEnd, SectionAt;
    ghost var labels := LabelLines(lines, |lines|);
    var exits := PairSectionExits(lines);
    sections := open;
    for k := 0 to |open|
      invariant |sections| == |open|
      invariant forall l :: 0 <= l < k ==> sections[l] == SectionAt(lines, labels[l])
      invariant forall l :: k <= l < |open| ==> sections[l] == open[l]
    {
      var s := sections[k];
      s := s.(bodyStart := s.labelLine + 1);
      RegionEndCases(lines, labels, k);
      if s.labelLine in exits {
        var e := exits[s.labelLine];
        s := s.(bodyEnd := e - 1);
        var n := FirstNestedInterface(lines, s.labelLine + 1, e);
        if n >= 0 {
          s := s.(bodyEnd := n - 1);
        }
      } else {
        s := s.(bodyEnd := |lines| - 1);
        if k + 1 < |sections| {
          s := s.(bodyEnd := sections[k + 1].labelLine - 1);
        }
      }
      sections := sections[k := s];
    }
  }

  /** RegionEnd in the terms the span computation uses. */
  lemma RegionEndCases(lines: seq<string>, labels: seq<nat>, k: nat)
    requires labels == LabelLines(lines, |lines|) && k < |labels|
    ensures SectionAt(lines, labels[k])
         == Section(Trimmed(lines[labels[k]]), labels[k], labels[k] + 1, RegionEnd(lines, labels[k]) - 1)
    ensures match ExitOf(lines, labels[k])
            case Some(e) =>
              && labels[k] < e < |lines|
              && RegionEnd(lines, labels[k]) == labels[k] + 1 + BeforeInterface(lines[labels[k] + 1..e])
            case None =>
              RegionEnd(lines, labels[k]) == if k + 1 < |labels| then labels[k + 1] else |lines|
  {
    hide ExitOf, IsLabel, BeforeLabel, LabelLines, BeforeInterface, Trimmed, KindOf;
    var i := labels[k];
    LabelLinesAscend(lines, |lines|);
    if ExitOf(lines, i).Some? {
      ExitOfBound(lines, i);
    } else if k + 1 < |labels| {
      NextLabelLine(lines, labels, k);
    } else {
      var rest := lines[i + 1..];
      forall j | i < j < |lines|
        ensures !IsLabel(lines[j])
      {
        assert j !in labels;
      }
    }
  }

  lemma NextLabelLine(lines: seq<string>, labels: seq<nat>, k: nat)
    requires labels == LabelLines(lines, |lines|) && k + 1 < |labels|
    ensures labels[k] + 1 + BeforeLabel(lines[labels[k] + 1..]) == labels[k + 1]
  {
    hide IsLabel, BeforeLabel, LabelLines, KindOf;
    LabelLinesAscend(lines, |lines|);
    forall j | labels[k] < j < labels[k + 1]
      ensures !IsLabel(lines[j])
    {
      NotBetween(labels, k, j);
    }
    LabelBehind(lines, labels[k] + 1, labels[k + 1]);
  }

  /** The first label from a line on. */
  lemma LabelBehind(lines: seq<string>, from: nat, at: nat)
    requires from <= at < |lines| && IsLabel(lines[at]) && forall j :: from <= j < at ==> !IsLabel(lines[j])
    ensures from + BeforeLabel(lines[from..]) == at
  {
    hide IsLabel, BeforeLabel;
    var rest := lines[from..];
    assert |rest| == |lines| - from;
    assert forall k :: 0 <= k < |rest| ==> rest[k] == lines[from + k];
    BeforeLabelIs(rest, at - from);
  }

  lemma NotBetween(labels: seq<nat>, k: nat, j: nat)
    requires forall a, b :: 0 <= a < b < |labels| ==> labels[a] < labels[b]
    requires k + 1 < |labels| && labels[k] < j < labels[k + 1]
    ensures j !in labels
  {
    forall l | 0 <= l < |labels|
      ensures labels[l] != j
    {
      assert l < k || l == k || l == k + 1 || k + 1 < l;
    }
  }

  lemma BeforeLabelIs(lines: seq<string>, n: nat)
    requires n < |lines| && IsLabel(lines[n])
    requires forall k :: 0 <= k < n ==> !IsLabel(lines[k])
    ensures BeforeLabel(lines) == n
  {
    hide IsLabel, BeforeLabel;
    assert !(BeforeLabel(lines) < n);
  }

  /** The first section with the given label. */
  method FindSection(tc: TextConfig, name: string) returns (r: Option<Section>)
    requires tc == Parsed(tc.raw)
    ensures r == match LabelLine(LinesOf(tc.raw), name)
                 case None => None
                 case Some(i) => Some(SectionAt(LinesOf(tc.raw), i))
  {
    hide IsLabel, Trimmed, LabelLines, RegionEnd, LabelLine;
    LabelLinesAscend(LinesOf(tc.raw), |LinesOf(tc.raw)|);
    ghost var lines := LinesOf(tc.raw);
    ghost var labels := LabelLines(lines, |lines|);
    for k := 0 to |tc.sections|
      invariant forall l :: 0 <= l < k ==> Trimmed(lines[labels[l]]) != name
    {
      if tc.sections[k].name == name {
        return Some(tc.sections[k]);
      }
    }
    return None;
  }

  // ---------------------------------------------------------------------
  // Bodies
  // ---------------------------------------------------------------------

  /** The content lines of a stretch: everything but blanks, annotations and exits. */
  function Content(lines: seq<string>): seq<string> {
    if lines == [] then []
    else (if KindOf(lines[0]).Skip? || KindOf(lines[0]).Exit? then [] else [lines[0]]) + Content(lines[1..])
  }

  lemma {:induction false} ContentConcat(a: seq<string>, b: seq<string>)
    ensures Content(a + b) == Content(a) + Content(b)
  {
    hide KindOf;
    if a == [] {
      assert a + b == b;
    } else {
      assert (a + b)[1..] == a[1..] + b;
      ContentConcat(a[1..], b);
    }
  }

  /** The lines a body splice replaces. */
  function Region(lines: seq<string>, name: string): Option<seq<string>> {
    match LabelLine(lines, name)
    case None => None
    case Some(i) => Some(lines[i + 1..RegionEnd(lines, i)])
  }

  /** The content of the first section with this label. */
  function BodyOf(lines: seq<string>, name: string): Option<seq<string>> {
    match Region(lines, name)
    case None => None
    case Some(region) => Some(Content(region))
  }

  method SectionBody(tc: TextConfig, name: string) returns (r: Option<seq<string>>)
    requires tc == Parsed(tc.raw)
    ensures r == BodyOf(LinesOf(tc.raw), name)
  {
    hide RegionEnd, LabelLine, Trimmed, KindOf, Split, Sections;
    var found := FindSection(tc, name);
    if found.None? {
      return None;
    }
    var s := found.value;
    var lines := Split(tc.raw, '\n');
    var body: seq<string> := [];
    for j := s.bodyStart to s.bodyEnd + 1
      invariant body == Content(lines[s.bodyStart..j])
    {
      ContentConcat(lines[s.bodyStart..j], [lines[j]]);
      assert lines[s.bodyStart..j + 1] == lines[s.bodyStart..j] + [lines[j]];
      assert [lines[j]][1..] == [];
      if !(KindOf(lines[j]).Skip? || KindOf(lines[j]).Exit?) {
        body := body + [lines[j]];
      }
    }
    return Some(body);
  }

  // ---------------------------------------------------------------------
  // Canonical bytes
  // ---------------------------------------------------------------------

  predicate IsUptime(line: string) {
    "!System Up Time" <= TrimSpace(line)
  }

  lemma OneLine(line: string)
    ensures Canonical([line]) == if IsUptime(line) then [] else [line]
  {
    hide IsUptime;
    assert [line][1..] == [];
  }

  lemma TrimmedLine(line: string)
    requires line != "" && !IsSpace(line[0]) && !IsSpace(line[|line| - 1])
    ensures Canonical([line]) == if "!System Up Time" <= line then [] else [line]
  {
    TrimSpaceOfTrimmed(line);
    hide TrimSpace;
    OneLine(line);
  }

  /** An annotation that starts with these three words is dropped, whatever follows; other annotations stay. */
  lemma UptimeGoes(rest: string)
    requires rest == "" || !IsSpace(rest[|rest| - 1])
    ensures Canonical(["!System Up Time" + rest]) == []
    ensures Canonical(["!System Description \"GS108Tv2\""]) == ["!System Description \"GS108Tv2\""]
    ensures Canonical(["!System Software Version \"5.4.2.36\""]) == ["!System Software Version \"5.4.2.36\""]
    ensures Canonical(["System Up Time"]) == ["System Up Time"]
  {
    var other, version := "!System Description \"GS108Tv2\"", "!System Software Version \"5.4.2.36\"";
    hide Canonical;
    TrimmedLine("!System Up Time" + rest);
    TrimmedLine(other);
    TrimmedLine(version);
    TrimmedLine("System Up Time");
    assert other[8] == 'D' && version[8] == 'S' && "System Up Time"[0] == 'S' && "!System Up Time"[8] == 'U';
  }

  /** The lines without the up-time annotations. */
  function Canonical(lines: seq<string>): seq<string> {
    if lines == [] then []
    else (if IsUptime(lines[0]) then [] else [lines[0]]) + Canonical(lines[1..])
  }

  lemma {:induction false} CanonicalConcat(a: seq<string>, b: seq<string>)
    ensures Canonical(a + b) == Canonical(a) + Canonical(b)
  {
    hide IsUptime;
    if a == [] {
      assert a + b == b;
    } else {
      assert (a + b)[1..] == a[1..] + b;
      CanonicalConcat(a[1..], b);
    }
  }

  method CanonicalBytes(tc: TextConfig) returns (bytes: string)
    ensures bytes == Join(Canonical(LinesOf(tc.raw)), '\n')
  {
    hide IsUptime, Split;
    var lines := Split(tc.raw, '\n');
    var kept: seq<string> := [];
    for i := 0 to |lines|
      invariant kept == Canonical(lines[..i])
    {
      CanonicalConcat(lines[..i], [lines[i]]);
      assert lines[..i + 1] == lines[..i] + [lines[i]];
      assert [lines[i]][1..] == [];
      if !IsUptime(lines[i]) {
        kept := kept + [lines[i]];
      }
    }
    assert lines[..|lines|] == lines;
    bytes := Join(kept, '\n');
  }
}
