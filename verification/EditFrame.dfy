/**
 What a body splice keeps: the matching of labels and exits, the spliced body
 itself, and every block section body that is disjoint from the splice.
 */
module EditFrame {
  import opened Wrappers
  import opened TextCfg
  import opened TextEdit

  /** A line that neither opens nor closes a block. */
  predicate Neutral(line: string) {
    !KindOf(line).Exit? && !KindOf(line).Block?
  }

  /** A body line that stays a body line: content, not structure. */
  predicate Inert(line: string) {
    '\n' !in line && (KindOf(line).Flat? || KindOf(line).Plain?)
  }

  predicate AllNeutral(lines: seq<string>) {
    forall k :: 0 <= k < |lines| ==> Neutral(lines[k])
  }

  predicate AllInert(lines: seq<string>) {
    forall k :: 0 <= k < |lines| ==> Inert(lines[k])
  }

  /** As many blocks closed as opened, and none closed that was open before. */
  predicate Balanced(lines: seq<string>) {
    ScanExit(lines, 0) == Open(0)
  }

  // ---------------------------------------------------------------------
  // Scanning
  // ---------------------------------------------------------------------

  lemma {:induction false} ScanNeutral(lines: seq<string>, depth: nat)
    requires AllNeutral(lines)
    ensures ScanExit(lines, depth) == Open(depth)
  {
    hide KindOf;
    if lines != [] {
      assert Neutral(lines[0]);
      assert forall k :: 0 <= k < |lines[1..]| ==> lines[1..][k] == lines[k + 1];
      ScanNeutral(lines[1..], depth);
    }
  }

  /** More blocks open in front leave as many more open behind. */
  lemma {:induction false} ScanRaise(lines: seq<string>, depth: nat, more: nat)
    requires ScanExit(lines, depth).Open?
    ensures ScanExit(lines, depth + more) == Open(ScanExit(lines, depth).depth + more)
  {
    hide KindOf;
    if lines != [] {
      match KindOf(lines[0])
      case Exit => ScanRaise(lines[1..], depth - 1, more);
      case Block => ScanRaise(lines[1..], depth + 1, more);
      case _ => ScanRaise(lines[1..], depth, more);
    }
  }

  /** Fewer blocks open in front find their exit earlier. */
  lemma {:induction false} ScanLower(lines: seq<string>, low: nat, high: nat)
    requires low < high && ScanExit(lines, high).Found?
    ensures ScanExit(lines, low).Found? && ScanExit(lines, low).at < ScanExit(lines, high).at
  {
    hide KindOf;
    match KindOf(lines[0])
    case Exit => if low > 0 { ScanLower(lines[1..], low - 1, high - 1); }
    case Block => ScanLower(lines[1..], low + 1, high + 1);
    case _ => ScanLower(lines[1..], low, high);
  }

  // ---------------------------------------------------------------------
  // Labels
  // ---------------------------------------------------------------------

  lemma {:induction false} LabelLineConcat(a: seq<string>, b: seq<string>, name: string)
    ensures LabelLine(a + b, name)
         == match LabelLine(a, name)
            case Some(i) => Some(i)
            case None =>
              match LabelLine(b, name)
              case Some(i) => Some(|a| + i)
              case None => None
  {
    hide IsLabel, Trimmed;
    if a == [] {
      assert a + b == b;
    } else {
      assert (a + b)[1..] == a[1..] + b;
      LabelLineConcat(a[1..], b, name);
    }
  }

  lemma BlockKind(line: string)
    requires IsLabel(line)
    ensures KindOf(line).Block? <==> BlockSectionLabel(Trimmed(line))
  {
    hide Trimmed, SectionStarts, BlockSectionLabel;
  }

  /** Lines without block labels do not hold the label of a block. */
  lemma NoBlockLabel(lines: seq<string>, name: string)
    requires AllNeutral(lines) && BlockSectionLabel(name)
    ensures LabelLine(lines, name) == None
  {
    hide KindOf, Trimmed, BlockSectionLabel, LabelLine;
    var r := LabelLine(lines, name);
    if r.Some? {
      BlockKind(lines[r.value]);
    }
  }

  // ---------------------------------------------------------------------
  // Spaced bodies
  // ---------------------------------------------------------------------

  lemma BlankIsSkip()
    ensures KindOf("").Skip?
  {
  }

  lemma {:induction false} SpacedNeutral(body: seq<string>)
    requires AllInert(body)
    ensures AllNeutral(Spaced(body))
  {
    hide KindOf;
    BlankIsSkip();
    if body != [] {
      SpacedNeutral(body[..|body| - 1]);
      assert Inert(body[|body| - 1]);
    }
  }

  /** The content of a spaced body is the body. */
  lemma {:induction false} SpacedContent(body: seq<string>)
    requires AllInert(body)
    ensures Content(Spaced(body)) == body
  {
    hide KindOf;
    BlankIsSkip();
    if body == [] {
      assert [""][1..] == [];
    } else {
      var last := body[|body| - 1];
      var init := body[..|body| - 1];
      SpacedContent(init);
      assert Inert(last);
      ContentConcat(Spaced(init), [last, ""]);
      assert [last, ""][1..] == [""] && [""][1..] == [];
      assert body == init + [last];
    }
  }

  lemma NeutralHasNoInterface(lines: seq<string>)
    requires AllNeutral(lines)
    ensures BeforeInterface(lines) == |lines|
  {
    hide KindOf, IsInterface, BeforeInterface;
    var n := BeforeInterface(lines);
    if n < |lines| {
      InterfaceIsBlock(lines[n]);
    }
  }

  // ---------------------------------------------------------------------
  // The splice of a matched block
  // ---------------------------------------------------------------------

  /** The first section with this label is a block with an exit of its own. */
  predicate Matched(lines: seq<string>, name: string) {
    LabelLine(lines, name).Some? && ExitOf(lines, LabelLine(lines, name).value).Some?
  }

  /** Where a line that survives the splice of [from, to) to `size` lines ends up. */
  function Moved(j: nat, from: nat, to: nat, size: nat): int {
    if j < from then j else j + size - (to - from)
  }

  function MovedExit(e: Option<nat>, from: nat, to: nat, size: nat): Option<int> {
    match e
    case None => None
    case Some(j) => Some(Moved(j, from, to, size))
  }

  /** ExitOf as a number, for comparison with moved lines. */
  function ExitLine(lines: seq<string>, i: nat): Option<int>
    requires i < |lines|
  {
    match ExitOf(lines, i)
    case None => None
    case Some(e) => Some(e)
  }

  /** The region r ends where b begins: at a nested interface, or at the block's own exit. */
  predicate EndsRegion(r: seq<string>, b: seq<string>) {
    && ScanExit(r, 0).Open? && ScanExit(b, ScanExit(r, 0).depth).Found?
    && b != [] && (IsInterface(b[0]) || (KindOf(b[0]).Exit? && Balanced(r)))
  }

  /** The block label, its region and what follows, cut at the splice. */
  lemma Cut(lines: seq<string>, name: string) returns (i: nat, a: seq<string>, r: seq<string>, b: seq<string>)
    requires Matched(lines, name)
    ensures LabelLine(lines, name) == Some(i)
    ensures i < |lines| && KindOf(lines[i]).Block? && BlockSectionLabel(name)
    ensures i < RegionEnd(lines, i) <= |lines| && |a| == i + 1
    ensures a == lines[..i + 1] && r == lines[i + 1..RegionEnd(lines, i)] && b == lines[RegionEnd(lines, i)..]
    ensures lines == a + r + b
    ensures Region(lines, name) == Some(r)
    ensures EndsRegion(r, b)
    ensures BeforeInterface(r) == |r|
    ensures ExitOf(lines, i) == Some(i + 1 + |r| + ScanExit(b, ScanExit(r, 0).depth).at)
  {
    hide KindOf, Trimmed, BlockSectionLabel, LabelLine, IsInterface, BeforeInterface, ScanExit;
    i := LabelLine(lines, name).value;
    BlockKind(lines[i]);
    ExitOfBound(lines, i);
    var e := ExitOf(lines, i).value;
    var inside := lines[i + 1..e];
    var n := BeforeInterface(inside);
    a, r, b := lines[..i + 1], lines[i + 1..i + 1 + n], lines[i + 1 + n..];
    Slices(lines, i + 1, i + 1 + n, e);
    NoInterfaceIn(inside, n);
    InsideOpen(inside, lines[e..]);
    ScanPrefixOpen(r, b, e - i - 1);
    if n == |inside| {
      assert r == inside;
    }
  }

  lemma Slices<T>(s: seq<T>, from: nat, mid: nat, to: nat)
    requires from <= mid <= to <= |s|
    ensures s == s[..from] + s[from..mid] + s[mid..]
    ensures s[from..] == s[from..mid] + s[mid..] == s[from..to] + s[to..]
    ensures s[from..mid] == s[from..to][..mid - from]
  {
    var inner, outer := s[from..mid], s[from..to];
    assert |outer| == to - from && |inner| == mid - from;
    assert forall k :: 0 <= k < mid - from ==> inner[k] == s[from + k] == outer[k];
    assert inner == outer[..mid - from];
    assert s[from..] == inner + s[mid..];
    assert s[from..] == outer + s[to..];
  }

  lemma SliceFront<T>(a: seq<T>, r: seq<T>, b: seq<T>, from: nat)
    requires from <= |a|
    ensures (a + r + b)[from..] == a[from..] + r + b
    ensures a <= a + r + b
  {
  }

  lemma PrefixSlice<T>(a: seq<T>, s: seq<T>, from: nat, to: nat)
    requires a <= s && from <= to <= |a|
    ensures s[from..to] == a[from..to]
  {
  }

  lemma TailSlice<T>(s: seq<T>, j: nat, t: seq<T>, j': nat, n: nat)
    requires j <= |s| && j' <= |t| && s[j..] == t[j'..] && 1 <= n && j + n <= |s|
    ensures |s| - j == |t| - j' && s[j] == t[j']
    ensures s[j + 1..] == t[j' + 1..]
    ensures s[j + 1..j + n] == t[j' + 1..j' + n]
  {
    assert |s[j..]| == |t[j'..]|;
    SubSlice(s, j, n);
    SubSlice(t, j', n);
  }

  lemma SubSlice<T>(s: seq<T>, j: nat, n: nat)
    requires 1 <= n && j + n <= |s|
    ensures s[j] == s[j..][0] && s[j + 1..] == s[j..][1..] && s[j + 1..j + n] == s[j..][1..n]
  {
  }

  lemma SliceBack<T>(a: seq<T>, r: seq<T>, b: seq<T>, k: nat)
    requires k <= |b|
    ensures (a + r + b)[|a| + |r| + k..] == b[k..]
  {
    assert |a + r| == |a| + |r|;
  }

  lemma NoInterfaceIn(lines: seq<string>, n: nat)
    requires n == BeforeInterface(lines)
    ensures BeforeInterface(lines[..n]) == n
  {
    hide IsInterface, BeforeInterface;
    forall k | 0 <= k < n
      ensures !IsInterface(lines[..n][k])
    {
    }
  }

  /** Up to its exit a block's lines are balanced. */
  lemma InsideOpen(inside: seq<string>, rest: seq<string>)
    requires ScanExit(inside + rest, 0) == Found(|inside|)
    ensures Balanced(inside) && rest != [] && KindOf(rest[0]).Exit?
  {
    hide KindOf;
    ScanConcat(inside, rest, 0);
    ScanBound(inside, 0);
    ScanBound(inside + rest, 0);
    if ScanExit(inside, 0).Open? {
      ExitFirst(rest, ScanExit(inside, 0).depth);
    }
  }

  lemma ExitFirst(rest: seq<string>, depth: nat)
    requires ScanExit(rest, depth) == Found(0)
    ensures depth == 0 && rest != [] && KindOf(rest[0]).Exit?
  {
    hide KindOf;
  }

  lemma ScanPrefixOpen(r: seq<string>, b: seq<string>, at: nat)
    requires ScanExit(r + b, 0) == Found(at) && |r| <= at
    ensures ScanExit(r, 0).Open?
    ensures ScanExit(b, ScanExit(r, 0).depth) == Found(at - |r|)
  {
    hide KindOf, ScanExit;
    ScanConcat(r, b, 0);
    ScanBound(r, 0);
  }

  /** After the splice the label still heads a matched block, and its region is the new one. */
  lemma {:induction false} RegionReplaced(lines: seq<string>, name: string, body: seq<string>)
    requires Matched(lines, name) && AllInert(body)
    ensures var out := Replaced(lines, name, body).value;
            && Matched(out, name)
            && LabelLine(out, name) == LabelLine(lines, name)
            && Region(out, name) == Some(Spaced(body))
            && BodyOf(out, name) == Some(body)
  {
    hide KindOf, Trimmed, LabelLine, RegionEnd, ScanExit, Spaced, BlockSectionLabel, IsInterface, Content,
         BodyOf, ExitOf;
    var i, a, r, b := Cut(lines, name);
    var out := a + Spaced(body) + b;
    RegionAfterSplice(lines, name, body, i, a, r, b, out);
    SpacedContent(body);
    BodyIsContent(out, name);
  }

  lemma BodyIsContent(lines: seq<string>, name: string)
    ensures Region(lines, name).Some? ==> BodyOf(lines, name) == Some(Content(Region(lines, name).value))
  {
    hide Region;
  }

  lemma RegionAfterSplice(lines: seq<string>, name: string, body: seq<string>,
                          i: nat, a: seq<string>, r: seq<string>, b: seq<string>, out: seq<string>)
    requires Matched(lines, name) && AllInert(body)
    requires LabelLine(lines, name) == Some(i) && KindOf(lines[i]).Block? && |a| == i + 1
    requires lines == a + r + b && out == a + Spaced(body) + b
    requires EndsRegion(r, b)
    ensures Matched(out, name) && LabelLine(out, name) == Some(i)
    ensures Region(out, name) == Some(Spaced(body))
  {
    hide KindOf, Trimmed, LabelLine, IsInterface, Spaced, BeforeInterface, ScanExit;
    var r' := Spaced(body);
    assert lines == a + (r + b) && out == a + (r' + b);
    LabelInFront(a, r + b, r' + b, name);
    SpacedNeutral(body);
    assert out[i] == lines[i];
    assert out[i + 1..] == r' + b;
    if ScanExit(r, 0).depth > 0 {
      ScanLower(b, 0, ScanExit(r, 0).depth);
    }
    RegionOfHeaded(out, i, r', b);
  }

  /** A block whose lines are free of structure up to its exit or a nested interface. */
  lemma RegionOfHeaded(lines: seq<string>, i: nat, r: seq<string>, b: seq<string>)
    requires i < |lines| && KindOf(lines[i]).Block? && lines[i + 1..] == r + b
    requires AllNeutral(r) && ScanExit(b, 0).Found? && b != []
    requires IsInterface(b[0]) || KindOf(b[0]).Exit?
    ensures ExitOf(lines, i) == Some(i + 1 + |r| + ScanExit(b, 0).at)
    ensures RegionEnd(lines, i) == i + 1 + |r|
    ensures lines[i + 1..RegionEnd(lines, i)] == r
  {
    hide KindOf, IsInterface, BeforeInterface, ScanExit;
    var at := ScanExit(b, 0).at;
    ScanBound(b, 0);
    ScanNeutral(r, 0);
    ScanConcat(r, b, 0);
    NeutralHasNoInterface(r);
    var inside := (r + b)[..|r| + at];
    assert lines[i + 1..i + 1 + |r| + at] == inside;
    if at == 0 {
      assert inside == r;
    } else {
      InterfaceFirst(b, at);
      assert inside[|r|] == b[0] && inside[..|r|] == r;
      BeforeInterfaceAt(inside, |r|);
    }
    assert lines[i + 1..i + 1 + |r|] == (r + b)[..|r|];
  }

  lemma InterfaceFirst(b: seq<string>, at: nat)
    requires b != [] && at > 0 && ScanExit(b, 0) == Found(at)
    requires IsInterface(b[0]) || KindOf(b[0]).Exit?
    ensures IsInterface(b[0])
  {
    hide KindOf, IsInterface;
  }

  lemma BeforeInterfaceAt(lines: seq<string>, n: nat)
    requires n < |lines| && IsInterface(lines[n])
    requires BeforeInterface(lines[..n]) == n
    ensures BeforeInterface(lines) == n
  {
    hide IsInterface, BeforeInterface;
    assert forall k :: 0 <= k < n ==> lines[..n][k] == lines[k];
    assert !(BeforeInterface(lines) < n);
  }

  /** A label found in front of the cut is found there whatever follows. */
  lemma LabelInFront(a: seq<string>, s: seq<string>, t: seq<string>, name: string)
    requires LabelLine(a + s, name).Some? && LabelLine(a + s, name).value < |a|
    ensures LabelLine(a + t, name) == LabelLine(a + s, name) == LabelLine(a, name)
  {
    hide LabelLine;
    LabelLineConcat(a, s, name);
    LabelLineConcat(a, t, name);
  }

  // ---------------------------------------------------------------------
  // The other blocks
  // ---------------------------------------------------------------------

  /** A scan carried on in b, with `extra` more blocks open, `lag` lines further on. */
  function Resume(scan: Scan, b: seq<string>, extra: nat, lag: nat): Scan {
    match scan
    case Found(at) => Found(at)
    case Open(depth) => Later(ScanExit(b, depth + extra), lag)
  }

  /** What a scan that starts in front of the splice finds before and after it. */
  lemma ScanAcross(s: seq<string>, r: seq<string>, r': seq<string>, b: seq<string>)
    requires ScanExit(r, 0).Open? && AllNeutral(r')
    ensures ScanExit(s + r + b, 0) == Resume(ScanExit(s, 0), b, ScanExit(r, 0).depth, |s| + |r|)
    ensures ScanExit(s + r' + b, 0) == Resume(ScanExit(s, 0), b, 0, |s| + |r'|)
  {
    hide KindOf, ScanExit;
    assert s + r + b == s + (r + b) && s + r' + b == s + (r' + b);
    ScanConcat(s, r + b, 0);
    ScanConcat(s, r' + b, 0);
    if ScanExit(s, 0).Open? {
      var d := ScanExit(s, 0).depth;
      ScanConcat(r, b, d);
      ScanConcat(r', b, d);
      ScanRaise(r, 0, d);
      ScanNeutral(r', d);
    }
  }

  /** The matching of labels and exits depends only on the lines behind the label. */
  lemma SuffixSame(lines: seq<string>, j: nat, out: seq<string>, j': nat)
    requires j < |lines| && j' < |out| && lines[j..] == out[j'..]
    ensures ExitOf(out, j').Some? <==> ExitOf(lines, j).Some?
    ensures ExitOf(out, j').Some? ==> ExitOf(out, j').value - j' == ExitOf(lines, j).value - j
    ensures RegionEnd(out, j') - j' == RegionEnd(lines, j) - j
    ensures lines[j + 1..RegionEnd(lines, j)] == out[j' + 1..RegionEnd(out, j')]
  {
    hide KindOf, ScanExit, BeforeInterface, BeforeLabel;
    TailSlice(lines, j, out, j', RegionEnd(lines, j) - j);
    if ExitOf(lines, j).Some? {
      ExitOfBound(lines, j);
      TailSlice(lines, j, out, j', ExitOf(lines, j).value - j);
    }
  }

  /** Where the exit of a label in front of the splice is, before and after it. */
  lemma ExitInFront(a: seq<string>, r: seq<string>, r': seq<string>, b: seq<string>, j: nat)
    requires j < |a| && ScanExit(r, 0).Open? && AllNeutral(r')
    ensures var lines, out, s := a + r + b, a + r' + b, a[j + 1..];
            && lines[j] == a[j] == out[j]
            && ScanExit(lines[j + 1..], 0) == Resume(ScanExit(s, 0), b, ScanExit(r, 0).depth, |s| + |r|)
            && ScanExit(out[j + 1..], 0) == Resume(ScanExit(s, 0), b, 0, |s| + |r'|)
            && (ScanExit(s, 0).Found? ==> ScanExit(s, 0).at < |s|)
  {
    hide KindOf, ScanExit, AllNeutral;
    var s := a[j + 1..];
    SliceFront(a, r, b, j + 1);
    SliceFront(a, r', b, j + 1);
    ScanAcross(s, r, r', b);
    ScanBound(s, 0);
  }

  lemma KeptExitInFront(a: seq<string>, r: seq<string>, r': seq<string>, b: seq<string>, j: nat)
    requires j < |a| && Balanced(r) && AllNeutral(r')
    ensures var lines, out := a + r + b, a + r' + b;
            lines[j] == out[j] && ExitLine(out, j) == MovedExit(ExitOf(lines, j), |a|, |a| + |r|, |r'|)
  {
    hide KindOf, ScanExit, AllNeutral;
    ExitInFront(a, r, r', b, j);
  }

  lemma KeptExitBehind(a: seq<string>, r: seq<string>, r': seq<string>, b: seq<string>, k: nat)
    requires k < |b|
    ensures var lines, out, j, j' := a + r + b, a + r' + b, |a| + |r| + k, |a| + |r'| + k;
            lines[j] == out[j'] && ExitLine(out, j') == MovedExit(ExitOf(lines, j), |a|, |a| + |r|, |r'|)
  {
    hide KindOf, ScanExit, ExitOf;
    var lines, out, j, j' := a + r + b, a + r' + b, |a| + |r| + k, |a| + |r'| + k;
    SliceBack(a, r, b, k);
    SliceBack(a, r', b, k);
    TailSlice(lines, j, out, j', 1);
    SuffixSame(lines, j, out, j');
    if ExitOf(lines, j).Some? {
      ExitOfBound(lines, j);
    }
  }

  /**
   When the replaced region is balanced every line outside it keeps its exit: the
   matching is the same up to the shift behind the splice.
   */
  lemma PairingKept(lines: seq<string>, name: string, body: seq<string>, j: nat)
    requires Matched(lines, name) && AllInert(body) && Balanced(Region(lines, name).value)
    requires j < |lines|
    requires var i := LabelLine(lines, name).value; j <= i || RegionEnd(lines, i) <= j
    ensures var i := LabelLine(lines, name).value;
            var out := Replaced(lines, name, body).value;
            var j' := Moved(j, i + 1, RegionEnd(lines, i), |Spaced(body)|);
            && 0 <= j' < |out| && out[j'] == lines[j]
            && ExitLine(out, j') == MovedExit(ExitOf(lines, j), i + 1, RegionEnd(lines, i), |Spaced(body)|)
  {
    hide KindOf, Trimmed, LabelLine, RegionEnd, ScanExit, Spaced, BlockSectionLabel, IsInterface;
    var i, a, r, b := Cut(lines, name);
    var r' := Spaced(body);
    SpacedNeutral(body);
    if j <= i {
      KeptExitInFront(a, r, r', b, j);
    } else {
      KeptExitBehind(a, r, r', b, j - |a| - |r|);
    }
  }

  /** A splice of an unbalanced region breaks the block's own matching, a balanced one keeps it. */
  lemma OwnExitKeptIffBalanced(lines: seq<string>, name: string, body: seq<string>)
    requires Matched(lines, name) && AllInert(body)
    ensures var i := LabelLine(lines, name).value;
            var out := Replaced(lines, name, body).value;
            && i < |out|
            && (ExitLine(out, i) == MovedExit(ExitOf(lines, i), i + 1, RegionEnd(lines, i), |Spaced(body)|)
                <==> Balanced(Region(lines, name).value))
  {
    hide KindOf, Trimmed, LabelLine, RegionEnd, ScanExit, Spaced, BlockSectionLabel, IsInterface;
    var i, a, r, b := Cut(lines, name);
    var r' := Spaced(body);
    SpacedNeutral(body);
    var out := a + r' + b;
    var depth := ScanExit(r, 0).depth;
    assert out[i] == lines[i];
    assert out[i + 1..] == r' + b && [] + r' + b == r' + b && [] + r + b == r + b;
    ScanAcross([], r, r', b);
    EmptyScan();
    if depth > 0 {
      ScanLower(b, 0, depth);
    }
  }

  lemma EmptyScan()
    ensures ScanExit([], 0) == Open(0)
  {
  }

  /** The label line and region of one block lie in front of, or behind, those of another. */
  predicate Disjoint(lines: seq<string>, name: string, other: string)
    requires Matched(lines, name) && Matched(lines, other)
  {
    var i, j := LabelLine(lines, name).value, LabelLine(lines, other).value;
    RegionEnd(lines, j) <= i || RegionEnd(lines, i) <= j
  }

  /** The splice of one block leaves the region of every disjoint block as it was. */
  lemma DisjointKept(lines: seq<string>, name: string, body: seq<string>, other: string)
    requires Matched(lines, name) && AllInert(body)
    requires Matched(lines, other) && Disjoint(lines, name, other)
    ensures var i, j := LabelLine(lines, name).value, LabelLine(lines, other).value;
            var out := Replaced(lines, name, body).value;
            && Matched(out, other)
            && LabelLine(out, other).value == Moved(j, i + 1, RegionEnd(lines, i), |Spaced(body)|)
            && Region(out, other) == Region(lines, other)
            && BodyOf(out, other) == BodyOf(lines, other)
  {
    hide KindOf, Trimmed, LabelLine, RegionEnd, ScanExit, Spaced, BlockSectionLabel, IsInterface, ExitOf,
         Content, EndsRegion;
    var i, a, r, b := Cut(lines, name);
    var j := MatchedBlock(lines, other);
    OpenRegion(r, b);
    var r' := Spaced(body);
    SpacedNeutral(body);
    var out := a + r' + b;
    if RegionEnd(lines, j) <= i {
      KeptInFront(lines, other, j, i, a, r, r', b, out);
    } else {
      KeptBehind(lines, other, j, a, r, r', b, out);
    }
  }

  lemma MatchedBlock(lines: seq<string>, name: string) returns (i: nat)
    requires Matched(lines, name)
    ensures LabelLine(lines, name) == Some(i) && i < |lines| && KindOf(lines[i]).Block? && BlockSectionLabel(name)
  {
    hide KindOf, Trimmed, LabelLine, ScanExit, BlockSectionLabel;
    i := LabelLine(lines, name).value;
    BlockKind(lines[i]);
  }

  lemma OpenRegion(r: seq<string>, b: seq<string>)
    requires EndsRegion(r, b)
    ensures ScanExit(r, 0).Open?
  {
    hide ScanExit, KindOf, IsInterface;
  }

  lemma KeptBehind(lines: seq<string>, other: string, j: nat,
                   a: seq<string>, r: seq<string>, r': seq<string>, b: seq<string>, out: seq<string>)
    requires Matched(lines, other) && LabelLine(lines, other) == Some(j) && BlockSectionLabel(other)
    requires lines == a + r + b && out == a + r' + b && |a| + |r| <= j && AllNeutral(r')
    ensures LabelLine(out, other) == Some(j + |r'| - |r|)
    ensures Matched(out, other) && Region(out, other) == Region(lines, other)
  {
    hide KindOf, Trimmed, LabelLine, RegionEnd, ExitOf, BlockSectionLabel;
    var j' := j + |r'| - |r|;
    LabelLineConcat(a + r, b, other);
    LabelLineConcat(a, r, other);
    LabelLineConcat(a + r', b, other);
    LabelLineConcat(a, r', other);
    NoBlockLabel(r', other);
    SliceBack(a, r, b, j - |a| - |r|);
    SliceBack(a, r', b, j - |a| - |r|);
    SuffixSame(lines, j, out, j');
  }

  lemma KeptInFront(lines: seq<string>, other: string, j: nat, i: nat,
                    a: seq<string>, r: seq<string>, r': seq<string>, b: seq<string>, out: seq<string>)
    requires Matched(lines, other) && LabelLine(lines, other) == Some(j) && j < i && RegionEnd(lines, j) <= i
    requires KindOf(lines[j]).Block?
    requires lines == a + r + b && out == a + r' + b && |a| == i + 1 && AllNeutral(r')
    requires ScanExit(r, 0).Open?
    ensures LabelLine(out, other) == Some(j)
    ensures Matched(out, other) && Region(out, other) == Region(lines, other)
  {
    hide KindOf, Trimmed, LabelLine, ScanExit, IsInterface, BeforeInterface, ExitOf, AllNeutral, Resume, RegionEnd;
    assert lines == a + (r + b) && out == a + (r' + b);
    LabelInFront(a, r + b, r' + b, other);
    ExitInFront(a, r, r', b, j);
    MatchedInFront(lines, out, j, |a|, ScanExit(a[j + 1..], 0), b, ScanExit(r, 0).depth, |r|, |r'|);
    RegionInFront(lines, out, j, a);
  }

  lemma MatchedInFront(lines: seq<string>, out: seq<string>, j: nat, cut: nat, scan: Scan, b: seq<string>,
                       extra: nat, size: nat, size': nat)
    requires j < cut && j < |lines| && j < |out| && lines[j] == out[j] && ExitOf(lines, j).Some?
    requires ScanExit(lines[j + 1..], 0) == Resume(scan, b, extra, cut - j - 1 + size)
    requires ScanExit(out[j + 1..], 0) == Resume(scan, b, 0, cut - j - 1 + size')
    requires scan.Found? ==> scan.at < cut - j - 1
    ensures ExitOf(out, j).Some?
    ensures (ExitOf(lines, j) == ExitOf(out, j) && ExitOf(lines, j).value < cut)
         || (ExitOf(lines, j).value >= cut && ExitOf(out, j).value >= cut)
  {
    hide KindOf, ScanExit;
    if scan.Open? && extra > 0 {
      ScanLower(b, scan.depth, scan.depth + extra);
    }
  }

  /** The region ends in front of the cut, so it is the same on both sides of the splice. */
  lemma RegionInFront(lines: seq<string>, out: seq<string>, j: nat, a: seq<string>)
    requires a <= lines && a <= out && j < |a| && KindOf(lines[j]).Block?
    requires ExitOf(lines, j).Some? && ExitOf(out, j).Some? && RegionEnd(lines, j) < |a|
    requires (ExitOf(lines, j) == ExitOf(out, j) && ExitOf(lines, j).value < |a|)
          || (ExitOf(lines, j).value >= |a| && ExitOf(out, j).value >= |a|)
    ensures RegionEnd(out, j) == RegionEnd(lines, j)
    ensures lines[j + 1..RegionEnd(lines, j)] == out[j + 1..RegionEnd(lines, j)]
  {
    hide KindOf, ExitOf, IsInterface, BeforeInterface;
    var e, e' := ExitOf(lines, j).value, ExitOf(out, j).value;
    ExitOfBound(lines, j);
    ExitOfBound(out, j);
    if e < |a| {
      PrefixSlice(a, lines, j + 1, e);
      PrefixSlice(a, out, j + 1, e);
    } else {
      InterfaceInBoth(lines[j + 1..e], out[j + 1..e'], a[j + 1..]);
    }
    PrefixSlice(a, lines, j + 1, RegionEnd(lines, j));
    PrefixSlice(a, out, j + 1, RegionEnd(lines, j));
  }

  lemma InterfaceInBoth(inside: seq<string>, inside': seq<string>, s: seq<string>)
    requires s <= inside && s <= inside' && BeforeInterface(inside) < |s|
    ensures BeforeInterface(inside') == BeforeInterface(inside)
  {
    hide IsInterface, BeforeInterface;
    var n := BeforeInterface(inside);
    assert inside[..n] == inside'[..n] && inside[n] == inside'[n];
    NoInterfaceIn(inside, n);
    BeforeInterfaceAt(inside', n);
  }
}
