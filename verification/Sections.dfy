/**
 Sections whose body is plain text up to their own exit, and any number of body
 splices over them: each body is the one put there, and no other one changes.
 */
module Sections {
  import opened Wrappers
  import opened TextCfg
  import opened TextEdit
  import opened EditFrame

  /** The first section with this label is a block with no other block inside it. */
  predicate Simple(lines: seq<string>, name: string) {
    && Matched(lines, name)
    && var i := LabelLine(lines, name).value;
       RegionEnd(lines, i) == ExitOf(lines, i).value && AllNeutral(lines[i + 1..RegionEnd(lines, i)])
  }

  lemma SimpleFacts(lines: seq<string>, name: string) returns (i: nat, e: nat)
    requires Simple(lines, name)
    ensures LabelLine(lines, name) == Some(i) && i < e < |lines|
    ensures ExitOf(lines, i) == Some(e) && RegionEnd(lines, i) == e
    ensures KindOf(lines[i]).Block? && KindOf(lines[e]).Exit? && BlockSectionLabel(name)
    ensures Region(lines, name) == Some(lines[i + 1..e]) && AllNeutral(lines[i + 1..e])
    ensures forall k :: i < k < e ==> Neutral(lines[k])
  {
    hide KindOf, ScanExit, RegionEnd, Trimmed, LabelLine, BlockSectionLabel;
    i := LabelLine(lines, name).value;
    e := ExitOf(lines, i).value;
    ExitOfBound(lines, i);
    BlockKind(lines[i]);
    forall k | i < k < e
      ensures Neutral(lines[k])
    {
      assert Neutral(lines[i + 1..e][k - i - 1]);
    }
  }

  /** Two simple sections lie side by side. */
  lemma SimpleDisjoint(lines: seq<string>, name: string, other: string)
    requires Simple(lines, name) && Simple(lines, other) && name != other
    ensures Disjoint(lines, name, other)
  {
    var i, e := SimpleFacts(lines, name);
    var j, f := SimpleFacts(lines, other);
    hide *;
    DifferentLines(lines, name, other, i, j);
    forall k | i < k < e || j < k < f
      ensures !KindOf(lines[k]).Block?
    {
      NeutralIs(lines[k]);
    }
    SideBySide(lines, name, other);
  }

  lemma NeutralIs(line: string)
    requires Neutral(line)
    ensures !KindOf(line).Block? && !KindOf(line).Exit?
  {
    hide KindOf;
  }

  lemma DifferentLines(lines: seq<string>, name: string, other: string, i: nat, j: nat)
    requires LabelLine(lines, name) == Some(i) && LabelLine(lines, other) == Some(j) && name != other
    ensures i != j
  {
    hide LabelLine, Trimmed;
  }

  lemma SideBySide(lines: seq<string>, name: string, other: string)
    requires Matched(lines, name) && Matched(lines, other)
    requires var i, j := LabelLine(lines, name).value, LabelLine(lines, other).value;
             RegionEnd(lines, j) <= i || RegionEnd(lines, i) <= j
    ensures Disjoint(lines, name, other)
  {
    hide RegionEnd, LabelLine;
  }

  /** A splice leaves its section simple, with the new region. */
  lemma SelfSpliced(lines: seq<string>, name: string, body: seq<string>)
    requires Simple(lines, name) && AllInert(body)
    ensures var out := Replaced(lines, name, body).value;
            Simple(out, name) && Region(out, name) == Some(Spaced(body)) && BodyOf(out, name) == Some(body)
  {
    var i, e := SimpleFacts(lines, name);
    hide KindOf, ScanExit, RegionEnd, Trimmed, LabelLine, BlockSectionLabel, Spaced, ExitOf, Content;
    var out := Replaced(lines, name, body).value;
    RegionReplaced(lines, name, body);
    ScanNeutral(lines[i + 1..e], 0);
    PairingKept(lines, name, body, i);
    SpacedNeutral(body);
    RegionLength(out, name);
  }

  lemma RegionLength(lines: seq<string>, name: string)
    requires LabelLine(lines, name).Some?
    ensures var i := LabelLine(lines, name).value;
            Region(lines, name).Some? && RegionEnd(lines, i) == i + 1 + |Region(lines, name).value|
  {
    hide RegionEnd, LabelLine;
  }

  /** Where another simple section is after a splice, and that it is as it was. */
  lemma OtherKept(lines: seq<string>, name: string, body: seq<string>, other: string, i: nat, e: nat, j: nat)
    requires Simple(lines, name) && Simple(lines, other) && name != other && AllInert(body)
    requires LabelLine(lines, name) == Some(i) && RegionEnd(lines, i) == e && LabelLine(lines, other) == Some(j)
    ensures Replaced(lines, name, body).Some?
    ensures var out := Replaced(lines, name, body).value;
            && Matched(out, other) && Region(out, other) == Region(lines, other)
            && BodyOf(out, other) == BodyOf(lines, other)
            && LabelLine(out, other).value == Moved(j, i + 1, e, |Spaced(body)|)
  {
    hide KindOf, Trimmed, LabelLine, RegionEnd, ScanExit, Spaced, BlockSectionLabel, IsInterface, ExitOf, Content,
      Region, BodyOf, AllInert, AllNeutral, Disjoint;
    SimpleDisjoint(lines, name, other);
    DisjointKept(lines, name, body, other);
  }

  /** Its exit moves with it. */
  lemma OtherExit(lines: seq<string>, name: string, body: seq<string>, i: nat, e: nat, j: nat, f: nat,
                  out: seq<string>, j': nat)
    requires Simple(lines, name) && AllInert(body) && LabelLine(lines, name) == Some(i) && RegionEnd(lines, i) == e
    requires j < |lines| && ExitOf(lines, j) == Some(f) && (f <= i || e <= j)
    requires Replaced(lines, name, body) == Some(out) && j' == Moved(j, i + 1, e, |Spaced(body)|)
    ensures j' < |out| && 0 <= Moved(f, i + 1, e, |Spaced(body)|)
    ensures ExitOf(out, j') == Some(Moved(f, i + 1, e, |Spaced(body)|))
  {
    hide *;
    BalancedRegion(lines, name);
    ExitOfBound(lines, j);
    PairingKept(lines, name, body, j);
    MovedExitIs(ExitOf(lines, j), f, i + 1, e, |Spaced(body)|);
    ExitAgain(out, j', Moved(f, i + 1, e, |Spaced(body)|));
  }

  lemma BalancedRegion(lines: seq<string>, name: string)
    requires Simple(lines, name)
    ensures Matched(lines, name) && Region(lines, name).Some? && Balanced(Region(lines, name).value)
  {
    SimpleIsMatched(lines, name);
    var i, e := SimpleFacts(lines, name);
    hide ScanExit, KindOf, LabelLine, RegionEnd, ExitOf;
    ScanNeutral(lines[i + 1..e], 0);
  }

  lemma MovedExitIs(exit: Option<nat>, f: nat, from: nat, to: nat, size: nat)
    requires exit == Some(f)
    ensures MovedExit(exit, from, to, size) == Some(Moved(f, from, to, size))
  {
  }

  /** A splice leaves every other simple section simple, with the region it had. */
  lemma OtherSpliced(lines: seq<string>, name: string, body: seq<string>, other: string)
    requires Simple(lines, name) && Simple(lines, other) && name != other && AllInert(body)
    ensures var out := Replaced(lines, name, body).value;
            Simple(out, other) && Region(out, other) == Region(lines, other)
            && BodyOf(out, other) == BodyOf(lines, other)
  {
    hide *;
    var i, e := SimpleFacts(lines, name);
    var j, f := SimpleFacts(lines, other);
    SimpleIsMatched(lines, name);
    SimpleIsMatched(lines, other);
    SimpleDisjoint(lines, name, other);
    DisjointIs(lines, name, other);
    OtherKept(lines, name, body, other, i, e, j);
    var out := Replaced(lines, name, body).value;
    LabelOfMatched(out, other);
    OtherExit(lines, name, body, i, e, j, f, out, LabelLine(out, other).value);
    MovedTogether(j, f, i + 1, e, |Spaced(body)|);
    SimpleAgain(Replaced(lines, name, body).value, other, lines[j + 1..f]);
  }

  lemma ExitAgain(lines: seq<string>, i: nat, e: int)
    requires i < |lines| && ExitLine(lines, i) == Some(e)
    ensures e >= 0 && ExitOf(lines, i) == Some(e)
  {
    hide ExitOf;
  }

  lemma LabelOfMatched(lines: seq<string>, name: string)
    requires Matched(lines, name)
    ensures LabelLine(lines, name).Some? && LabelLine(lines, name).value < |lines|
  {
    hide LabelLine, ExitOf;
  }

  lemma SimpleIsMatched(lines: seq<string>, name: string)
    requires Simple(lines, name)
    ensures Matched(lines, name)
  {
    hide KindOf, LabelLine, RegionEnd, ExitOf;
  }

  lemma DisjointIs(lines: seq<string>, name: string, other: string)
    requires Matched(lines, name) && Matched(lines, other) && Disjoint(lines, name, other)
    ensures var i, j := LabelLine(lines, name).value, LabelLine(lines, other).value;
            RegionEnd(lines, j) <= i || RegionEnd(lines, i) <= j
  {
    hide RegionEnd, LabelLine;
  }

  /** A block in front of, or behind, a splice keeps its length. */
  lemma MovedTogether(j: nat, f: nat, from: nat, to: nat, size: nat)
    requires from <= to && j <= f && (f < from || to <= j)
    ensures Moved(f, from, to, size) - Moved(j, from, to, size) == f - j
  {
  }

  /** A matched section with a plain region right up to its exit. */
  lemma SimpleAgain(lines: seq<string>, name: string, region: seq<string>)
    requires Matched(lines, name) && Region(lines, name) == Some(region) && AllNeutral(region)
    requires ExitOf(lines, LabelLine(lines, name).value) == Some(LabelLine(lines, name).value + 1 + |region|)
    ensures Simple(lines, name)
  {
    hide RegionEnd, LabelLine, ExitOf;
    RegionLength(lines, name);
  }

  // ---------------------------------------------------------------------
  // Many splices
  // ---------------------------------------------------------------------

  predicate Distinct(names: seq<string>) {
    forall k, l :: 0 <= k < l < |names| ==> names[k] != names[l]
  }

  /** Every section listed is simple. */
  predicate AllSimple(lines: seq<string>, names: seq<string>) {
    forall k :: 0 <= k < |names| ==> Simple(lines, names[k])
  }

  predicate AllBodiesInert(bodies: seq<seq<string>>) {
    forall k :: 0 <= k < |bodies| ==> AllInert(bodies[k])
  }
}
