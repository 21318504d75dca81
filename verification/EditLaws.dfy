/**
 Laws over whole editing sessions: block structure, the header under any
 sequence of edits, and insertion undone by deletion.
 */
module EditLaws {
  import opened Wrappers
  import opened Text
  import opened TextCfg
  import opened TextEdit
  import opened EditFrame

  // ---------------------------------------------------------------------
  // Block structure
  // ---------------------------------------------------------------------

  /** A block opened inside a matched block is matched, and closes first. */
  lemma BlocksNest(lines: seq<string>, i: nat, k: nat)
    requires i < k < |lines| && ExitOf(lines, i).Some? && k < ExitOf(lines, i).value
    requires KindOf(lines[k]).Block?
    ensures ExitOf(lines, k).Some? && k < ExitOf(lines, k).value < ExitOf(lines, i).value
  {
    hide KindOf, ScanExit;
    var s, rest := lines[i + 1..k], lines[k + 1..];
    assert lines[i + 1..] == s + ([lines[k]] + rest);
    ScanConcat(s, [lines[k]] + rest, 0);
    ScanBound(s, 0);
    var depth := ScanExit(s, 0).depth;
    ScanBlock(lines[k], rest, depth);
    ScanLower(rest, 0, depth + 1);
  }

  lemma ScanBlock(line: string, rest: seq<string>, depth: nat)
    requires KindOf(line).Block?
    ensures ScanExit([line] + rest, depth) == Later(ScanExit(rest, depth + 1), 1)
  {
    hide KindOf;
    assert ([line] + rest)[1..] == rest;
  }

  /** Two matched blocks are nested or disjoint, and never share an exit. */
  lemma BlocksNestOrDisjoint(lines: seq<string>, i: nat, k: nat)
    requires i < k < |lines| && ExitOf(lines, i).Some? && ExitOf(lines, k).Some?
    ensures ExitOf(lines, k).value < ExitOf(lines, i).value || ExitOf(lines, i).value < k
    ensures ExitOf(lines, k) != ExitOf(lines, i)
  {
    hide KindOf, ScanExit;
    ExitOfBound(lines, i);
    ExitOfBound(lines, k);
    if k < ExitOf(lines, i).value {
      BlocksNest(lines, i, k);
    }
  }

  /** No splice of a matched block can reach an interface label. */
  lemma BodiesHoldNoInterface(lines: seq<string>, i: nat, k: nat)
    requires i < |lines| && ExitOf(lines, i).Some? && i < k < RegionEnd(lines, i)
    ensures !IsInterface(lines[k]) && k < ExitOf(lines, i).value
  {
    hide KindOf, ScanExit, IsInterface, BeforeInterface;
    ExitOfBound(lines, i);
    assert lines[i + 1..ExitOf(lines, i).value][k - i - 1] == lines[k];
  }

  // ---------------------------------------------------------------------
  // The header
  // ---------------------------------------------------------------------

  lemma {:induction false} TrimRightKeepsFirst(s: string)
    requires s != "" && !IsSpace(s[0])
    ensures TrimRight(s) != "" && TrimRight(s)[0] == s[0]
  {
    if IsSpace(s[|s| - 1]) {
      TrimRightKeepsFirst(s[..|s| - 1]);
    }
  }

  lemma HeaderIsNoLabel(line: string)
    requires "0x4e47" <= TrimCR(line)
    ensures !IsLabel(line) && line != ""
  {
    TrimRightKeepsFirst(TrimCR(line));
    assert Trimmed(line)[0] == '0';
    LabelKinds(line);
    hide TrimCR;
  }

  datatype Edit =
    | ReplaceBody(name: string, body: seq<string>)
    | Insert(after: string, name: string, body: seq<string>)
    | Delete(name: string)

  /** The arguments are lines, as every caller's are. */
  predicate EditOfLines(edit: Edit) {
    match edit
    case ReplaceBody(_, body) => LineFree(body)
    case Insert(_, name, body) => '\n' !in name && LineFree(body)
    case Delete(_) => true
  }

  function ApplyEdit(lines: seq<string>, edit: Edit): seq<string> {
    match edit
    case ReplaceBody(name, body) =>
      var r := Replaced(lines, name, body); if r.Some? then r.value else lines
    case Insert(after, name, body) =>
      var r := Inserted(lines, after, name, body); if r.Ok? then r.value else lines
    case Delete(name) =>
      var r := Deleted(lines, name); if r.Ok? then r.value else lines
  }

  function ApplyEdits(lines: seq<string>, edits: seq<Edit>): seq<string> {
    if edits == [] then lines
    else ApplyEdit(ApplyEdits(lines, edits[..|edits| - 1]), edits[|edits| - 1])
  }

  lemma EditKeepsHeader(lines: seq<string>, edit: Edit)
    requires FileLines(lines) && Headed(lines) && EditOfLines(edit)
    ensures FileLines(ApplyEdit(lines, edit)) && ApplyEdit(lines, edit)[0] == lines[0]
  {
    hide LabelLine, RegionEnd, SectionEnd, Blanks, Spaced, TrimSpace, TrimCR, IsBlank, IsProtected, IsLabel;
    assert "0x4e47" <= TrimCR(lines[0]);
    HeaderIsNoLabel(lines[0]);
    match edit {
      case ReplaceBody(name, body) =>
        if LabelLine(lines, name).Some? {
          SpacedLineFree(body);
          SplicedLineFree(lines, LabelLine(lines, name).value + 1,
                          RegionEnd(lines, LabelLine(lines, name).value), Spaced(body));
        }
      case Insert(after, name, body) =>
        if Inserted(lines, after, name, body).Ok? {
          var at := InsertAt(lines, LabelLine(lines, after).value);
          BlockLineFree(name, body);
          SplicedLineFree(lines, at, at, BlockLines(name, body));
        }
      case Delete(name) =>
        if Deleted(lines, name).Ok? {
          var i := LabelLine(lines, name).value;
          SplicedLineFree(lines, i, DeleteEnd(lines, i), []);
          assert lines[..i] + [] == lines[..i];
        }
    }
  }

  /** No sequence of edits touches the header line or empties the file. */
  lemma {:induction false} EditsKeepHeader(lines: seq<string>, edits: seq<Edit>)
    requires FileLines(lines) && Headed(lines)
    requires forall edit :: edit in edits ==> EditOfLines(edit)
    ensures var out := ApplyEdits(lines, edits); FileLines(out) && Headed(out) && out[0] == lines[0]
  {
    hide ApplyEdit, FileLines, EditOfLines;
    if edits != [] {
      assert forall edit :: edit in edits[..|edits| - 1] ==> edit in edits;
      EditsKeepHeader(lines, edits[..|edits| - 1]);
      EditKeepsHeader(ApplyEdits(lines, edits[..|edits| - 1]), edits[|edits| - 1]);
      FileNotEmpty(ApplyEdits(lines, edits));
    }
  }

  lemma FileNotEmpty(lines: seq<string>)
    requires FileLines(lines)
    ensures lines != []
  {
  }

  /** Any editing session on a file with the header ends in a file that renders. */
  method RunEdits(editor: TextConfigEditor, edits: seq<Edit>) returns (r: Result<string, EditError>)
    requires editor.Valid() && Headed(editor.lines)
    requires forall edit :: edit in edits ==> EditOfLines(edit)
    modifies editor
    ensures editor.Valid() && editor.lines == ApplyEdits(old(editor.lines), edits)
    ensures editor.lines[0] == old(editor.lines)[0]
    ensures r == Ok(Join(editor.lines, '\n'))
  {
    hide LabelLine, RegionEnd, Spaced, Parsed, Join, Inserted, Deleted, Replaced;
    ghost var lines := editor.lines;
    for n := 0 to |edits|
      invariant editor.Valid() && editor.lines == ApplyEdits(lines, edits[..n])
    {
      EditsKeepHeader(lines, edits[..n]);
      EditKeepsHeader(editor.lines, edits[n]);
      assert edits[..n + 1][..n] == edits[..n];
      match edits[n] {
        case ReplaceBody(name, body) =>
          var _ := editor.ReplaceSectionBody(name, body);
        case Insert(after, name, body) =>
          var _ := editor.InsertSection(after, name, body);
        case Delete(name) =>
          var _ := editor.DeleteSection(name);
      }
    }
    assert edits[..|edits|] == edits;
    EditsKeepHeader(lines, edits);
    r := editor.Render();
  }

  // ---------------------------------------------------------------------
  // Insertion undone
  // ---------------------------------------------------------------------

  lemma ExitKind()
    ensures KindOf("exit").Exit?
  {
    assert TrimSpace("exit") == "exit";
  }

  lemma BlockLabelKind(name: string)
    requires BlockSectionLabel(name) && Trimmed(name) == name
    ensures KindOf(name).Block? && IsLabel(name)
  {
    hide Trimmed;
    assert name != "" && name[0] != '!' && name[0] != 'e';
  }

  lemma LabelBehind(a: seq<string>, name: string, rest: seq<string>)
    requires LabelLine(a, name) == None && IsLabel(name) && Trimmed(name) == name
    ensures LabelLine(a + ([name] + rest), name) == Some(|a|)
  {
    hide IsLabel, Trimmed, LabelLine;
    LabelLineConcat(a, [name] + rest, name);
    LabelFirst(name, rest);
  }

  lemma ExitBehind(lines: seq<string>, i: nat, region: seq<string>, tail: seq<string>)
    requires i < |lines| && KindOf(lines[i]).Block? && lines[i + 1..] == region + tail
    requires AllNeutral(region) && tail != [] && KindOf(tail[0]).Exit?
    ensures ExitOf(lines, i) == Some(i + 1 + |region|)
  {
    hide KindOf, ScanExit, AllNeutral;
    ScanNeutral(region, 0);
    ScanConcat(region, tail, 0);
    ScanExitFirst(tail);
  }

  lemma BlockShape(a: seq<string>, name: string, region: seq<string>, b: seq<string>)
    ensures var out, behind := a + ([name] + region + ["exit", ""]) + b, region + (["exit", ""] + b);
            out == a + ([name] + behind) && out[|a|] == name && out[|a| + 1..] == behind
  {
    assert ([name] + region + ["exit", ""]) + b == [name] + (region + (["exit", ""] + b));
  }

  lemma LabelFirst(name: string, rest: seq<string>)
    requires IsLabel(name) && Trimmed(name) == name
    ensures LabelLine([name] + rest, name) == Some(0)
  {
    hide IsLabel, Trimmed;
  }

  lemma ScanExitFirst(lines: seq<string>)
    requires lines != [] && KindOf(lines[0]).Exit?
    ensures ScanExit(lines, 0) == Found(0)
  {
    hide KindOf;
  }

  /** Deleting a freshly inserted block restores the file line for line. */
  lemma InsertThenDelete(lines: seq<string>, after: string, name: string, body: seq<string>)
    requires BlockSectionLabel(name) && Trimmed(name) == name && !IsProtected(name) && AllInert(body)
    requires Inserted(lines, after, name, body).Ok?
    ensures Deleted(Inserted(lines, after, name, body).value, name) == Ok(lines)
  {
    hide KindOf, Trimmed, BlockSectionLabel, Spaced, ExitOf, LabelLine, IsProtected, RegionEnd, Blanks, TrimSpace,
      AllInert, IsLabel, AllNeutral;
    var at := InsertAt(lines, LabelLine(lines, after).value);
    var a, b, region := lines[..at], lines[at..], Spaced(body);
    var tail := ["exit", ""] + b;
    BlockShape(a, name, region, b);
    BlockLabelKind(name);
    assert lines == a + b;
    LabelLineConcat(a, b, name);
    LabelBehind(a, name, region + tail);
    SpacedNeutral(body);
    ExitKind();
    var out := a + ([name] + (region + tail));
    ExitBehind(out, at, region, tail);
    DeleteBlock(out, a, name, region, b);
  }

  lemma DeleteBlock(out: seq<string>, a: seq<string>, name: string, region: seq<string>, b: seq<string>)
    requires out == a + ([name] + (region + (["exit", ""] + b)))
    requires LabelLine(out, name) == Some(|a|) && !IsProtected(name)
    requires ExitOf(out, |a|) == Some(|a| + 1 + |region|)
    ensures Deleted(out, name) == Ok(a + b)
  {
    hide ExitOf, LabelLine, IsProtected, RegionEnd, Trimmed;
    var end := |a| + 2 + |region|;
    TailAt(a + ([name] + region), b);
    assert out == (a + ([name] + region)) + (["exit", ""] + b);
    BlankLine();
    SectionEndCases(out, |a|);
    hide SectionEnd;
    assert DeleteEnd(out, |a|) == end + 1;
    assert out[..|a|] == a;
  }

  lemma TailAt(front: seq<string>, b: seq<string>)
    ensures var out := front + (["exit", ""] + b);
            |out| == |front| + 2 + |b| && out[|front| + 1] == "" && out[|front| + 2..] == b
  {
  }

  lemma BlankLine()
    ensures Trimmed("") == ""
  {
  }
}
