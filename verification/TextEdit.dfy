/**
 The line-splice editor: what each mutation does to the file's lines, and the
 editor object that keeps its parsed view in step with them.
 */
module TextEdit {
  import opened Wrappers
  import opened Text
  import opened TextCfg

  // ---------------------------------------------------------------------
  // The mutations on lines
  // ---------------------------------------------------------------------

  /** A line of a file: text without a line break in it. */
  predicate LineFree(lines: seq<string>) {
    forall line :: line in lines ==> '\n' !in line
  }

  /** The lines of some file that is not empty. */
  predicate FileLines(lines: seq<string>) {
    lines != [] && lines != [""] && LineFree(lines)
  }

  predicate IsBlank(line: string) {
    Trimmed(line) == ""
  }

  /** A blank line behind the label, then each content line and its own blank line. */
  function Spaced(body: seq<string>): seq<string> {
    if body == [] then [""] else Spaced(body[..|body| - 1]) + [body[|body| - 1], ""]
  }

  /** Line by line: blanks at the even offsets, and the content lines, in order, at the odd ones. */
  lemma {:induction false} SpacedAt(body: seq<string>)
    ensures |Spaced(body)| == 2 * |body| + 1
    ensures forall k :: 0 <= k <= |body| ==> Spaced(body)[2 * k] == ""
    ensures forall k :: 0 <= k < |body| ==> Spaced(body)[2 * k + 1] == body[k]
  {
    if body != [] {
      SpacedAt(body[..|body| - 1]);
    }
  }

  function Replaced(lines: seq<string>, name: string, body: seq<string>): Option<seq<string>> {
    match LabelLine(lines, name)
    case None => None
    case Some(i) => Some(lines[..i + 1] + Spaced(body) + lines[RegionEnd(lines, i)..])
  }

  /** The line after a section: behind its exit, or behind its body. */
  function SectionEnd(lines: seq<string>, i: nat): (end: nat)
    requires i < |lines|
    ensures i < end <= |lines|
  {
    hide KindOf, ScanExit, RegionEnd;
    match ExitOf(lines, i)
    case Some(e) => ExitOfBound(lines, i); e + 1
    case None => RegionEnd(lines, i)
  }

  lemma SectionEndCases(lines: seq<string>, i: nat)
    requires i < |lines|
    ensures SectionEnd(lines, i) == match ExitOf(lines, i) case Some(e) => e + 1 case None => RegionEnd(lines, i)
  {
    hide ExitOf, RegionEnd;
  }

  /** The number of blank lines at the front. */
  function Blanks(lines: seq<string>): (n: nat)
    ensures n <= |lines|
  {
    hide IsBlank;
    if lines != [] && IsBlank(lines[0]) then 1 + Blanks(lines[1..]) else 0
  }

  lemma BlanksStep(lines: seq<string>, at: nat)
    requires at <= |lines|
    ensures Blanks(lines[at..])
         == if at < |lines| && IsBlank(lines[at]) then 1 + Blanks(lines[at + 1..]) else 0
  {
    hide IsBlank;
  }

  function InsertAt(lines: seq<string>, anchor: nat): (at: nat)
    requires anchor < |lines|
    ensures anchor < at <= |lines|
  {
    var end := SectionEnd(lines, anchor);
    end + Blanks(lines[end..])
  }

  function BlockLines(name: string, body: seq<string>): seq<string> {
    [name] + Spaced(body) + ["exit", ""]
  }

  datatype EditError =
    | EmptyLabel
    | NoSection(name: string)
    | SectionExists(name: string)
    | Protected(name: string)
    | EmptyResult            // the file that is left does not parse
    | HeaderLost

  function Inserted(lines: seq<string>, after: string, name: string, body: seq<string>)
    : Result<seq<string>, EditError>
  {
    if TrimSpace(name) == "" then Err(EmptyLabel)
    else if LabelLine(lines, name).Some? then Err(SectionExists(name))
    else
      match LabelLine(lines, after)
      case None => Err(NoSection(after))
      case Some(anchor) =>
        var at := InsertAt(lines, anchor);
        Ok(lines[..at] + BlockLines(name, body) + lines[at..])
  }

  predicate IsProtected(name: string) {
    name == "vlan database" || name == "configure"
  }

  /** The line after a deleted section: its end, and one blank line if there is one. */
  function DeleteEnd(lines: seq<string>, i: nat): (end: nat)
    requires i < |lines|
    ensures i < end <= |lines|
  {
    var end := SectionEnd(lines, i);
    if end < |lines| && IsBlank(lines[end]) then end + 1 else end
  }

  function Deleted(lines: seq<string>, name: string): Result<seq<string>, EditError> {
    if IsProtected(name) then Err(Protected(name))
    else
      match LabelLine(lines, name)
      case None => Err(NoSection(name))
      case Some(i) => Ok(lines[..i] + lines[DeleteEnd(lines, i)..])
  }

  /** The firmware-validated magic at the start of the first line. */
  predicate Headed(lines: seq<string>) {
    lines != [] && "0x4e47" <= TrimCR(lines[0])
  }

  // ---------------------------------------------------------------------
  // The editor
  // ---------------------------------------------------------------------

  lemma JoinEmpty(lines: seq<string>)
    requires LineFree(lines)
    ensures Join(lines, '\n') == "" <==> !FileLines(lines)
  {
    if lines != [] && Join(lines, '\n') == "" {
      SplitOfJoin(lines, '\n');
    }
  }

  /** Inclusive [from, to] out, region in; from == to + 1 inserts before from. */
  method SpliceRegion(lines: seq<string>, from: int, to: int, region: seq<string>) returns (out: seq<string>)
    requires 0 <= from <= to + 1 <= |lines|
    ensures out == lines[..from] + region + lines[to + 1..]
  {
    out := [];
    out := out + lines[..from];
    out := out + region;
    out := out + lines[to + 1..];
  }

  method DoubleSpacedBody(body: seq<string>) returns (region: seq<string>)
    ensures region == Spaced(body)
  {
    region := [""];
    for i := 0 to |body|
      invariant region == Spaced(body[..i])
    {
      assert body[..i + 1][..i] == body[..i];
      region := region + [body[i], ""];
    }
    assert body[..|body|] == body;
  }

  lemma SpacedLineFree(body: seq<string>)
    requires LineFree(body)
    ensures LineFree(Spaced(body))
  {
    if body != [] {
      SpacedLineFree(body[..|body| - 1]);
    }
  }

  /** A body splice keeps the label line and a blank, so it never empties the file. */
  lemma ReplacedIsFile(lines: seq<string>, name: string, body: seq<string>)
    requires FileLines(lines) && LineFree(body) && Replaced(lines, name, body).Some?
    ensures FileLines(Replaced(lines, name, body).value)
  {
    hide LabelLine, RegionEnd;
    SpacedLineFree(body);
    var i := LabelLine(lines, name).value;
    SplicedLineFree(lines, i + 1, RegionEnd(lines, i), Spaced(body));
    hide Spaced;
    SpacedNotEmpty(body);
  }

  lemma SpacedNotEmpty(body: seq<string>)
    ensures |Spaced(body)| >= 1
  {
  }

  lemma BlockLineFree(name: string, body: seq<string>)
    requires LineFree(body) && '\n' !in name
    ensures LineFree(BlockLines(name, body))
  {
    SpacedLineFree(body);
    hide Spaced;
  }

  lemma SplicedLineFree(lines: seq<string>, from: nat, to: nat, region: seq<string>)
    requires from <= to <= |lines| && LineFree(lines) && LineFree(region)
    ensures LineFree(lines[..from] + region + lines[to..])
  {
  }

  class TextConfigEditor {
    var lines: seq<string>
    var tc: TextConfig
    var dirty: bool

    /** The parsed view is the view of the working lines. */
    ghost predicate Valid()
      reads this
    {
      FileLines(lines) && tc == Parsed(Join(lines, '\n'))
    }

    constructor (raw: string)
      requires raw != ""
      ensures Valid() && !dirty && lines == LinesOf(raw) && tc == Parsed(raw)
    {
      lines := Split(raw, '\n');
      tc := Parsed(raw);
      dirty := false;
      new;
      SplitPieces(raw, '\n');
      JoinEmpty(lines);
    }

    method ReplaceSectionBody(name: string, body: seq<string>) returns (err: Option<EditError>)
      requires Valid() && LineFree(body)
      modifies this
      ensures match Replaced(old(lines), name, body)
              case Some(out) =>
                lines == out && (if FileLines(out) then err == None && Valid() && dirty else err == Some(EmptyResult))
              case None =>
                err == Some(NoSection(name)) && lines == old(lines) && tc == old(tc) && dirty == old(dirty)
    {
      hide LabelLine, RegionEnd, Spaced, Parsed, Join, Trimmed, KindOf, LineFree;
      var s := Lookup(name);
      if s.None? {
        return Some(NoSection(name));
      }
      var region := DoubleSpacedBody(body);
      SpacedLineFree(body);
      SplicedLineFree(lines, s.value.bodyStart, s.value.bodyEnd + 1, region);
      lines := SpliceRegion(lines, s.value.bodyStart, s.value.bodyEnd, region);
      err := Sync();
    }

    method Lookup(name: string) returns (s: Option<Section>)
      requires Valid()
      ensures s == match LabelLine(lines, name)
                   case None => None
                   case Some(i) => Some(SectionAt(lines, i))
    {
      SplitOfJoin(lines, '\n');
      s := FindSection(tc, name);
    }

    method Sync() returns (err: Option<EditError>)
      requires LineFree(lines)
      modifies this`tc, this`dirty
      ensures if FileLines(lines) then err == None && Valid() && dirty
              else err == Some(EmptyResult) && tc == old(tc) && dirty == old(dirty)
    {
      JoinEmpty(lines);
      var parsed := ParseTextConfig(Join(lines, '\n'));
      match parsed
      case Err(_) => err := Some(EmptyResult);
      case Ok(view) => tc, dirty, err := view, true, None;
    }

    method InsertSection(after: string, name: string, body: seq<string>) returns (err: Option<EditError>)
      requires Valid() && LineFree(body) && '\n' !in name
      modifies this
      ensures match Inserted(old(lines), after, name, body)
              case Ok(out) =>
                lines == out && (if FileLines(out) then err == None && Valid() && dirty else err == Some(EmptyResult))
              case Err(e) =>
                err == Some(e) && lines == old(lines) && tc == old(tc) && dirty == old(dirty)
    {
      hide LabelLine, RegionEnd, Spaced, Parsed, Join, Trimmed, IsBlank, Blanks, SectionEnd, KindOf, TrimSpace,
           ScanExit, ExitOf, LineFree;
      if TrimSpace(name) == "" {
        return Some(EmptyLabel);
      }
      var existing := Lookup(name);
      if existing.Some? {
        return Some(SectionExists(name));
      }
      var anchor := Lookup(after);
      if anchor.None? {
        return Some(NoSection(after));
      }
      var s, working := anchor.value, lines;
      var pos := s.bodyEnd + 1;
      var exits := PairSectionExits(working);
      if s.labelLine in exits {
        pos := exits[s.labelLine] + 1;
      }
      assert pos == SectionEnd(working, s.labelLine) by { SectionEndCases(working, s.labelLine); }
      while pos < |working| && IsBlank(working[pos])
        modifies {}
        invariant 0 <= pos <= |working|
        invariant pos + Blanks(working[pos..]) == InsertAt(working, s.labelLine)
      {
        BlanksStep(working, pos);
        pos := pos + 1;
      }
      BlanksStep(working, pos);
      var region := DoubleSpacedBody(body);
      BlockLineFree(name, body);
      SplicedLineFree(working, pos, pos, BlockLines(name, body));
      lines := SpliceRegion(lines, pos, pos - 1, [name] + region + ["exit", ""]);
      err := Sync();
    }

    method DeleteSection(name: string) returns (err: Option<EditError>)
      requires Valid()
      modifies this
      ensures match Deleted(old(lines), name)
              case Ok(out) =>
                lines == out && (if FileLines(out) then err == None && Valid() && dirty else err == Some(EmptyResult))
              case Err(e) =>
                err == Some(e) && lines == old(lines) && tc == old(tc) && dirty == old(dirty)
    {
      hide LabelLine, RegionEnd, Parsed, Join, Trimmed, IsBlank, SectionEnd, KindOf, ScanExit, IsProtected, ExitOf,
        LineFree;
      if IsProtected(name) {
        return Some(Protected(name));
      }
      var found := Lookup(name);
      if found.None? {
        return Some(NoSection(name));
      }
      var s, working := found.value, lines;
      var end := s.bodyEnd;
      var exits := PairSectionExits(working);
      if s.labelLine in exits {
        end := exits[s.labelLine];
      }
      assert end + 1 == SectionEnd(working, s.labelLine) by { SectionEndCases(working, s.labelLine); }
      if end + 1 < |working| && IsBlank(working[end + 1]) {
        end := end + 1;
      }
      SplicedLineFree(working, s.labelLine, end + 1, []);
      assert working[..s.labelLine] + [] + working[end + 1..]
          == working[..s.labelLine] + working[DeleteEnd(working, s.labelLine)..];
      lines := SpliceRegion(lines, s.labelLine, end, []);
      err := Sync();
    }

    method Render() returns (r: Result<string, EditError>)
      requires Valid()
      ensures r == if Headed(lines) then Ok(Join(lines, '\n')) else Err(HeaderLost)
    {
      if !("0x4e47" <= TrimCR(lines[0])) {
        return Err(HeaderLost);
      }
      return Ok(Join(lines, '\n'));
    }
  }
}
