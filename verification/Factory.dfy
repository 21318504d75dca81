/** A smallest file of the shape the codecs work on: a header and the nine managed sections, all empty. */
module Factory {
  import opened Wrappers
  import opened Text
  import opened TextCfg
  import opened TextEdit
  import opened EditFrame
  import opened Sections
  import opened Grammar
  import opened Codec
  import opened Render
  import opened RenderFrame
  import opened PortTrip
  import opened Stability
  import opened NonInterference
  import opened Apply
  import opened Declarations

  const FIRST_LINE := "0x4e47"

  function SectionLines(name: string): seq<string> {
    [name, "", "exit", ""]
  }

  /** The first n managed sections, each with an empty double-spaced body. */
  function EmptySections(n: nat): seq<string>
    requires n <= PORT_COUNT + 1
  {
    if n == 0 then [] else EmptySections(n - 1) + SectionLines(ManagedNames()[n - 1])
  }

  function FactoryLines(): seq<string> {
    [FIRST_LINE] + EmptySections(PORT_COUNT + 1)
  }

  lemma FirstLineIsPlain()
    ensures KindOf(FIRST_LINE).Plain? && KindOf("").Skip? && KindOf("exit").Exit?
    ensures !IsLabel(FIRST_LINE) && !IsLabel("") && !IsLabel("exit")
  {
    TrimSpaceOfTrimmed(FIRST_LINE);
    TrimSpaceOfTrimmed("exit");
    assert TrimCR(FIRST_LINE) == FIRST_LINE && TrimCR("exit") == "exit";
    hide TrimSpace, TrimCR;
    assert FIRST_LINE[0] == '0';
  }

  /** A managed label is its own trimmed form and opens a block. */
  lemma ManagedNameKind(k: nat)
    requires k <= PORT_COUNT
    ensures var name := ManagedNames()[k];
            Trimmed(name) == name && IsLabel(name) && KindOf(name).Block? && '\n' !in name
  {
    if k == 0 {
      FirstName();
      DatabaseKind();
    } else {
      PortName(k);
      PortKind(k);
    }
    hide KindOf, ManagedNames, Trimmed;
  }

  lemma DatabaseKind()
    ensures Trimmed(VLAN_DATABASE) == VLAN_DATABASE && KindOf(VLAN_DATABASE).Block? && '\n' !in VLAN_DATABASE
  {
    TrimSpaceOfTrimmed(VLAN_DATABASE);
    assert TrimCR(VLAN_DATABASE) == VLAN_DATABASE;
    hide TrimSpace, TrimCR;
    assert VLAN_DATABASE[0] == 'v';
  }

  lemma PortKind(port: int)
    requires IsPortNumber(port)
    ensures var name := InterfaceLabel(port); Trimmed(name) == name && KindOf(name).Block? && '\n' !in name
  {
    IDWord(port);
    var id := Itoa(port);
    hide Itoa;
    LabelOfID(id);
  }

  lemma LabelOfID(id: string)
    requires id != "" && SpaceFree(id) && '\n' !in id
    ensures var name := "interface 0/" + id; Trimmed(name) == name && KindOf(name).Block? && '\n' !in name
  {
    var name := "interface 0/" + id;
    InterfaceStem(id);
    assert name[0] == 'i' && name[|name| - 1] == id[|id| - 1];
    TrimSpaceOfTrimmed(name);
    assert TrimCR(name) == name;
    hide TrimSpace, TrimCR;
  }

  /** Before its own section a label is nowhere in the file. */
  lemma {:induction false} NotYet(n: nat, k: nat)
    requires n <= k <= PORT_COUNT
    ensures LabelLine([FIRST_LINE] + EmptySections(n), ManagedNames()[k]) == None
  {
    hide KindOf, ManagedNames, Trimmed, SectionLines, LabelLine;
    var name := ManagedNames()[k];
    if n == 0 {
      FirstLineIsPlain();
      assert [FIRST_LINE] + EmptySections(0) == [FIRST_LINE];
    } else {
      NotYet(n - 1, k);
      NamesDiffer(n - 1, k);
      ManagedNameKind(n - 1);
      OtherSection(ManagedNames()[n - 1], name);
      LabelLineConcat([FIRST_LINE] + EmptySections(n - 1), SectionLines(ManagedNames()[n - 1]), name);
      assert [FIRST_LINE] + EmptySections(n)
               == [FIRST_LINE] + EmptySections(n - 1) + SectionLines(ManagedNames()[n - 1]);
    }
  }

  lemma OtherSection(other: string, name: string)
    requires Trimmed(other) == other && other != name
    ensures LabelLine(SectionLines(other), name) == None
  {
    FirstLineIsPlain();
    hide KindOf, Trimmed, LabelLine;
    var lines := SectionLines(other);
    assert forall k :: 0 <= k < |lines| && IsLabel(lines[k]) ==> lines[k] == other;
  }

  /** The file around section k. */
  lemma {:induction false} AroundSection(n: nat, k: nat) returns (rest: seq<string>)
    requires k < n <= PORT_COUNT + 1
    ensures EmptySections(n) == EmptySections(k) + SectionLines(ManagedNames()[k]) + rest
  {
    hide ManagedNames;
    if k == n - 1 {
      rest := [];
    } else {
      var front := AroundSection(n - 1, k);
      rest := front + SectionLines(ManagedNames()[n - 1]);
    }
  }

  lemma SectionIsSimple(k: nat)
    requires k <= PORT_COUNT
    ensures Simple(FactoryLines(), ManagedNames()[k]) && Region(FactoryLines(), ManagedNames()[k]) == Some([""])
  {
    hide KindOf, ManagedNames, Trimmed, EmptySections, Simple, LabelLine, Region;
    var name := ManagedNames()[k];
    FirstLineIsPlain();
    ManagedNameKind(k);
    NotYet(k, k);
    var rest := AroundSection(PORT_COUNT + 1, k);
    var front := [FIRST_LINE] + EmptySections(k);
    LabelAlone(name, name);
    LabelLineConcat(front, [name], name);
    var a, b := front + [name], ["exit", ""] + rest;
    assert FactoryLines() == a + [""] + b;
    SimpleFrom(a, [""], b, name);
  }

  lemma {:induction false} SectionsLineFree(n: nat)
    requires n <= PORT_COUNT + 1
    ensures LineFree(EmptySections(n))
  {
    hide ManagedNames, KindOf, Trimmed;
    if n > 0 {
      SectionsLineFree(n - 1);
      ManagedNameKind(n - 1);
    }
  }

  /** The file is well-formed, so the theorems about such files speak of something. */
  lemma FactoryIsWellFormed()
    ensures WellFormed(FactoryLines()) && Headed(FactoryLines())
  {
    hide ManagedNames, KindOf, Trimmed, Simple, EmptySections;
    SectionsLineFree(PORT_COUNT + 1);
    forall k | 0 <= k < PORT_COUNT + 1
      ensures Simple(FactoryLines(), ManagedNames()[k])
    {
      SectionIsSimple(k);
    }
    assert TrimCR(FIRST_LINE) == FIRST_LINE;
    assert FactoryLines()[0] == FIRST_LINE;
  }

  // ---------------------------------------------------------------------
  // The factory file with one line the VLAN codec refuses
  // ---------------------------------------------------------------------

  const REFUSED := "vlan x"

  /** The database body holds the refused line, everything else is as in the factory file. */
  ghost function RefusedLines(): seq<string> {
    GetOr(Replaced(FactoryLines(), VLAN_DATABASE, [REFUSED]), [])
  }

  lemma RefusedIsInert()
    ensures Inert(REFUSED) && '\n' !in REFUSED && TrimCR(REFUSED) == REFUSED && TrimSpace(REFUSED) == REFUSED
  {
    TrimSpaceOfTrimmed(REFUSED);
    assert TrimCR(REFUSED) == REFUSED;
    hide TrimSpace, TrimCR;
    assert REFUSED[0] == 'v' && REFUSED[5] == 'x';
  }

  /** The line is in the VLAN codec's namespace and matches none of its templates. */
  lemma RefusedLineRead()
    ensures DbLine(REFUSED) == NO_DB.(issues := [BadLine(VLAN_DATABASE, REFUSED, NoDatabaseTemplate)])
  {
    RefusedIsInert();
    var words := ["vlan", "x"];
    assert words[1..] == ["x"] && Phrase(["x"]) == "x";
    assert Phrase(words) == "vlan" + " " + "x" == REFUSED;
    FieldsOfPhrase(words);
    LetterIsNoID();
    hide TrimSpace, TrimCR, Fields, Phrase, ParseIDs, Split;
    assert "vlan " <= REFUSED;
  }

  lemma LetterIsNoID()
    ensures ParseIDs(Split("x", ',')) == None
  {
    SplitOfPiece("x", ',');
    TrimSpaceOfTrimmed("x");
    assert "x"[..0] == "";
    assert DigitsValue("x") == None;
    assert Atoi("x") == None;
    hide Split, TrimSpace;
  }

  /** The file is well-formed and headed, and decode has exactly this one complaint about its database. */
  lemma RefusedFile()
    ensures WellFormed(RefusedLines()) && Headed(RefusedLines())
    ensures BodyOf(RefusedLines(), VLAN_DATABASE) == Some([REFUSED])
    ensures DecodeIssues(BodiesOf(RefusedLines())) != []
  {
    hide Simple, ManagedNames, FactoryLines, Spaced, BodyOf, Region, Inert, KindOf, FileLines, Headed, LineFree,
         Replaced, DecodeIssues, BodiesOf;
    var lines, body := FactoryLines(), [REFUSED];
    FactoryIsWellFormed();
    RefusedIsInert();
    assert AllInert(body);
    FirstName();
    assert Simple(lines, ManagedNames()[0]);
    SelfSpliced(lines, VLAN_DATABASE, body);
    SimpleIsReplaced(lines, VLAN_DATABASE, body);
    forall k | 0 <= k < PORT_COUNT + 1
      ensures Simple(RefusedLines(), ManagedNames()[k])
    {
      if k > 0 {
        NamesDiffer(k, 0);
        OtherSpliced(lines, VLAN_DATABASE, body, ManagedNames()[k]);
      }
    }
    BodyLineFree(body);
    ReplacedIsFile(lines, VLAN_DATABASE, body);
    FileHasLines(lines);
    SpliceKeepsHeader(lines, VLAN_DATABASE, body);
    RefusedIssues(RefusedLines());
  }

  lemma RefusedIssues(lines: seq<string>)
    requires BodyOf(lines, VLAN_DATABASE) == Some([REFUSED])
    ensures DecodeIssues(BodiesOf(lines)) != []
  {
    hide BodyOf, DbLine, PortIssues, Undeclared, DeclaredVLANs, AllMembers, LabelLine, InterfaceBodies;
    RefusedLineRead();
    DbSingle(REFUSED);
    assert DbBody(BodiesOf(lines).database).issues == [BadLine(VLAN_DATABASE, REFUSED, NoDatabaseTemplate)];
  }

  /** Port 1 off, everything else at its defaults. */
  ghost function PortOneOff(): (desired: map<int, PortSettings>)
    ensures AllPortsIn(desired)
  {
    map port | 1 <= port <= PORT_COUNT && IsPortNumber(port) ::
      if port == 1 then DEFAULT_SETTINGS.(enabled := false) else DEFAULT_SETTINGS
  }

  /**
   On this file turning port 1 off is rendered and uploaded, and a switch that serves the
   upload back, byte for byte, at every poll is never found staged: the apply can only run
   into its deadline or be cancelled.
   */
  lemma PortOneOffIsNeverStaged(upload: string, env: nat -> Attempt, r: WaitResult)
    requires upload == Join(PortRendered(RefusedLines(), PortOneOff()), '\n')
    requires forall k: nat :: env(k).served == File(upload)
    requires IsWaitFor(r, PortPlanOf(Join(RefusedLines(), '\n'), PortOneOff()), upload, env)
    ensures PortRenders(Join(RefusedLines(), '\n'), PortOneOff())
    ensures IsPortUpload(upload, Join(RefusedLines(), '\n'), PortOneOff())
    ensures r.DeadlinePassed? || r.Cancelled?
  {
    hide RefusedLines, Join, PortRendered, WellFormed, Tidy, Headed, BodiesOf, DecodeIssues, LinesOf,
         PortPlanOf, FileLines, PortRenders, PresentPorts, IsWaitFor, PassIn, PortSplicesHold, PortsReplaced,
         PortOneOff, ExactPorts, DecodedState, DecodedSettings, ServedAs;
    PortOneOffIsExact();
    var lines, raw, desired := RefusedLines(), Join(RefusedLines(), '\n'), PortOneOff();
    RefusedFile();
    WellFormedIsTidy(lines);
    WellFormedIsFile(lines);
    LinesOfJoin(lines);
    TidyRenders(raw, desired);
    ServedAsIs(BodiesOf(LinesOf(upload)));
    ForeignGrammarIsNeverStaged(raw, desired, upload, env, r);
    RenderedPortsDecode(lines, desired);
    TidyIsFile(PortRendered(lines, desired));
    LinesOfJoin(PortRendered(lines, desired));
    NotBadUpload(r, PortPlanOf(raw, desired), upload, env);
  }

  lemma PortOneOffIsExact()
    ensures ExactPorts(PortOneOff())
  {
  }

  lemma NotBadUpload(r: WaitResult, plan: VerifyPlan, upload: string, env: nat -> Attempt)
    requires IsWaitFor(r, plan, upload, env) && upload != ""
    ensures !r.BadUpload?
  {
    hide Judge, AllTransient;
  }

  // ---------------------------------------------------------------------
  // A splice of an unbalanced region
  // ---------------------------------------------------------------------

  /** A block that opens another one in front of a nested interface; the inner block's exit comes behind it. */
  const UNBALANCED: seq<string> := ["configure", "lineconfig", "interface 3/1", "exit", "exit", "exit"]

  lemma LiteralKinds()
    ensures KindOf("configure").Block? && KindOf("lineconfig").Block? && KindOf("interface 3/1").Block?
    ensures KindOf("exit").Exit? && KindOf("").Skip?
    ensures Trimmed("configure") == "configure" && IsInterface("interface 3/1")
    ensures !IsInterface("configure") && !IsInterface("lineconfig")
  {
    FirstLineIsPlain();
    LiteralTrimmed("configure");
    LiteralTrimmed("lineconfig");
    LiteralTrimmed("interface 3/1");
    hide Trimmed;
    assert "configure"[0] == 'c' && "lineconfig"[0] == 'l' && "lineconfig"[1] == 'i' && "interface 3/1"[0] == 'i';
    assert "interface " <= "interface 3/1";
  }

  lemma LiteralTrimmed(line: string)
    requires line != "" && !IsSpace(line[0]) && !IsSpace(line[|line| - 1])
    ensures Trimmed(line) == line
  {
    assert TrimCR(line) == line;
    TrimSpaceOfTrimmed(line);
    hide TrimSpace, TrimCR;
  }

  lemma ScanStep(lines: seq<string>, rest: seq<string>, depth: nat)
    requires lines != [] && lines[1..] == rest
    ensures ScanExit(lines, depth)
         == match KindOf(lines[0])
            case Exit => if depth == 0 then Found(0) else Later(ScanExit(rest, depth - 1), 1)
            case Block => Later(ScanExit(rest, depth + 1), 1)
            case _ => Later(ScanExit(rest, depth), 1)
  {
    hide KindOf;
  }

  /** Three exits, and what opens in front of them. */
  lemma ExitsScanned(e: seq<string>, i: seq<string>)
    requires e == ["exit", "exit", "exit"] && i == ["interface 3/1"] + e
    ensures ScanExit(i, 0) == Found(2) && ScanExit(i, 1) == Found(3)
  {
    LiteralKinds();
    hide KindOf, ScanExit, Trimmed, IsInterface;
    var two, one := ["exit", "exit"], ["exit"];
    ScanStep(one, [], 0);
    ScanStep(two, one, 1);
    ScanStep(two, one, 0);
    ScanStep(e, two, 2);
    ScanStep(e, two, 1);
    ScanStep(i, e, 0);
    ScanStep(i, e, 1);
  }

  /**
   The block's own exit is its last line; once its region is emptied the exit of the removed
   block is taken for it.
   */
  lemma UnbalancedSplice()
    ensures Matched(UNBALANCED, "configure") && LabelLine(UNBALANCED, "configure") == Some(0)
    ensures Region(UNBALANCED, "configure") == Some(["lineconfig"]) && !Balanced(["lineconfig"])
    ensures Replaced(UNBALANCED, "configure", []) == Some(["configure", "", "interface 3/1", "exit", "exit", "exit"])
    ensures ExitOf(UNBALANCED, 0) == Some(5)
    ensures ExitOf(["configure", "", "interface 3/1", "exit", "exit", "exit"], 0) == Some(4)
  {
    hide KindOf, Trimmed, IsInterface, ScanExit, BeforeInterface, LabelLine, ExitOf, RegionEnd;
    LiteralKinds();
    var lines, out := UNBALANCED, ["configure", "", "interface 3/1", "exit", "exit", "exit"];
    UnbalancedExits(lines, out);
    UnbalancedLabel(lines);
    UnbalancedRegion(lines);
    OneLeftOpen();
    assert Spaced([]) == [""];
    assert ["configure"] + [""] + ["interface 3/1", "exit", "exit", "exit"] == out;
    assert lines[..1] == ["configure"] && lines[2..] == ["interface 3/1", "exit", "exit", "exit"];
  }

  lemma OneLeftOpen()
    ensures ScanExit(["lineconfig"], 0) == Open(1)
  {
    LiteralKinds();
    hide KindOf, Trimmed, IsInterface;
    assert ["lineconfig"][1..] == [];
  }

  lemma UnbalancedExits(lines: seq<string>, out: seq<string>)
    requires lines == UNBALANCED && out == ["configure", "", "interface 3/1", "exit", "exit", "exit"]
    ensures ExitOf(lines, 0) == Some(5) && ExitOf(out, 0) == Some(4)
  {
    hide KindOf, Trimmed, IsInterface, ScanExit;
    LiteralKinds();
    var e, i := ["exit", "exit", "exit"], ["interface 3/1", "exit", "exit", "exit"];
    assert i == ["interface 3/1"] + e;
    ExitsScanned(e, i);
    ScanStep(lines[1..], i, 0);
    ScanStep(out[1..], i, 0);
  }

  lemma UnbalancedLabel(lines: seq<string>)
    requires lines == UNBALANCED
    ensures LabelLine(lines, "configure") == Some(0)
  {
    hide KindOf, Trimmed;
    LiteralKinds();
  }

  lemma UnbalancedRegion(lines: seq<string>)
    requires lines == UNBALANCED && ExitOf(lines, 0) == Some(5)
    ensures RegionEnd(lines, 0) == 2 && lines[1..2] == ["lineconfig"]
  {
    hide KindOf, Trimmed, IsInterface, ExitOf, BeforeInterface;
    LiteralKinds();
    var inside := lines[1..5];
    assert inside[0] == "lineconfig" && inside[1] == "interface 3/1";
    assert BeforeInterface(inside) == 1;
  }
}
