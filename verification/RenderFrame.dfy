/** What the two renders do to the nine managed bodies of a well-formed file. */
module RenderFrame {
  import opened Wrappers
  import opened Text
  import opened TextCfg
  import opened TextEdit
  import opened EditFrame
  import opened Sections
  import opened VlanState
  import opened Grammar
  import opened Codec
  import opened Render

  // ---------------------------------------------------------------------
  // Many splices
  // ---------------------------------------------------------------------

  /** Splicing a list of simple sections sets their regions and leaves every other one alone. */
  lemma {:induction false} SplicedAll(lines: seq<string>, names: seq<string>, bodies: seq<seq<string>>, other: string)
    requires |names| == |bodies| && Distinct(names) && AllSimple(lines, names) && AllBodiesInert(bodies)
    requires Simple(lines, other)
    ensures ReplacedAll(lines, names, bodies).Some?
    ensures var out := ReplacedAll(lines, names, bodies).value;
            && Simple(out, other)
            && (other !in names ==>
                  Region(out, other) == Region(lines, other) && BodyOf(out, other) == BodyOf(lines, other))
            && (forall k :: 0 <= k < |names| && names[k] == other ==>
                  Region(out, other) == Some(Spaced(bodies[k])) && BodyOf(out, other) == Some(bodies[k]))
  {
    hide Simple, AllInert, Region, BodyOf, Replaced, Spaced;
    if names != [] {
      var n := |names| - 1;
      var init, last, body := names[..n], names[n], bodies[n];
      assert forall k :: 0 <= k < n ==> init[k] == names[k] && bodies[..n][k] == bodies[k];
      assert forall k :: 0 <= k < n ==> Simple(lines, names[k]) && AllInert(bodies[k]);
      SplicedAll(lines, init, bodies[..n], other);
      SplicedAll(lines, init, bodies[..n], last);
      var mid := ReplacedAll(lines, init, bodies[..n]).value;
      SimpleIsReplaced(mid, last, body);
      if last == other {
        SelfSpliced(mid, last, body);
      } else {
        OtherSpliced(mid, last, body, other);
        assert other in names ==> other in init;
      }
    }
  }

  lemma SimpleIsReplaced(lines: seq<string>, name: string, body: seq<string>)
    requires Simple(lines, name)
    ensures Replaced(lines, name, body).Some?
  {
    hide LabelLine, ExitOf, RegionEnd, Spaced;
  }

  // ---------------------------------------------------------------------
  // Well-formed files
  // ---------------------------------------------------------------------

  lemma ManagedNamesDistinct()
    ensures Distinct(ManagedNames())
  {
    hide InterfaceLabel;
    var names := ManagedNames();
    forall k, l | 0 <= k < l < |names|
      ensures names[k] != names[l]
    {
      InterfaceLabelsDiffer(l, l);
      if k > 0 {
        InterfaceLabelsDiffer(k, l);
      }
    }
  }

  predicate Present(lines: seq<string>, name: string) {
    LabelLine(lines, name).Some?
  }

  /** A file in which every managed section that is there is simple. */
  predicate Tidy(lines: seq<string>) {
    FileLines(lines) &&
    forall k :: 0 <= k < PORT_COUNT + 1 && Present(lines, ManagedNames()[k]) ==>
      Simple(lines, ManagedNames()[k])
  }

  /** A file in which all nine managed sections are there, and simple. */
  predicate WellFormed(lines: seq<string>) {
    FileLines(lines) && AllSimple(lines, ManagedNames())
  }

  lemma WellFormedIsTidy(lines: seq<string>)
    requires WellFormed(lines)
    ensures Tidy(lines) && forall k :: 0 <= k < PORT_COUNT + 1 ==> Present(lines, ManagedNames()[k])
  {
    hide Simple, ManagedNames, FileLines;
    forall k | 0 <= k < PORT_COUNT + 1
      ensures Present(lines, ManagedNames()[k])
    {
      assert Simple(lines, ManagedNames()[k]);
      SimpleIsPresent(lines, ManagedNames()[k]);
    }
  }

  lemma SimpleIsPresent(lines: seq<string>, name: string)
    requires Simple(lines, name)
    ensures Present(lines, name)
  {
    hide LabelLine, ExitOf, RegionEnd;
  }

  // ---------------------------------------------------------------------
  // The lines the renders put back are inert
  // ---------------------------------------------------------------------

  lemma KindOfTrimCR(line: string)
    ensures KindOf(TrimCR(line)) == KindOf(line)
  {
    TrimCRIdempotent(line);
    hide TrimCR, TrimSpace;
  }

  lemma InertTrimCR(line: string)
    requires Inert(line)
    ensures Inert(TrimCR(line))
  {
    KindOfTrimCR(line);
    TrimCRIsPrefix(line);
    hide KindOf, TrimCR;
  }

  lemma {:induction false} ContentIsInert(lines: seq<string>)
    requires AllNeutral(lines) && LineFree(lines)
    ensures AllInert(Content(lines))
  {
    hide KindOf;
    if lines != [] {
      assert Neutral(lines[0]);
      assert forall k :: 0 <= k < |lines[1..]| ==> lines[1..][k] == lines[k + 1];
      assert lines[0] in lines && forall line :: line in lines[1..] ==> line in lines;
      ContentIsInert(lines[1..]);
      KindCases(lines[0]);
    }
  }

  lemma KindCases(line: string)
    ensures var k := KindOf(line); k.Skip? || k.Exit? || k.Block? || k.Flat? || k.Plain?
  {
    hide KindOf;
  }

  /** The body of a simple section holds inert lines only. */
  lemma BodyIsInert(lines: seq<string>, name: string)
    requires FileLines(lines) && (Present(lines, name) ==> Simple(lines, name))
    ensures AllInert(BodyLines(lines, name))
  {
    if Present(lines, name) {
      var i, e := SimpleFacts(lines, name);
      hide KindOf, LabelLine, ExitOf, RegionEnd, Content;
      var region := lines[i + 1..e];
      assert forall line :: line in region ==> line in lines;
      ContentIsInert(region);
    }
  }

  lemma {:induction false} ForeignIsInert(body: seq<string>)
    requires AllInert(body)
    ensures AllInert(ForeignLines(body))
  {
    hide Inert, IsVlanLine, TrimCR;
    if body != [] {
      var n := |body| - 1;
      assert Inert(body[n]);
      ForeignIsInert(body[..n]);
      InertTrimCR(body[n]);
    }
  }

  lemma {:induction false} PassIsInert(name: string, body: seq<string>)
    requires AllInert(body)
    ensures AllInert(IfaceBody(name, body).pass)
  {
    hide Inert, IfaceLine, TrimCR;
    if body != [] {
      var n := |body| - 1;
      assert Inert(body[n]);
      PassIsInert(name, body[..n]);
      InertTrimCR(body[n]);
      PassOfLine(name, body[n]);
    }
  }

  lemma PassOfLine(name: string, line: string)
    ensures var pass := IfaceLine(name, line).pass; pass == [] || pass == [TrimCR(line)]
  {
    hide TrimCR, TrimSpace, Fields, IsVlanLine, ParseVlanPVID, ParseShutdownLine, ParseFlowControlLine;
  }

  lemma AllInertConcat(a: seq<string>, b: seq<string>)
    requires AllInert(a) && AllInert(b)
    ensures AllInert(a + b)
  {
    hide Inert;
  }

  /** A line of the vlan grammar is never structure. */
  lemma VlanLineIsInert(line: string)
    requires TrimCR(line) == line && TrimSpace(line) == line && "vlan " <= line && '\n' !in line
    requires line != "vlan database"
    ensures Inert(line)
  {
    hide TrimCR, TrimSpace;
    assert Trimmed(line) == line;
    assert line[0] == 'v' && line[4] == ' ';
  }

  /** VLAN ids that fit the machine integer they are parsed back into. */
  predicate GoIDs(s: VLANState) {
    forall vid :: vid in s.vlans ==> IsVid(vid)
  }

  lemma DeclareLineIsInert(vid: int)
    requires IsVid(vid)
    ensures Inert(VlanDeclareLine(vid))
  {
    DeclareLineRead(vid);
    var line := VlanDeclareLine(vid);
    DigitAfterVlan(Itoa(vid), "");
    hide TrimCR, TrimSpace, DbLine, Inert;
    assert Itoa(vid) + "" == Itoa(vid);
    VlanLineIsInert(line);
  }

  /** The database label does not go on with a digit. */
  lemma DigitAfterVlan(id: string, rest: string)
    requires id != "" && IsDigit(id[0])
    ensures "vlan " + (id + rest) != "vlan database"
  {
    assert ("vlan " + (id + rest))[5] == id[0];
  }

  lemma MembershipLineIsInert(vid: int, port: int, m: PortMembership)
    requires IsVid(vid) && IsPortNumber(port) && (m.Tagged? || m.Untagged?)
    ensures Inert(VlanMembershipLine(vid, port, m))
  {
    MembershipLineRead(vid, port, m);
    IDDigit(vid);
    var line := VlanMembershipLine(vid, port, m);
    hide TrimCR, TrimSpace, DbLine, Inert, Itoa;
    RegroupLine(Itoa(vid), Itoa(port), MembershipWord(m));
    VlanLineIsInert(line);
  }

  lemma IDDigit(vid: int)
    requires IsVid(vid)
    ensures Itoa(vid) != "" && IsDigit(Itoa(vid)[0])
  {
  }

  lemma RegroupLine(id: string, p: string, word: string)
    requires id != "" && IsDigit(id[0])
    ensures var line := "vlan " + id + " port 0/" + p + " " + word; "vlan " <= line && line != "vlan database"
  {
    var rest := " port 0/" + p + " " + word;
    assert "vlan " + id + " port 0/" + p + " " + word == "vlan " + (id + rest);
    DigitAfterVlan(id, rest);
  }

  lemma PVIDLineIsInert(vid: int)
    requires IsVid(vid)
    ensures Inert(VlanPVIDLine(vid))
  {
    PVIDLineRead("", vid);
    var line := VlanPVIDLine(vid);
    assert line[5] == 'p';
    hide TrimCR, TrimSpace, IfaceLine, Inert, Itoa;
    VlanLineIsInert(line);
  }

  lemma PortLinesAreInert(ps: PortSettings)
    ensures AllInert(PortLines(ps))
  {
    ShutdownIsInert();
    FlowControlIsInert();
    hide Inert;
  }

  lemma ShutdownIsInert()
    ensures Inert("shutdown")
  {
    TrimSpaceOfTrimmed("shutdown");
  }

  lemma FlowControlIsInert()
    ensures Inert("flow control")
  {
    TrimSpaceOfTrimmed("flow control");
  }

  /** A state whose rows all hold wire memberships. */
  lemma RenderableMember(s: VLANState, vid: int, port: int)
    requires Renderable(s) && vid in s.vlans && port in s.vlans[vid].ports
    ensures IsPortNumber(port) && !s.vlans[vid].ports[port].Unknown?
  {
    assert ValidPorts(s.vlans[vid].ports, s.portCount);
  }

  lemma {:induction false} MemberLinesAreInert(s: VLANState, vid: int, n: nat)
    requires Renderable(s) && vid in s.vlans && IsVid(vid)
    ensures AllInert(MemberLines(s, vid, n))
  {
    hide Inert, VlanMembershipLine, Renderable;
    if n > 0 {
      MemberLinesAreInert(s, vid, n - 1);
      if IsWritten(s, vid, n) {
        RenderableMember(s, vid, n);
        MembershipLineIsInert(vid, n, s.vlans[vid].ports[n]);
      }
    }
  }

  lemma {:induction false} VlansLinesAreInert(s: VLANState, vids: seq<int>)
    requires Renderable(s) && GoIDs(s)
    requires forall k :: 0 <= k < |vids| ==> vids[k] in s.vlans
    ensures AllInert(VlansLines(s, vids))
  {
    hide Inert, VlanDeclareLine, Renderable, MemberLines;
    if vids != [] {
      var n := |vids| - 1;
      VlansLinesAreInert(s, vids[..n]);
      MemberLinesAreInert(s, vids[n], Max(s.portCount, 0));
      DeclareLineIsInert(vids[n]);
    }
  }

  lemma PVIDLinesAreInert(s: VLANState, port: int)
    requires Renderable(s) && GoIDs(s) && IsPortNumber(port)
    ensures AllInert(PVIDLines(s, port))
  {
    hide Inert, VlanPVIDLine;
    assert PortRenderable(s, port);
    PVIDLineIsInert(PVIDOf(s, port));
  }

  /** Every body the VLAN render splices in is inert. */
  lemma VlanBodiesInert(lines: seq<string>, s: VLANState)
    requires WellFormed(lines) && Renderable(s) && GoIDs(s)
    ensures AllBodiesInert(VlanBodies(s, ForeignIn(lines)))
  {
    WellFormedIsTidy(lines);
    hide AllInert, Simple, Renderable, GoIDs, GeneratedBody, PVIDLines, BodyLines, ForeignLines, ManagedNames,
      VlanBodies, FileLines, ForeignIn, Present, VlansLines, Sorted;
    var bodies := VlanBodies(s, ForeignIn(lines));
    forall k | 0 <= k < |bodies|
      ensures AllInert(bodies[k])
    {
      var name := ManagedNames()[k];
      VlanBodyParts(lines, s, k);
      BodyIsInert(lines, name);
      ForeignIsInert(BodyLines(lines, name));
      if k == 0 {
        VlanIDs(s);
        VlansLinesAreInert(s, Sorted(s.vlans.Keys));
        GeneratedIs(s);
        AllInertConcat(ForeignLines(BodyLines(lines, name)), GeneratedBody(s));
      } else {
        PVIDLinesAreInert(s, k);
        AllInertConcat(ForeignLines(BodyLines(lines, name)), PVIDLines(s, k));
      }
    }
  }

  lemma VlanBodyParts(lines: seq<string>, s: VLANState, k: nat)
    requires k <= PORT_COUNT
    ensures VlanBodies(s, ForeignIn(lines))[k]
         == ForeignLines(BodyLines(lines, ManagedNames()[k])) + if k == 0 then GeneratedBody(s) else PVIDLines(s, k)
  {
    hide InterfaceLabel, BodyLines, ForeignLines, GeneratedBody, PVIDLines;
    assert ManagedNames()[k] in ManagedNames();
  }

  lemma GeneratedIs(s: VLANState)
    requires forall k :: 0 <= k < |Sorted(s.vlans.Keys)| ==> Sorted(s.vlans.Keys)[k] in s.vlans
    ensures GeneratedBody(s) == VlansLines(s, Sorted(s.vlans.Keys))
  {
    hide VlansLines, Sorted;
  }

  lemma InertIsLineFree(bodies: seq<seq<string>>)
    requires AllBodiesInert(bodies)
    ensures AllLineFree(bodies)
  {
    hide KindOf;
    forall k | 0 <= k < |bodies|
      ensures LineFree(bodies[k])
    {
      BodyLineFree(bodies[k]);
    }
  }

  lemma BodyLineFree(body: seq<string>)
    requires AllInert(body)
    ensures LineFree(body)
  {
    hide KindOf;
    forall line | line in body
      ensures '\n' !in line
    {
      var k :| 0 <= k < |body| && body[k] == line;
      assert Inert(body[k]);
    }
  }

  lemma {:induction false} ReplacedAllIsFile(lines: seq<string>, names: seq<string>, bodies: seq<seq<string>>)
    requires |names| == |bodies| && FileLines(lines) && AllLineFree(bodies)
    requires ReplacedAll(lines, names, bodies).Some?
    ensures FileLines(ReplacedAll(lines, names, bodies).value)
  {
    hide FileLines, LineFree, Replaced;
    if names != [] {
      var n := |names| - 1;
      assert forall k :: 0 <= k < n ==> bodies[..n][k] == bodies[k];
      ReplacedAllIsFile(lines, names[..n], bodies[..n]);
      assert LineFree(bodies[n]);
      ReplacedIsFile(ReplacedAll(lines, names[..n], bodies[..n]).value, names[n], bodies[n]);
    }
  }

  // ---------------------------------------------------------------------
  // The managed bodies after each render
  // ---------------------------------------------------------------------

  /** The managed bodies after a VLAN render. */
  ghost function VlanAfter(b: ManagedBodies, s: VLANState): ManagedBodies {
    Bodies(true, ForeignLines(b.database) + GeneratedBody(s),
           seq(PORT_COUNT, k requires 0 <= k < PORT_COUNT => ForeignLines(b.interfaces[k]) + PVIDLines(s, k + 1)))
  }

  lemma VlanBodyAt(lines: seq<string>, s: VLANState, k: nat)
    requires k <= PORT_COUNT
    ensures VlanBodies(s, ForeignIn(lines))[k]
         == (if k == 0 then VlanAfter(BodiesOf(lines), s).database else VlanAfter(BodiesOf(lines), s).interfaces[k - 1])
  {
    hide InterfaceLabel, BodyLines, ForeignLines, GeneratedBody, PVIDLines;
    assert ManagedNames()[k] in ManagedNames();
  }

  /** The VLAN render of a well-formed file succeeds, keeps it well-formed, and sets exactly its bodies. */
  lemma VlanRenderedBodies(lines: seq<string>, s: VLANState)
    requires WellFormed(lines) && Renderable(s) && GoIDs(s)
    ensures VlanRendered(lines, s).Some?
    ensures var out := VlanRendered(lines, s).value;
            && WellFormed(out) && BodiesOf(out) == VlanAfter(BodiesOf(lines), s)
            && forall k :: 0 <= k < PORT_COUNT + 1 ==>
                 Region(out, ManagedNames()[k]) == Some(Spaced(VlanBodies(s, ForeignIn(lines))[k]))
  {
    hide Simple, Renderable, GoIDs, VlanBodies, VlanAfter, AllBodiesInert, AllLineFree, Region, BodyOf, ForeignIn,
      FileLines, InterfaceLabel, ReplacedAll, Spaced, LabelLine;
    var names, bodies := ManagedNames(), VlanBodies(s, ForeignIn(lines));
    ManagedNamesDistinct();
    VlanBodiesInert(lines, s);
    InertIsLineFree(bodies);
    assert Simple(lines, names[0]);
    SplicedAll(lines, names, bodies, names[0]);
    var out := ReplacedAll(lines, names, bodies).value;
    ReplacedAllIsFile(lines, names, bodies);
    forall k | 0 <= k < PORT_COUNT + 1
      ensures Simple(out, names[k]) && Region(out, names[k]) == Some(Spaced(bodies[k]))
              && BodyOf(out, names[k]) == Some(bodies[k])
    {
      assert Simple(lines, names[k]);
      SplicedAll(lines, names, bodies, names[k]);
    }
    BodiesFrom(out, s, lines);
  }

  lemma BodiesFrom(out: seq<string>, s: VLANState, lines: seq<string>)
    requires forall k :: 0 <= k < PORT_COUNT + 1 ==>
               BodyOf(out, ManagedNames()[k]) == Some(VlanBodies(s, ForeignIn(lines))[k])
    ensures BodiesOf(out) == VlanAfter(BodiesOf(lines), s)
  {
    hide VlanBodies, BodyOf, ForeignIn, InterfaceLabel, LabelLine, VlanAfter;
    var names, after := ManagedNames(), VlanAfter(BodiesOf(lines), s);
    assert BodyOf(out, names[0]).Some?;
    BodyMeansPresent(out, names[0]);
    VlanBodyAt(lines, s, 0);
    forall k | 0 <= k < PORT_COUNT
      ensures InterfaceBodies(out)[k] == after.interfaces[k]
    {
      assert names[k + 1] == InterfaceLabel(k + 1);
      VlanBodyAt(lines, s, k + 1);
    }
    assert InterfaceBodies(out) == after.interfaces;
    assert after.hasDatabase by { DatabaseAfter(BodiesOf(lines), s); }
  }

  lemma DatabaseAfter(b: ManagedBodies, s: VLANState)
    ensures VlanAfter(b, s).hasDatabase
  {
  }

  lemma BodyMeansPresent(lines: seq<string>, name: string)
    ensures BodyOf(lines, name).Some? <==> LabelLine(lines, name).Some?
  {
    hide LabelLine, Content, RegionEnd;
  }
}
