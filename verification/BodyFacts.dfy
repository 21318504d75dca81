/** What the decode reads out of foreign, passed-through and generated lines. */
module BodyFacts {
  import opened Wrappers
  import opened Text
  import opened VlanState
  import opened Grammar
  import opened Codec
  import opened Render
  import opened RenderFrame

  // ---------------------------------------------------------------------
  // Lines that are kept
  // ---------------------------------------------------------------------

  /** A carriage return at the end never changes what a line says. */
  lemma LineFactsTrimCR(name: string, line: string)
    ensures DbLine(TrimCR(line)) == DbLine(line) && IfaceLine(name, TrimCR(line)) == IfaceLine(name, line)
  {
    TrimCRIdempotent(line);
    hide TrimCR, TrimSpace, Fields, IsVlanLine, ParseVlanPVID, ParseShutdownLine, ParseFlowControlLine,
      ParseVlanDeclares, ParseVlanMembership;
  }

  lemma ForeignLineFacts(name: string, line: string)
    requires !IsVlanLine(TrimCR(line))
    ensures DbLine(line) == NO_DB.(foreign := [TrimCR(line)])
    ensures var facts := IfaceLine(name, line);
            facts.foreign == [TrimCR(line)] && facts.pvid == None && facts.issues == []
  {
    hide TrimCR, TrimSpace, Fields, IsVlanLine, ParseVlanPVID, ParseShutdownLine, ParseFlowControlLine,
      ParseVlanDeclares, ParseVlanMembership;
  }

  lemma VlanLineFacts(name: string, line: string)
    requires IsVlanLine(TrimCR(line))
    ensures var facts := IfaceLine(name, line);
            facts.foreign == [] && facts.pass == [TrimCR(line)] && !facts.shut && facts.flow == None
  {
    hide TrimCR, TrimSpace, Fields, IsVlanLine, ParseVlanPVID, ParseShutdownLine, ParseFlowControlLine;
  }

  /** Foreign lines say nothing about VLANs. */
  lemma {:induction false} ForeignDbFacts(body: seq<string>)
    ensures DbBody(ForeignLines(body)) == NO_DB.(foreign := ForeignLines(body))
  {
    hide DbLine, TrimCR, IsVlanLine;
    if body != [] {
      var init, line := body[..|body| - 1], TrimCR(body[|body| - 1]);
      ForeignDbFacts(init);
      if IsVlanLine(line) {
        assert ForeignLines(body) == ForeignLines(init);
      } else {
        DbBodyConcat(ForeignLines(init), [line]);
        DbSingle(line);
        LineFactsTrimCR("", body[|body| - 1]);
        ForeignLineFacts("", body[|body| - 1]);
      }
    }
  }

  /** Foreign lines carry the settings of the body, and no PVID. */
  lemma {:induction false} ForeignIfaceFacts(name: string, body: seq<string>)
    ensures var facts, kept := IfaceBody(name, body), IfaceBody(name, ForeignLines(body));
            && kept.foreign == ForeignLines(body) && kept.pvid == None && kept.issues == []
            && kept.shut == facts.shut && kept.flow == facts.flow
  {
    hide IfaceLine, TrimCR, IsVlanLine;
    if body != [] {
      var init, raw := body[..|body| - 1], body[|body| - 1];
      var line := TrimCR(raw);
      ForeignIfaceFacts(name, init);
      LineFactsTrimCR(name, raw);
      if IsVlanLine(line) {
        VlanLineFacts(name, raw);
        assert ForeignLines(body) == ForeignLines(init);
      } else {
        IfaceBodyConcat(name, ForeignLines(init), [line]);
        IfaceSingle(name, line);
        ForeignLineFacts(name, raw);
      }
    }
  }

  /** The passed-through lines of an interface body. */
  function PassLines(name: string, body: seq<string>): seq<string> {
    IfaceBody(name, body).pass
  }

  lemma PassLineFacts(name: string, raw: string)
    ensures var facts := IfaceLine(name, raw);
            if facts.pass == [] then facts.pvid == None && facts.issues == []
            else facts.pass == [TrimCR(raw)] && !facts.shut && facts.flow == None
  {
    hide TrimCR, TrimSpace, Fields, IsVlanLine, ParseVlanPVID, ParseShutdownLine, ParseFlowControlLine;
  }

  /** Passed-through lines carry the PVID and the grammar errors of the body, and no setting. */
  lemma {:induction false} PassFacts(name: string, body: seq<string>)
    ensures var facts, kept := IfaceBody(name, body), IfaceBody(name, PassLines(name, body));
            && kept.pass == PassLines(name, body) && kept.pvid == facts.pvid && kept.issues == facts.issues
            && !kept.shut && kept.flow == None
  {
    hide IfaceLine, TrimCR;
    if body != [] {
      var init, raw := body[..|body| - 1], body[|body| - 1];
      PassFacts(name, init);
      LineFactsTrimCR(name, raw);
      PassLineFacts(name, raw);
      if IfaceLine(name, raw).pass == [] {
        assert PassLines(name, body) == PassLines(name, init);
      } else {
        IfaceBodyConcat(name, PassLines(name, init), [TrimCR(raw)]);
        IfaceSingle(name, TrimCR(raw));
      }
    }
  }

  // ---------------------------------------------------------------------
  // Lines that are generated
  // ---------------------------------------------------------------------

  lemma PVIDLinesFacts(s: VLANState, port: int, name: string)
    requires Renderable(s) && GoIDs(s) && IsPortNumber(port)
    ensures var facts := IfaceBody(name, PVIDLines(s, port));
            && facts == NO_IFACE.(pass := PVIDLines(s, port), pvid := facts.pvid)
            && GetOr(facts.pvid, DEFAULT_PVID) == PVIDOf(s, port)
  {
    assert PortRenderable(s, port);
    hide VlanPVIDLine, IfaceLine, TrimCR, IsVlanLine;
    var vid := PVIDOf(s, port);
    if vid != DEFAULT_PVID {
      PVIDLineRead(name, vid);
      IfaceSingle(name, VlanPVIDLine(vid));
    }
  }

  lemma PortLinesFacts(ps: PortSettings, name: string)
    ensures IfaceBody(name, PortLines(ps))
         == NO_IFACE.(foreign := PortLines(ps), shut := !ps.enabled,
                      flow := if ps.flowControl then Some(true) else None)
  {
    ShutdownRead(name);
    FlowControlRead(name);
    hide IfaceLine;
    var off, on := if ps.enabled then [] else ["shutdown"], if ps.flowControl then ["flow control"] else [];
    IfaceSingle(name, "shutdown");
    IfaceSingle(name, "flow control");
    IfaceBodyConcat(name, off, on);
  }

  lemma ShutdownRead(name: string)
    ensures IfaceLine(name, "shutdown") == NO_IFACE.(foreign := ["shutdown"], shut := true)
  {
    var line := "shutdown";
    assert Phrase([line]) == line;
    FieldsOfPhrase([line]);
    TrimSpaceOfTrimmed(line);
    hide TrimSpace, Fields;
    assert line[0] != 'v';
  }

  lemma FlowControlRead(name: string)
    ensures IfaceLine(name, "flow control") == NO_IFACE.(foreign := ["flow control"], flow := Some(true))
  {
    var line := "flow control";
    var words := ["flow", "control"];
    assert words[1..] == ["control"] && Phrase(["control"]) == "control";
    assert Phrase(words) == "flow" + " " + "control" == line;
    FieldsOfPhrase(words);
    TrimSpaceOfTrimmed(line);
    hide TrimSpace, Fields, Phrase;
    assert line[0] != 'v';
  }

  /** The memberships written for one VLAN, up to port n. */
  function WrittenMembers(s: VLANState, vid: int, n: nat): seq<VlanMember>
    requires vid in s.vlans
  {
    if n == 0 then []
    else WrittenMembers(s, vid, n - 1)
         + if IsWritten(s, vid, n) then [VlanMember(vid, n, s.vlans[vid].ports[n])] else []
  }

  function WrittenIn(s: VLANState, vids: seq<int>): seq<VlanMember>
    requires forall k :: 0 <= k < |vids| ==> vids[k] in s.vlans
  {
    if vids == [] then []
    else WrittenIn(s, vids[..|vids| - 1]) + WrittenMembers(s, vids[|vids| - 1], Max(s.portCount, 0))
  }

  /** VLAN 1 is never declared. */
  function DeclaredIn(vids: seq<int>): seq<int> {
    if vids == [] then []
    else DeclaredIn(vids[..|vids| - 1]) + if vids[|vids| - 1] == DEFAULT_PVID then [] else [vids[|vids| - 1]]
  }

  lemma {:induction false} MemberLinesFacts(s: VLANState, vid: int, n: nat)
    requires Renderable(s) && vid in s.vlans && IsVid(vid)
    ensures var members := WrittenMembers(s, vid, n);
            DbBody(MemberLines(s, vid, n)) == NO_DB.(members := members, saw := members != [])
  {
    hide VlanMembershipLine, Renderable, DbLine, TrimCR, TrimSpace;
    if n > 0 {
      MemberLinesFacts(s, vid, n - 1);
      if IsWritten(s, vid, n) {
        WrittenIsWire(s, vid, n);
        var m := s.vlans[vid].ports[n];
        MembershipLineRead(vid, n, m);
        DbBodyConcat(MemberLines(s, vid, n - 1), [VlanMembershipLine(vid, n, m)]);
        DbSingle(VlanMembershipLine(vid, n, m));
      } else {
        assert MemberLines(s, vid, n) == MemberLines(s, vid, n - 1);
      }
    }
  }

  lemma WrittenIsWire(s: VLANState, vid: int, port: int)
    requires Renderable(s) && vid in s.vlans && IsWritten(s, vid, port)
    ensures IsPortNumber(port) && port in s.vlans[vid].ports
    ensures s.vlans[vid].ports[port].Tagged? || s.vlans[vid].ports[port].Untagged?
  {
    RenderableMember(s, vid, port);
  }

  lemma VlanLinesFacts(s: VLANState, vid: int)
    requires Renderable(s) && vid in s.vlans && IsVid(vid)
    ensures var members := WrittenMembers(s, vid, Max(s.portCount, 0));
            DbBody(VlanLines(s, vid))
            == NO_DB.(declared := if vid == DEFAULT_PVID then [] else [vid], members := members,
                      saw := vid != DEFAULT_PVID || members != [])
  {
    hide VlanDeclareLine, Renderable, DbLine, MemberLines, WrittenMembers, TrimCR, TrimSpace;
    MemberLinesFacts(s, vid, Max(s.portCount, 0));
    var head := if vid != DEFAULT_PVID then [VlanDeclareLine(vid)] else [];
    if vid != DEFAULT_PVID {
      DeclareLineRead(vid);
      DbSingle(VlanDeclareLine(vid));
    }
    DbBodyConcat(head, MemberLines(s, vid, Max(s.portCount, 0)));
  }

  lemma {:induction false} VlansLinesFacts(s: VLANState, vids: seq<int>)
    requires Renderable(s) && GoIDs(s) && forall k :: 0 <= k < |vids| ==> vids[k] in s.vlans
    ensures var declared, members := DeclaredIn(vids), WrittenIn(s, vids);
            DbBody(VlansLines(s, vids))
            == NO_DB.(declared := declared, members := members, saw := declared != [] || members != [])
  {
    hide Renderable, VlanLines, WrittenMembers;
    if vids != [] {
      var init, vid := vids[..|vids| - 1], vids[|vids| - 1];
      VlansLinesFacts(s, init);
      VlanLinesFacts(s, vid);
      DbBodyConcat(VlansLines(s, init), VlanLines(s, vid));
    }
  }

  // ---------------------------------------------------------------------
  // The members as a set
  // ---------------------------------------------------------------------

  /** The state has this membership, and it is one that is written out. */
  predicate Lists(s: VLANState, m: VlanMember) {
    && m.vid in s.vlans && IsWritten(s, m.vid, m.port) && m.m == s.vlans[m.vid].ports[m.port]
  }

  lemma {:induction false} WrittenMembersAre(s: VLANState, vid: int, n: nat, m: VlanMember)
    requires vid in s.vlans
    ensures m in WrittenMembers(s, vid, n) <==> m.vid == vid && 1 <= m.port <= n && Lists(s, m)
  {
    hide IsWritten;
    if n > 0 {
      WrittenMembersAre(s, vid, n - 1, m);
    }
  }

  lemma {:induction false} WrittenInAre(s: VLANState, vids: seq<int>, m: VlanMember)
    requires forall k :: 0 <= k < |vids| ==> vids[k] in s.vlans
    ensures m in WrittenIn(s, vids) <==> m.vid in vids && 1 <= m.port <= s.portCount && Lists(s, m)
  {
    hide Lists, WrittenMembers;
    if vids != [] {
      var init, vid := vids[..|vids| - 1], vids[|vids| - 1];
      WrittenInAre(s, init, m);
      WrittenMembersAre(s, vid, Max(s.portCount, 0), m);
      assert vids == init + [vid];
    }
  }

  lemma {:induction false} DeclaredInAre(vids: seq<int>, vid: int)
    ensures vid in DeclaredIn(vids) <==> vid in vids && vid != DEFAULT_PVID
  {
    if vids != [] {
      DeclaredInAre(vids[..|vids| - 1], vid);
      assert vids == vids[..|vids| - 1] + [vids[|vids| - 1]];
    }
  }

  /** What the generated body declares and lists is what the state holds. */
  lemma GeneratedFacts(s: VLANState) returns (facts: DbFacts)
    requires Renderable(s) && GoIDs(s)
    ensures facts == DbBody(GeneratedBody(s))
    ensures facts.foreign == [] && facts.issues == []
    ensures facts.saw <==> facts.declared != [] || facts.members != []
    ensures forall vid :: vid in facts.declared <==> vid in s.vlans && vid != DEFAULT_PVID
    ensures forall m :: m in facts.members <==> Lists(s, m)
  {
    VlanIDs(s);
    hide VlansLines, Sorted, Lists, IsWritten, DeclaredIn, WrittenIn;
    var vids := Sorted(s.vlans.Keys);
    GeneratedIs(s);
    facts := DbBody(GeneratedBody(s));
    VlansLinesFacts(s, vids);
    forall vid
      ensures vid in facts.declared <==> vid in s.vlans && vid != DEFAULT_PVID
    {
      DeclaredInAre(vids, vid);
    }
    forall m: VlanMember
      ensures m in facts.members <==> Lists(s, m)
    {
      WrittenInAre(s, vids, m);
      if Lists(s, m) {
        ListsInRange(s, m);
      }
    }
  }

  lemma ListsInRange(s: VLANState, m: VlanMember)
    requires Renderable(s) && Lists(s, m)
    ensures m.vid in s.vlans && IsPortNumber(m.port) && s.portCount == PORT_COUNT && (m.m.Tagged? || m.m.Untagged?)
    ensures m.vid == DEFAULT_PVID ==> m.m.Tagged?
  {
    WrittenIsWire(s, m.vid, m.port);
  }
}
