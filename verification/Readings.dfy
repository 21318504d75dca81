/**
 The decode in terms of single lines, VLANs and ports: which line wins, which VLANs
 there are and who is in them, and which lines each render carries over.
 */
module Readings {
  import opened Wrappers
  import opened Text
  import opened VlanState
  import opened Grammar
  import opened Codec
  import opened Render
  import opened RenderFrame
  import opened BodyFacts
  import opened RoundTrip
  import opened PortTrip

  // ---------------------------------------------------------------------
  // Single lines
  // ---------------------------------------------------------------------

  /** An id is a positive number. */
  lemma IDIs(part: string)
    ensures PositiveID(part) == if Atoi(part).Some? && Atoi(part).value > 0 then Atoi(part) else None
    ensures PositiveID("0") == None
  {
    AtoiOfItoa(0);
    assert Itoa(0) == "0";
    hide Atoi;
  }

  /** The VLAN codec's lines are those whose first word is vlan and that go on behind it. */
  lemma VlanLineIs(line: string)
    ensures var t := TrimSpace(line);
            IsVlanLine(line) <==>
              |t| >= 5 && t[0] == 'v' && t[1] == 'l' && t[2] == 'a' && t[3] == 'n' && t[4] == ' '
  {
    hide TrimSpace;
  }

  /** A declaration has two words, and the parts of the second are ids. */
  lemma DeclarationIs(fields: seq<string>)
    ensures ParseVlanDeclares(fields).Some? <==>
              && |fields| == 2 && fields[0] == "vlan"
              && forall part :: part in Split(fields[1], ',') ==> PositiveID(TrimSpace(part)).Some?
  {
    if |fields| == 2 {
      IDsAre(Split(fields[1], ','));
    }
    hide PositiveID, TrimSpace, Split, ParseIDs;
  }

  lemma {:induction false} IDsAre(parts: seq<string>)
    ensures ParseIDs(parts).Some? <==> forall part :: part in parts ==> PositiveID(TrimSpace(part)).Some?
  {
    hide PositiveID, TrimSpace;
    if parts != [] {
      IDsAre(parts[1..]);
      assert parts == [parts[0]] + parts[1..];
    }
  }

  /** A membership has five words of this shape, and what it says is in them. */
  lemma MembershipIs(fields: seq<string>)
    ensures ParseVlanMembership(fields).Some? <==>
              && |fields| == 5 && fields[0] == "vlan" && PositiveID(fields[1]).Some? && fields[2] == "port"
              && |fields[3]| >= 2 && fields[3][0] == '0' && fields[3][1] == '/' && PositiveID(fields[3][2..]).Some?
              && (fields[4] == "untagged" || fields[4] == "tagged")
    ensures ParseVlanMembership(fields).Some? ==>
              ParseVlanMembership(fields).value
              == VlanMember(PositiveID(fields[1]).value, PositiveID(fields[3][2..]).value,
                            if fields[4] == "tagged" then Tagged else Untagged)
  {
    hide PositiveID;
    assert "tagged"[0] != "untagged"[0];
  }

  /** A PVID line has three words. */
  lemma PVIDIs(fields: seq<string>)
    ensures ParseVlanPVID(fields)
         == if |fields| == 3 && fields[0] == "vlan" && fields[1] == "pvid" then PositiveID(fields[2]) else None
  {
    hide PositiveID;
  }

  lemma NoFlowControlRead(name: string)
    ensures IfaceLine(name, "no flow control") == NO_IFACE.(foreign := ["no flow control"], flow := Some(false))
  {
    var line := "no flow control";
    var words := ["no", "flow", "control"];
    assert words[1..] == ["flow", "control"] && ["flow", "control"][1..] == ["control"];
    assert Phrase(["control"]) == "control" && Phrase(["flow", "control"]) == "flow" + " " + "control";
    assert Phrase(words) == "no" + " " + ("flow" + " " + "control") == line;
    FieldsOfPhrase(words);
    TrimSpaceOfTrimmed(line);
    hide TrimSpace, Fields, Phrase;
    assert line[0] != 'v';
  }

  /** A membership of a port the switch does not have is an error, and nothing else. */
  lemma PortOutsideRangeRead(vid: int, port: int, m: PortMembership)
    requires IsVid(vid) && port > PORT_COUNT && IsGoInt(port) && (m.Tagged? || m.Untagged?)
    ensures var line := VlanMembershipLine(vid, port, m);
            DbLine(line) == NO_DB.(issues := [BadLine(VLAN_DATABASE, line, PortOutsideRange)])
  {
    IDWord(vid);
    IDWord(port);
    var id, p, word := Itoa(vid), Itoa(port), MembershipWord(m);
    var words := ["vlan", id, "port", "0/" + p, word];
    hide Itoa, TrimSpace, TrimCR, Fields, IsVlanLine, PositiveID;
    MembershipPhrase(id, p, word);
    WordsAreWords(id, p, word);
    PhraseLine(words);
    ReadMembership(vid, port, m, id, p);
  }

  /** What one database line says: nothing about VLANs, a declaration, a membership, or what is wrong with it. */
  lemma DatabaseLineIs(raw: string)
    ensures var line, facts := TrimCR(raw), DbLine(raw);
            var declares, lists := ParseVlanDeclares(Fields(line)), ParseVlanMembership(Fields(line));
            && facts.foreign == (if IsVlanLine(line) then [] else [line])
            && facts.declared == (if IsVlanLine(line) && declares.Some? then declares.value else [])
            && facts.members
               == (if IsVlanLine(line) && declares.None? && lists.Some? && 1 <= lists.value.port <= 8
                   then [lists.value] else [])
            && facts.issues
               == (if !IsVlanLine(line) || declares.Some? || (lists.Some? && 1 <= lists.value.port <= 8) then []
                   else [BadLine("vlan database", TrimSpace(line),
                                 if lists.Some? then PortOutsideRange else NoDatabaseTemplate)])
            && (facts.saw <==> IsVlanLine(line) && facts.issues == [])
  {
    hide TrimCR, TrimSpace, Fields, IsVlanLine, ParseVlanDeclares, ParseVlanMembership;
  }

  /** Lines of a setting: the only ones of an interface body that the port render does not carry over. */
  predicate IsSetting(line: string) {
    var words := Fields(line);
    !IsVlanLine(line)
    && (words == ["shutdown"] || words == ["flow", "control"] || words == ["no", "flow", "control"])
  }

  /** What one interface line says and which render carries it over. */
  lemma InterfaceLineIs(name: string, raw: string)
    ensures var line, facts := TrimCR(raw), IfaceLine(name, raw);
            && facts.foreign == (if IsVlanLine(line) then [] else [line])
            && facts.pass == (if IsSetting(line) then [] else [line])
            && (facts.shut <==> !IsVlanLine(line) && Fields(line) == ["shutdown"])
            && (facts.flow == Some(true) <==> !IsVlanLine(line) && Fields(line) == ["flow", "control"])
            && (facts.flow == Some(false) <==> !IsVlanLine(line) && Fields(line) == ["no", "flow", "control"])
            && (facts.pvid.Some? ==> IsVlanLine(line) && facts.issues == [])
            && (facts.issues == [] || facts.issues == [BadLine(name, TrimSpace(line), NoPVIDTemplate)])
            && (facts.pvid.Some? || facts.issues != [] <==> IsVlanLine(line))
  {
    hide TrimCR, TrimSpace, Fields, IsVlanLine, ParseVlanPVID;
    assert |["shutdown"]| == 1 && |["flow", "control"]| == 2 && |["no", "flow", "control"]| == 3;
  }

  // ---------------------------------------------------------------------
  // Lines that are carried over
  // ---------------------------------------------------------------------

  /** The lines that meet a condition, from the front, without their carriage returns. */
  function Kept(body: seq<string>, keep: string -> bool): seq<string> {
    if body == [] then []
    else (if keep(TrimCR(body[0])) then [TrimCR(body[0])] else []) + Kept(body[1..], keep)
  }

  lemma {:induction false} KeptSnoc(body: seq<string>, raw: string, keep: string -> bool)
    ensures Kept(body + [raw], keep) == Kept(body, keep) + if keep(TrimCR(raw)) then [TrimCR(raw)] else []
  {
    hide TrimCR;
    if body == [] {
      assert ([] + [raw])[1..] == [];
    } else {
      assert (body + [raw])[1..] == body[1..] + [raw];
      KeptSnoc(body[1..], raw, keep);
    }
  }

  /** The VLAN render carries over every line that does not start with the word vlan, in order. */
  lemma {:induction false} ForeignAreKept(body: seq<string>)
    ensures ForeignLines(body) == Kept(body, line => !IsVlanLine(line))
  {
    hide TrimCR, IsVlanLine;
    if body != [] {
      var init, raw := body[..|body| - 1], body[|body| - 1];
      ForeignAreKept(init);
      KeptSnoc(init, raw, line => !IsVlanLine(line));
      assert body == init + [raw];
    }
  }

  /** The port render carries over every line that is no setting, in order. */
  lemma {:induction false} PassedAreKept(name: string, body: seq<string>)
    ensures PassLines(name, body) == Kept(body, line => !IsSetting(line))
  {
    hide TrimCR, IfaceLine, IsSetting;
    if body != [] {
      var init, raw := body[..|body| - 1], body[|body| - 1];
      PassedAreKept(name, init);
      KeptSnoc(init, raw, line => !IsSetting(line));
      InterfaceLineIs(name, raw);
      assert body == init + [raw];
    }
  }

  /** The lines of an interface section after a VLAN render: what was there but for vlan lines, then the PVID. */
  lemma InterfaceAfterVlans(lines: seq<string>, s: VLANState, port: int)
    requires WellFormed(lines) && Renderable(s) && GoIDs(s) && IsPortNumber(port)
    ensures VlanRendered(lines, s).Some? && port in s.pvids
    ensures BodyLines(VlanRendered(lines, s).value, InterfaceLabel(port))
         == Kept(BodyLines(lines, InterfaceLabel(port)), line => !IsVlanLine(line))
            + if s.pvids[port] == 1 then [] else ["vlan pvid " + Itoa(s.pvids[port])]
  {
    HasPVID(s, port);
    PVIDLinesAre(s, port);
    VlanRenderedBodies(lines, s);
    InterfaceAfter(BodiesOf(lines), s, port);
    ForeignAreKept(BodyLines(lines, InterfaceLabel(port)));
    InterfaceOf(lines, port);
    InterfaceOf(VlanRendered(lines, s).value, port);
    hide *;
  }

  lemma InterfaceOf(lines: seq<string>, port: int)
    requires IsPortNumber(port)
    ensures BodiesOf(lines).interfaces[port - 1] == BodyLines(lines, InterfaceLabel(port))
  {
    hide BodyLines, InterfaceLabel;
  }

  lemma PVIDLinesAre(s: VLANState, port: int)
    requires port in s.pvids
    ensures PVIDLines(s, port) == if s.pvids[port] == 1 then [] else ["vlan pvid " + Itoa(s.pvids[port])]
  {
    hide Itoa;
  }

  lemma HasPVID(s: VLANState, port: int)
    requires Renderable(s) && IsPortNumber(port)
    ensures port in s.pvids
  {
    assert CarriesPVID(s, port);
  }

  /** The lines of an interface section after a port render: what was there but for settings, then the new ones. */
  lemma InterfaceAfterSettings(lines: seq<string>, desired: map<int, PortSettings>, port: int)
    requires Tidy(lines) && AllPortsIn(desired) && IsPortNumber(port) && Present(lines, InterfaceLabel(port))
    ensures BodyLines(PortRendered(lines, desired), InterfaceLabel(port))
         == Kept(BodyLines(lines, InterfaceLabel(port)), line => !IsSetting(line))
            + (if desired[port].enabled then [] else ["shutdown"])
            + if desired[port].flowControl then ["flow control"] else []
  {
    hide Tidy, Present, PortRendered, BodyLines, InterfaceLabel, IsSetting, PassLines;
    PortRenderedBodies(lines, desired);
    PassedAreKept(InterfaceLabel(port), BodyLines(lines, InterfaceLabel(port)));
    var b, out := BodiesOf(lines), BodiesOf(PortRendered(lines, desired));
    assert port in PresentPorts(lines);
    InterfaceAfterPorts(b, PresentPorts(lines), desired, port);
    assert out.interfaces[port - 1] == PortAfter(b, PresentPorts(lines), desired).interfaces[port - 1];
    var kept := Kept(BodyLines(lines, InterfaceLabel(port)), line => !IsSetting(line));
    var off := if desired[port].enabled then [] else ["shutdown"];
    var on := if desired[port].flowControl then ["flow control"] else [];
    assert kept + off + on == kept + (off + on);
  }

  // ---------------------------------------------------------------------
  // Interface bodies
  // ---------------------------------------------------------------------

  /** The last PVID line and the last flow-control line win; one shutdown line is enough. */
  lemma LastLineWins(name: string, front: seq<string>, raw: string, rest: seq<string>)
    ensures var mine, after := IfaceLine(name, raw), IfaceBody(name, rest);
            var all := IfaceBody(name, front + [raw] + rest);
            && (after.pvid.Some? ==> all.pvid == after.pvid)
            && (after.pvid.None? && mine.pvid.Some? ==> all.pvid == mine.pvid)
            && (after.flow.Some? ==> all.flow == after.flow)
            && (after.flow.None? && mine.flow.Some? ==> all.flow == mine.flow)
            && (mine.shut || after.shut ==> all.shut)
            && all.issues == IfaceBody(name, front).issues + mine.issues + after.issues
  {
    hide IfaceLine, IfaceBody;
    IfaceBodyConcat(name, front, [raw]);
    IfaceBodyConcat(name, front + [raw], rest);
    IfaceSingle(name, raw);
  }

  predicate SaysShutdown(raw: string) {
    !IsVlanLine(TrimCR(raw)) && Fields(TrimCR(raw)) == ["shutdown"]
  }

  predicate SaysFlow(raw: string) {
    !IsVlanLine(TrimCR(raw))
    && (Fields(TrimCR(raw)) == ["flow", "control"] || Fields(TrimCR(raw)) == ["no", "flow", "control"])
  }

  predicate SaysPVID(raw: string) {
    IsVlanLine(TrimCR(raw)) && ParseVlanPVID(Fields(TrimCR(raw))).Some?
  }

  lemma LineSays(name: string, raw: string)
    ensures var facts := IfaceLine(name, raw);
            && (facts.shut <==> SaysShutdown(raw)) && (facts.flow.Some? <==> SaysFlow(raw))
            && (facts.pvid.Some? <==> SaysPVID(raw))
  {
    hide TrimCR, TrimSpace, Fields, IsVlanLine, ParseVlanPVID;
    assert |["shutdown"]| == 1 && |["flow", "control"]| == 2 && |["no", "flow", "control"]| == 3;
  }

  lemma {:induction false} BodySays(name: string, body: seq<string>)
    ensures var facts := IfaceBody(name, body);
            && (facts.shut <==> exists raw :: raw in body && SaysShutdown(raw))
            && (facts.flow.Some? <==> exists raw :: raw in body && SaysFlow(raw))
            && (facts.pvid.Some? <==> exists raw :: raw in body && SaysPVID(raw))
  {
    hide IfaceLine, SaysShutdown, SaysFlow, SaysPVID;
    if body != [] {
      var n := |body| - 1;
      BodySays(name, body[..n]);
      LineSays(name, body[n]);
      assert body == body[..n] + [body[n]];
    }
  }

  /** A port is on unless some line shuts it; it has no flow control and PVID 1 unless a line says something else. */
  lemma SettingsAre(b: ManagedBodies, port: int)
    requires IsPortNumber(port)
    ensures var body, ps := b.interfaces[port - 1], DecodedSettings(b)[port];
            && (ps.enabled <==> forall raw :: raw in body ==> !SaysShutdown(raw))
            && ((forall raw :: raw in body ==> !SaysFlow(raw)) ==> !ps.flowControl)
            && ((forall raw :: raw in body ==> !SaysPVID(raw)) ==> DecodedPVIDs(b)[port] == 1)
            && ps.qosPriority == "low" && ps.ingressRate == "none" && ps.egressRate == "none"
  {
    BodySays(InterfaceLabel(port), b.interfaces[port - 1]);
    hide IfaceBody, SaysShutdown, SaysFlow, SaysPVID, InterfaceLabel;
  }

  // ---------------------------------------------------------------------
  // The decoded VLANs
  // ---------------------------------------------------------------------

  /** Entry k of the list is the last one about this port in this VLAN. */
  ghost predicate IsLast(members: seq<VlanMember>, k: nat, vid: int, port: int) {
    && k < |members| && members[k].vid == vid && members[k].port == port
    && forall j :: k < j < |members| ==> !(members[j].vid == vid && members[j].port == port)
  }

  ghost predicate Unlisted(members: seq<VlanMember>, vid: int, port: int) {
    forall j :: 0 <= j < |members| ==> !(members[j].vid == vid && members[j].port == port)
  }

  lemma LastInFront(members: seq<VlanMember>, k: nat, vid: int, port: int)
    requires IsLast(members, k, vid, port) && k < |members| - 1
    ensures IsLast(members[..|members| - 1], k, vid, port)
    ensures !(members[|members| - 1].vid == vid && members[|members| - 1].port == port)
  {
  }

  /** The last listed membership stands; a port that is not listed has none. */
  lemma {:induction false} RealizedIs(vids: set<int>, members: seq<VlanMember>, vid: int, port: int)
    requires vid in vids
    ensures var r := Realized(EmptyVLANs(vids), members);
            && r.Keys == vids && r[vid].id == vid
            && (Unlisted(members, vid, port) ==> port !in r[vid].ports)
            && forall k: nat :: IsLast(members, k, vid, port) ==>
                 port in r[vid].ports && r[vid].ports[port] == members[k].m
  {
    if members != [] {
      var n := |members| - 1;
      RealizedIs(vids, members[..n], vid, port);
      assert Unlisted(members, vid, port) ==> Unlisted(members[..n], vid, port);
      forall k: nat | IsLast(members, k, vid, port)
        ensures var r := Realized(EmptyVLANs(vids), members); port in r[vid].ports && r[vid].ports[port] == members[k].m
      {
        if k < n {
          LastInFront(members, k, vid, port);
        }
      }
    }
  }

  lemma {:induction false} ExplicitIsLast(members: seq<VlanMember>, port: int)
    ensures Unlisted(members, DEFAULT_PVID, port) ==> ExplicitIn1(members, port) == None
    ensures forall k: nat :: IsLast(members, k, DEFAULT_PVID, port) ==> ExplicitIn1(members, port) == Some(members[k].m)
  {
    if members != [] {
      var n := |members| - 1;
      ExplicitIsLast(members[..n], port);
      assert Unlisted(members, DEFAULT_PVID, port) ==> Unlisted(members[..n], DEFAULT_PVID, port);
      forall k: nat | IsLast(members, k, DEFAULT_PVID, port)
        ensures ExplicitIn1(members, port) == Some(members[k].m)
      {
        if k < n {
          LastInFront(members, k, DEFAULT_PVID, port);
        }
      }
    }
  }

  /**
   With a vlan line in the database: a VLAN other than 1 is there when it is declared. Its
   listed ports are in it as their last line says, and beside them the ports that have it
   as their PVID, untagged.
   */
  lemma DecodedVlanIs(facts: DbFacts, pvids: map<int, int>, vid: int, port: int)
    requires facts.saw && vid != 1 && 1 <= port <= 8
    requires forall p :: 1 <= p <= PORT_COUNT ==> p in pvids
    ensures var r := DecodedVLANs(facts, pvids);
            && (vid in r <==> vid in facts.declared)
            && (vid in r ==>
                  && r[vid].id == vid
                  && (Unlisted(facts.members, vid, port) ==>
                        if pvids[port] == vid && vid > 0 then port in r[vid].ports && r[vid].ports[port] == Untagged
                        else port !in r[vid].ports)
                  && forall k: nat :: IsLast(facts.members, k, vid, port) ==>
                       port in r[vid].ports && r[vid].ports[port] == facts.members[k].m)
  {
    hide Realized, InferredVLAN1;
    var vids, members := DeclaredVLANs(facts), AllMembers(facts);
    assert members == facts.members;
    if vid in vids {
      RealizedIs(vids, members, vid, port);
    } else {
      RealizedKeysAre(vids, members);
    }
  }

  lemma {:induction false} RealizedKeysAre(vids: set<int>, members: seq<VlanMember>)
    ensures Realized(EmptyVLANs(vids), members).Keys == vids
  {
    if members != [] {
      RealizedKeysAre(vids, members[..|members| - 1]);
    }
  }

  /** What decode makes of a port in VLAN 1: its last line, or untagged by PVID 1 unless it is untagged elsewhere. */
  ghost predicate IsIn1(members: seq<VlanMember>, pvids: map<int, int>, port: int, m: PortMembership)
    requires port in pvids
  {
    && (forall k: nat :: IsLast(members, k, 1, port) ==> m == members[k].m)
    && (Unlisted(members, 1, port) ==>
          m == if pvids[port] == 1
                  && forall k: nat :: k < |members| && members[k].port == port && members[k].vid != 1 ==>
                       !members[k].m.Untagged?
               then Untagged else Ignored)
  }

  lemma Inferred1Is(members: seq<VlanMember>, pvids: map<int, int>, port: int)
    requires port in pvids
    ensures IsIn1(members, pvids, port, InferredMembership(pvids, members, port))
    ensures Unlisted(members, 1, port) || exists k: nat :: IsLast(members, k, 1, port)
  {
    ExplicitIsLast(members, port);
    SomeLast(members, 1, port);
    hide ExplicitIn1;
  }

  lemma OnlyOneIn1(members: seq<VlanMember>, pvids: map<int, int>, port: int, m: PortMembership, m': PortMembership)
    requires port in pvids && IsIn1(members, pvids, port, m) && IsIn1(members, pvids, port, m')
    ensures m == m'
  {
    SomeLast(members, 1, port);
  }

  lemma {:induction false} SomeLast(members: seq<VlanMember>, vid: int, port: int)
    ensures Unlisted(members, vid, port) || exists k: nat :: IsLast(members, k, vid, port)
  {
    if members != [] {
      var n := |members| - 1;
      if members[n].vid == vid && members[n].port == port {
        assert IsLast(members, n, vid, port);
      } else {
        SomeLast(members[..n], vid, port);
        if k: nat :| IsLast(members[..n], k, vid, port) {
          assert IsLast(members, k, vid, port);
        }
      }
    }
  }

  /** VLAN 1 is there when it is declared or some port is untagged in it, and holds every port. */
  lemma Decoded1Is(facts: DbFacts, pvids: map<int, int>)
    requires facts.saw && forall p :: 1 <= p <= PORT_COUNT ==> p in pvids
    ensures var r := DecodedVLANs(facts, pvids);
            && (1 in r ==>
                  && r[1].id == 1 && (forall port :: port in r[1].ports <==> 1 <= port <= 8)
                  && (forall port :: 1 <= port <= 8 ==> IsIn1(facts.members, pvids, port, r[1].ports[port])))
            && (1 in facts.declared ==> 1 in r)
            && (1 in r && 1 !in facts.declared ==> exists port :: 1 <= port <= 8 && r[1].ports[port].Untagged?)
            && (1 !in r ==> forall port :: 1 <= port <= 8 ==> !IsIn1(facts.members, pvids, port, Untagged))
  {
    hide Realized, IsIn1, InferredMembership;
    var vids, members := DeclaredVLANs(facts), AllMembers(facts);
    assert members == facts.members;
    RealizedKeysAre(vids, members);
    var vlan1 := InferredVLAN1(pvids, members);
    forall port | 1 <= port <= PORT_COUNT
      ensures port in vlan1.ports && IsIn1(members, pvids, port, vlan1.ports[port])
      ensures IsIn1(members, pvids, port, Untagged) ==> vlan1.ports[port].Untagged?
    {
      Inferred1Is(members, pvids, port);
      if IsIn1(members, pvids, port, Untagged) {
        OnlyOneIn1(members, pvids, port, Untagged, vlan1.ports[port]);
      }
    }
    var r := DecodedVLANs(facts, pvids);
    if 1 in r {
      assert AccessPorts(vlan1, 1, pvids, PORT_COUNT) == vlan1.ports;
    }
  }

  // ---------------------------------------------------------------------
  // Which files decode without an error
  // ---------------------------------------------------------------------

  lemma {:induction false} DatabaseClean(body: seq<string>)
    ensures DbBody(body).issues == [] <==> forall line :: line in body ==> DbLine(line).issues == []
  {
    hide DbLine;
    if body != [] {
      var n := |body| - 1;
      DatabaseClean(body[..n]);
      assert body == body[..n] + [body[n]];
      assert body[n] in body;
    }
  }

  lemma {:induction false} InterfaceClean(name: string, body: seq<string>)
    ensures IfaceBody(name, body).issues == [] <==> forall line :: line in body ==> IfaceLine(name, line).issues == []
  {
    hide IfaceLine;
    if body != [] {
      var n := |body| - 1;
      InterfaceClean(name, body[..n]);
      assert body == body[..n] + [body[n]];
      assert body[n] in body;
    }
  }

  lemma {:induction false} PortsClean(b: ManagedBodies, n: nat)
    requires n <= PORT_COUNT
    ensures PortIssues(b, n) == [] <==>
              forall port :: 1 <= port <= n ==>
                forall line :: line in b.interfaces[port - 1] ==> IfaceLine(InterfaceLabel(port), line).issues == []
  {
    hide IfaceLine, IfaceBody, InterfaceLabel;
    if n > 0 {
      PortsClean(b, n - 1);
      InterfaceClean(InterfaceLabel(n), b.interfaces[n - 1]);
    }
  }

  /**
   A file decodes without an error when it has a VLAN database, each of its lines and of
   the interface lines is read, and every listed membership is one of a declared VLAN.
   */
  lemma CleanIff(b: ManagedBodies)
    ensures DecodeIssues(b) == [] <==>
              && b.hasDatabase && (forall line :: line in b.database ==> DbLine(line).issues == [])
              && (forall port :: 1 <= port <= 8 ==>
                    forall line :: line in b.interfaces[port - 1] ==>
                      IfaceLine(InterfaceLabel(port), line).issues == [])
              && (DbBody(b.database).saw ==>
                    forall m :: m in DbBody(b.database).members ==> m.vid in DbBody(b.database).declared)
              && (!DbBody(b.database).saw ==> DbBody(b.database).members == [])
  {
    hide DbBody, DbLine, IfaceLine, InterfaceLabel, PortIssues, Undeclared, DefaultMembers;
    var facts := DbBody(b.database);
    DatabaseClean(b.database);
    PortsClean(b, PORT_COUNT);
    UndeclaredIsEmpty(DeclaredVLANs(facts), AllMembers(facts));
    SawMembers(b.database);
    if !facts.saw {
      forall m | m in AllMembers(facts)
        ensures m.vid in DeclaredVLANs(facts)
      {
        DefaultMembersAre(PORT_COUNT, m);
      }
    }
  }

  lemma {:induction false} SawMembers(body: seq<string>)
    ensures DbBody(body).members != [] || DbBody(body).declared != [] ==> DbBody(body).saw
  {
    hide DbLine;
    if body != [] {
      SawMembers(body[..|body| - 1]);
      LineSees(body[|body| - 1]);
    }
  }

  lemma LineSees(line: string)
    ensures DbLine(line).members != [] || DbLine(line).declared != [] ==> DbLine(line).saw
  {
    hide TrimCR, TrimSpace, Fields, IsVlanLine, ParseVlanDeclares, ParseVlanMembership;
  }

  // ---------------------------------------------------------------------
  // The error that is reported
  // ---------------------------------------------------------------------

  lemma {:induction false} FirstBadLine(body: seq<string>)
    requires DbBody(body).issues != []
    ensures exists k: nat ::
              && k < |body| && DbLine(body[k]).issues != [] && DbBody(body).issues[0] == DbLine(body[k]).issues[0]
              && forall j: nat :: j < k ==> DbLine(body[j]).issues == []
  {
    hide DbLine;
    var n := |body| - 1;
    if DbBody(body[..n]).issues != [] {
      FirstBadLine(body[..n]);
      var k: nat :| k < n && DbLine(body[..n][k]).issues != []
                    && DbBody(body[..n]).issues[0] == DbLine(body[..n][k]).issues[0]
                    && forall j: nat :: j < k ==> DbLine(body[..n][j]).issues == [];
      assert body[k] == body[..n][k] && forall j: nat :: j < k ==> body[j] == body[..n][j];
    } else {
      DatabaseClean(body[..n]);
      assert forall j: nat :: j < n ==> body[j] in body[..n] by {
        assert forall j: nat :: j < n ==> body[..n][j] == body[j];
      }
      assert DbBody(body).issues == DbLine(body[n]).issues;
    }
  }

  lemma {:induction false} FirstBadPort(b: ManagedBodies, n: nat)
    requires n <= PORT_COUNT && PortIssues(b, n) != []
    ensures exists port :: 1 <= port <= n && PortFacts(b, port).issues != []
                           && PortIssues(b, n)[0] == PortFacts(b, port).issues[0]
                           && forall p :: 1 <= p < port ==> PortFacts(b, p).issues == []
  {
    hide PortFacts;
    if PortIssues(b, n - 1) != [] {
      FirstBadPort(b, n - 1);
    } else {
      CleanPorts(b, n - 1);
    }
  }

  lemma {:induction false} CleanPorts(b: ManagedBodies, n: nat)
    requires n <= PORT_COUNT && PortIssues(b, n) == []
    ensures forall p :: 1 <= p <= n ==> PortFacts(b, p).issues == []
  {
    hide PortFacts;
    if n > 0 {
      CleanPorts(b, n - 1);
    }
  }

  lemma {:induction false} FirstUndeclared(vids: set<int>, members: seq<VlanMember>)
    requires Undeclared(vids, members) != []
    ensures exists k: nat ::
              && k < |members| && members[k].vid !in vids
              && Undeclared(vids, members)[0]
                 == BadLine(VLAN_DATABASE, VlanMembershipLine(members[k].vid, members[k].port, members[k].m),
                            NeverDeclared)
              && forall j: nat :: j < k ==> members[j].vid in vids
  {
    hide VlanMembershipLine;
    var n := |members| - 1;
    if Undeclared(vids, members[..n]) != [] {
      FirstUndeclared(vids, members[..n]);
      var k: nat :| k < n && members[..n][k].vid !in vids
                    && Undeclared(vids, members[..n])[0]
                       == BadLine(VLAN_DATABASE,
                                  VlanMembershipLine(members[..n][k].vid, members[..n][k].port, members[..n][k].m),
                                  NeverDeclared)
                    && forall j: nat :: j < k ==> members[..n][j].vid in vids;
      assert members[k] == members[..n][k] && forall j: nat :: j < k ==> members[j] == members[..n][j];
    } else {
      UndeclaredIsEmpty(vids, members[..n]);
      assert forall j: nat :: j < n ==> members[j] in members[..n] by {
        assert forall j: nat :: j < n ==> members[..n][j] == members[j];
      }
      assert Undeclared(vids, members) == Undeclared(vids, [members[n]]) by {
        assert [members[n]][..0] == [];
      }
    }
  }

  /**
   The error of a decode is the first in this order: a missing database, a line of the
   database, a line of the interfaces by port, a membership of an undeclared VLAN.
   */
  lemma ErrorOrder(b: ManagedBodies)
    requires DecodeIssues(b) != []
    ensures var facts, e := DbBody(b.database), DecodeIssues(b)[0];
            if !b.hasDatabase then e == MissingSection(VLAN_DATABASE)
            else if facts.issues != [] then e == facts.issues[0]
            else if PortIssues(b, PORT_COUNT) != [] then e == PortIssues(b, PORT_COUNT)[0]
            else Undeclared(DeclaredVLANs(facts), AllMembers(facts)) != []
                 && e == Undeclared(DeclaredVLANs(facts), AllMembers(facts))[0]
  {
    hide DbBody, PortIssues, Undeclared, DeclaredVLANs, AllMembers;
  }
}
