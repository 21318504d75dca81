/** Which states the VLAN render takes, and what it writes, on single ports and concrete states. */
module RenderLaws {
  import opened Wrappers
  import opened Text
  import opened TextCfg
  import opened TextEdit
  import opened VlanState
  import opened Grammar
  import opened Codec
  import opened Render
  import opened RenderFrame
  import opened RoundTrip
  import opened Stability
  import opened Factory

  /** The render takes the valid states of eight ports, each untagged in the VLAN of its PVID and in no other. */
  lemma RenderableIff(s: VLANState)
    ensures Renderable(s) <==>
              && s.portCount == 8 && ValidState(s)
              && forall vid, port :: vid in s.vlans && 1 <= port <= 8 ==>
                   (Member(s.vlans[vid].ports, port).Untagged? <==> port in s.pvids && s.pvids[port] == vid)
  {
    if Renderable(s) {
      forall vid, port | vid in s.vlans && 1 <= port <= 8
        ensures Member(s.vlans[vid].ports, port).Untagged? <==> port in s.pvids && s.pvids[port] == vid
      {
        UntaggedIsPVID(s, vid, port);
        assert CarriesPVID(s, port);
      }
    } else if s.portCount == 8 && ValidState(s)
              && forall vid, port :: vid in s.vlans && 1 <= port <= 8 ==>
                   (Member(s.vlans[vid].ports, port).Untagged? <==> port in s.pvids && s.pvids[port] == vid) {
      forall port | 1 <= port <= s.portCount
        ensures PortRenderable(s, port)
      {
        assert CarriesPVID(s, port);
        assert UntaggedVLANs(s, port) == {s.pvids[port]};
      }
    }
  }

  /** A missing port comes first, then the priority, the ingress and the egress rate. */
  lemma UnsupportedIs(desired: map<int, PortSettings>, port: int)
    ensures FirstUnsupported(desired, port) == Some("enabled") <==> port !in desired
    ensures port in desired ==>
              var ps := desired[port];
              && (FirstUnsupported(desired, port) == Some("qos_priority") <==> ps.qosPriority != "low")
              && (FirstUnsupported(desired, port) == Some("ingress_rate") <==>
                    ps.qosPriority == "low" && ps.ingressRate != "none")
              && (FirstUnsupported(desired, port) == Some("egress_rate") <==>
                    ps.qosPriority == "low" && ps.ingressRate == "none" && ps.egressRate != "none")
              && (FirstUnsupported(desired, port) == None <==>
                    ps.qosPriority == "low" && ps.ingressRate == "none" && ps.egressRate == "none")
  {
    assert "enabled"[0] == 'e' && "enabled"[1] == 'n' && "egress_rate"[1] == 'g' && "qos_priority"[0] == 'q';
    assert "ingress_rate"[0] == 'i' && "egress_rate"[0] == 'e';
  }

  // ---------------------------------------------------------------------
  // The factory state
  // ---------------------------------------------------------------------

  /** VLAN 1 with every port untagged, and PVID 1 everywhere. */
  ghost function DefaultState(): VLANState {
    VLANState(PORT_COUNT, map[1 := Vlan(1, Everywhere(Untagged))], Everywhere(1))
  }

  lemma DefaultIsRenderable()
    ensures Renderable(DefaultState()) && GoIDs(DefaultState())
  {
    var s := DefaultState();
    assert s.pvids.Keys == Ports(PORT_COUNT);
    PortsSize(PORT_COUNT);
    assert |s.pvids| == PORT_COUNT by { hide DefaultState; assert |s.pvids.Keys| == PORT_COUNT; }
    forall port | IsPortNumber(port)
      ensures PortRenderable(s, port)
    {
      assert UntaggedVLANs(s, port) == {1};
    }
  }

  lemma {:induction false} NothingWritten(n: nat)
    requires n <= PORT_COUNT
    ensures MemberLines(DefaultState(), 1, n) == []
  {
    if n > 0 {
      NothingWritten(n - 1);
    }
  }

  lemma OnlyOne()
    ensures Sorted(DefaultState().vlans.Keys) == [1]
  {
    AscendingUnique(Sorted(DefaultState().vlans.Keys), [1]);
  }

  lemma DefaultBodiesAreEmpty(lines: seq<string>, k: nat)
    requires k <= PORT_COUNT && Region(lines, ManagedNames()[k]) == Some([""])
    ensures VlanBodies(DefaultState(), ForeignIn(lines))[k] == []
  {
    VlanBodyAt(lines, DefaultState(), k);
    NameAt(k);
    EmptyBody(lines, ManagedNames()[k]);
    NoForeign();
    DefaultGenerated();
    DefaultPVID(if k > 0 then k else 1);
    BodyOfName(lines, k);
    hide ForeignIn, VlanBodies, VlanAfter, BodiesOf, BodyLines, GeneratedBody, PVIDLines, DefaultState, ForeignLines,
         ManagedNames, InterfaceLabel;
    DefaultAfter(BodiesOf(lines), k);
  }

  lemma EmptyBody(lines: seq<string>, name: string)
    requires Region(lines, name) == Some([""])
    ensures BodyLines(lines, name) == []
  {
    hide Region, Content;
    BlankContent();
  }

  lemma BodyOfName(lines: seq<string>, k: nat)
    requires k <= PORT_COUNT
    ensures (if k == 0 then BodiesOf(lines).database else BodiesOf(lines).interfaces[k - 1])
         == BodyLines(lines, if k == 0 then VLAN_DATABASE else InterfaceLabel(k))
  {
    hide BodyLines, InterfaceLabel;
  }

  lemma DefaultAfter(b: ManagedBodies, k: nat)
    requires k <= PORT_COUNT && GeneratedBody(DefaultState()) == [] && ForeignLines([]) == []
    requires k > 0 ==> PVIDLines(DefaultState(), k) == []
    requires (if k == 0 then b.database else b.interfaces[k - 1]) == []
    ensures var after := VlanAfter(b, DefaultState());
            (if k == 0 then after.database else after.interfaces[k - 1]) == []
  {
    hide ForeignLines, GeneratedBody, PVIDLines, DefaultState;
  }

  lemma NameAt(k: nat)
    requires k <= PORT_COUNT
    ensures ManagedNames()[k] == if k == 0 then VLAN_DATABASE else InterfaceLabel(k)
  {
    hide InterfaceLabel;
  }

  lemma NoForeign()
    ensures ForeignLines([]) == []
  {
  }

  lemma BlankContent()
    ensures Content([""]) == []
  {
    FirstLineIsPlain();
    hide KindOf;
    assert [""][1..] == [];
  }

  lemma DefaultGenerated()
    ensures GeneratedBody(DefaultState()) == []
  {
    OnlyOne();
    NothingWritten(PORT_COUNT);
    hide MemberLines, Sorted;
    GeneratedIs(DefaultState());
    assert [1][..0] == [];
  }

  lemma DefaultPVID(port: int)
    requires IsPortNumber(port)
    ensures PVIDLines(DefaultState(), port) == []
  {
  }

  /** The factory state, rendered into the factory file, gives the factory file, byte for byte. */
  lemma DefaultRendersFactory()
    ensures Renderable(DefaultState()) && VlanRendered(FactoryLines(), DefaultState()) == Some(FactoryLines())
  {
    DefaultIsRenderable();
    hide ManagedNames, FactoryLines, DefaultState, Region, ForeignIn, VlanBodies, Renderable;
    var lines, bodies := FactoryLines(), VlanBodies(DefaultState(), ForeignIn(FactoryLines()));
    forall k | 0 <= k <= PORT_COUNT
      ensures Region(lines, ManagedNames()[k]) == Some(Spaced(bodies[k]))
    {
      SectionIsSimple(k);
      DefaultBodiesAreEmpty(lines, k);
    }
    SplicesAreIdentity(lines, ManagedNames(), bodies);
  }

  // ---------------------------------------------------------------------
  // A state with three VLANs
  // ---------------------------------------------------------------------

  /** Port 1 lives in VLAN 10, port 3 is tagged there; port 4 is tagged in VLAN 2; the others live in VLAN 1. */
  ghost function ThreeVLANs(): VLANState {
    VLANState(PORT_COUNT,
              map[1 := Vlan(1, Everywhere(Untagged)[1 := Ignored]),
                  10 := Vlan(10, map[3 := Tagged, 1 := Untagged]),
                  2 := Vlan(2, map[4 := Tagged])],
              Everywhere(1)[1 := 10])
  }

  lemma ThreeIDs()
    ensures Sorted(ThreeVLANs().vlans.Keys) == [1, 2, 10]
  {
    AscendingUnique(Sorted(ThreeVLANs().vlans.Keys), [1, 2, 10]);
  }

  lemma {:induction false} LinesOf1(n: nat)
    requires n <= PORT_COUNT
    ensures MemberLines(ThreeVLANs(), 1, n) == []
  {
    if n > 0 {
      LinesOf1(n - 1);
    }
  }

  lemma {:induction false} LinesOf2(n: nat)
    requires n <= PORT_COUNT
    ensures MemberLines(ThreeVLANs(), 2, n) == if n < 4 then [] else [VlanMembershipLine(2, 4, Tagged)]
  {
    hide VlanMembershipLine;
    if n > 0 {
      LinesOf2(n - 1);
    }
  }

  lemma {:induction false} LinesOf10(n: nat)
    requires n <= PORT_COUNT
    ensures MemberLines(ThreeVLANs(), 10, n)
         == (if n < 1 then [] else [VlanMembershipLine(10, 1, Untagged)])
            + if n < 3 then [] else [VlanMembershipLine(10, 3, Tagged)]
  {
    hide VlanMembershipLine;
    if n > 0 {
      LinesOf10(n - 1);
    }
  }

  lemma Lines()
    ensures VlanDeclareLine(2) == "vlan 2" && VlanDeclareLine(10) == "vlan 10"
    ensures VlanMembershipLine(2, 4, Tagged) == "vlan 2 port 0/4 tagged"
    ensures VlanMembershipLine(10, 1, Untagged) == "vlan 10 port 0/1 untagged"
    ensures VlanMembershipLine(10, 3, Tagged) == "vlan 10 port 0/3 tagged"
    ensures VlanPVIDLine(10) == "vlan pvid 10"
  {
    assert Itoa(2) == "2" && Itoa(10) == "10" && Itoa(4) == "4" && Itoa(1) == "1" && Itoa(3) == "3";
  }

  /** Its database lines, by VLAN and then by port, and the one PVID line. */
  lemma ThreeVLANsWritten()
    ensures GeneratedBody(ThreeVLANs())
         == ["vlan 2", "vlan 2 port 0/4 tagged", "vlan 10", "vlan 10 port 0/1 untagged", "vlan 10 port 0/3 tagged"]
    ensures PVIDLines(ThreeVLANs(), 1) == ["vlan pvid 10"] && PVIDLines(ThreeVLANs(), 2) == []
  {
    hide *;
    ThreeIDs();
    VlanIDs(ThreeVLANs());
    GeneratedIs(ThreeVLANs());
    ThreePVIDs();
    ThreeParts();
    ThreeInARow(ThreeVLANs(), 1, 2, 10);
  }

  lemma ThreePVIDs()
    ensures PVIDLines(ThreeVLANs(), 1) == ["vlan pvid 10"] && PVIDLines(ThreeVLANs(), 2) == []
  {
    Lines();
    hide VlanPVIDLine;
  }

  lemma ThreeParts()
    ensures ThreeVLANs().vlans.Keys == {1, 2, 10} && VlanLines(ThreeVLANs(), 1) == []
    ensures VlanLines(ThreeVLANs(), 2) == ["vlan 2", "vlan 2 port 0/4 tagged"]
    ensures VlanLines(ThreeVLANs(), 10) == ["vlan 10", "vlan 10 port 0/1 untagged", "vlan 10 port 0/3 tagged"]
  {
    LinesOf1(PORT_COUNT);
    LinesOf2(PORT_COUNT);
    LinesOf10(PORT_COUNT);
    Lines();
    hide MemberLines, VlanMembershipLine, VlanDeclareLine;
  }

  lemma ThreeInARow(s: VLANState, x: int, y: int, z: int)
    requires x in s.vlans && y in s.vlans && z in s.vlans
    ensures VlansLines(s, [x, y, z]) == VlanLines(s, x) + VlanLines(s, y) + VlanLines(s, z)
  {
    Snoc(s, [], x);
    Snoc(s, [x], y);
    Snoc(s, [x, y], z);
    hide VlanLines, VlansLines;
    assert [] + [x] == [x] && [x] + [y] == [x, y] && [x, y] + [z] == [x, y, z];
    assert [] + VlanLines(s, x) == VlanLines(s, x);
  }

  lemma Snoc(s: VLANState, vids: seq<int>, vid: int)
    requires vid in s.vlans && forall k :: 0 <= k < |vids| ==> vids[k] in s.vlans
    ensures VlansLines(s, vids + [vid]) == VlansLines(s, vids) + VlanLines(s, vid)
    ensures VlansLines(s, []) == []
  {
    hide VlanLines;
    assert (vids + [vid])[..|vids|] == vids;
  }
}
