/**
 The two namespaces that share the interface bodies: each render leaves what the
 other one reads as it was, and the order of the two does not matter.
 */
module NonInterference {
  import opened TextCfg
  import opened TextEdit
  import opened VlanState
  import opened Grammar
  import opened Codec
  import opened Render
  import opened Sections
  import opened RenderFrame
  import opened BodyFacts
  import opened RoundTrip
  import opened PortTrip

  // ---------------------------------------------------------------------
  // On bodies
  // ---------------------------------------------------------------------

  /** A port render keeps the PVID and the grammar errors of every interface and sets its settings. */
  lemma PortFactsAfterPorts(b: ManagedBodies, present: set<int>, desired: map<int, PortSettings>, port: int)
    requires AllPortsIn(desired) && IsPortNumber(port)
    ensures var before, after := PortFacts(b, port), PortFacts(PortAfter(b, present, desired), port);
            && after.pvid == before.pvid && after.issues == before.issues
            && (port in present ==>
                  after.shut == !desired[port].enabled && GetOr(after.flow, false) == desired[port].flowControl)
            && (port !in present ==> after == before)
  {
    hide InterfaceLabel, IfaceBody, PortAfter, PortLines;
    var name, body := InterfaceLabel(port), b.interfaces[port - 1];
    InterfaceAfterPorts(b, present, desired, port);
    if port in present {
      PassFacts(name, body);
      PortLinesFacts(desired[port], name);
      IfaceBodyConcat(name, PassLines(name, body), PortLines(desired[port]));
    }
  }

  lemma {:induction false} SamePortIssues(a: ManagedBodies, b: ManagedBodies, n: nat)
    requires n <= PORT_COUNT
    requires forall port :: 1 <= port <= PORT_COUNT ==> PortFacts(a, port).issues == PortFacts(b, port).issues
    ensures PortIssues(a, n) == PortIssues(b, n)
  {
    hide PortFacts;
    if n > 0 {
      SamePortIssues(a, b, n - 1);
    }
  }

  lemma SamePVIDs(a: ManagedBodies, b: ManagedBodies)
    requires forall port :: 1 <= port <= PORT_COUNT ==> PortFacts(a, port).pvid == PortFacts(b, port).pvid
    ensures DecodedPVIDs(a) == DecodedPVIDs(b)
  {
    hide PortFacts, DecodedPVIDs;
    var l, r := DecodedPVIDs(a), DecodedPVIDs(b);
    forall port
      ensures port in l <==> port in r
      ensures port in l ==> l[port] == r[port]
    {
      PVIDAt(a, port);
      PVIDAt(b, port);
    }
    assert l == r;
  }

  /** A port render leaves the decoded VLAN state, and every grammar error, as it was. */
  lemma VLANsKeptByPorts(b: ManagedBodies, present: set<int>, desired: map<int, PortSettings>)
    requires AllPortsIn(desired)
    ensures var after := PortAfter(b, present, desired);
            DecodedState(after) == DecodedState(b) && DecodeIssues(after) == DecodeIssues(b)
  {
    hide PortAfter, PortFacts, DecodedPVIDs, DbBody, DecodedVLANs, Undeclared, DeclaredVLANs, AllMembers, PortIssues;
    var after := PortAfter(b, present, desired);
    InterfaceAfterPorts(b, present, desired, 1);
    forall port | 1 <= port <= PORT_COUNT
      ensures PortFacts(after, port).pvid == PortFacts(b, port).pvid
      ensures PortFacts(after, port).issues == PortFacts(b, port).issues
    {
      PortFactsAfterPorts(b, present, desired, port);
    }
    SamePVIDs(after, b);
    SamePortIssues(after, b, PORT_COUNT);
  }

  /** An interface section that is not there reads as an empty one. */
  predicate AbsentEmpty(b: ManagedBodies, present: set<int>) {
    forall port :: 1 <= port <= PORT_COUNT && port !in present ==> b.interfaces[port - 1] == []
  }

  /** After a port render decode yields the requested settings where the section is there, defaults elsewhere. */
  lemma SettingsAfterPorts(b: ManagedBodies, present: set<int>, desired: map<int, PortSettings>, port: int)
    requires AllPortsIn(desired) && IsPortNumber(port) && Supported(desired[port]) && AbsentEmpty(b, present)
    ensures port in DecodedSettings(PortAfter(b, present, desired))
    ensures DecodedSettings(PortAfter(b, present, desired))[port]
         == if port in present then desired[port] else DEFAULT_SETTINGS
  {
    hide PortAfter, PortFacts, DecodedSettings;
    var after := PortAfter(b, present, desired);
    SettingsAt(after, port);
    PortFactsAfterPorts(b, present, desired, port);
    if port !in present {
      EmptyFacts(b, port);
    }
  }

  lemma EmptyFacts(b: ManagedBodies, port: int)
    requires IsPortNumber(port) && b.interfaces[port - 1] == []
    ensures PortFacts(b, port) == NO_IFACE
  {
    hide InterfaceLabel, IfaceLine;
  }

  /** The settings of exactly the eight ports. */
  ghost predicate ExactPorts(desired: map<int, PortSettings>) {
    && (forall port :: port in desired <==> IsPortNumber(port))
    && forall port :: port in desired ==> Supported(desired[port])
  }

  /**
   Decode yields exactly the requested map if and only if every port whose section
   is missing is asked for its defaults.
   */
  lemma SettingsDecodeBack(b: ManagedBodies, present: set<int>, desired: map<int, PortSettings>)
    requires ExactPorts(desired) && AbsentEmpty(b, present)
    ensures DecodedSettings(PortAfter(b, present, desired)) == desired
       <==> forall port :: 1 <= port <= PORT_COUNT && port !in present ==> desired[port] == DEFAULT_SETTINGS
  {
    hide PortAfter, DecodedSettings, Supported, AbsentEmpty;
    var r := DecodedSettings(PortAfter(b, present, desired));
    forall port
      ensures port in r <==> port in desired
      ensures port in r ==> r[port] == if port in present then desired[port] else DEFAULT_SETTINGS
    {
      SettingsAt(PortAfter(b, present, desired), port);
      if IsPortNumber(port) {
        SettingsAfterPorts(b, present, desired, port);
      }
    }
    if forall port :: 1 <= port <= PORT_COUNT && port !in present ==> desired[port] == DEFAULT_SETTINGS {
      assert r == desired;
    }
  }

  // ---------------------------------------------------------------------
  // Both renders
  // ---------------------------------------------------------------------

  /** Two body sets with the same database render, for one state, to the same decoded VLANs. */
  lemma SameVLANsAfter(a: ManagedBodies, b: ManagedBodies, s: VLANState)
    requires Renderable(s) && GoIDs(s) && a.database == b.database
    ensures DecodedState(VlanAfter(a, s)) == DecodedState(VlanAfter(b, s))
    ensures DecodeIssues(VlanAfter(a, s)) == DecodeIssues(VlanAfter(b, s))
  {
    hide VlanAfter, DecodedPVIDs, DbBody, DecodedVLANs, Undeclared, DeclaredVLANs, AllMembers, PortIssues, Renderable,
      GoIDs, ForeignLines, GeneratedBody;
    DatabaseIs(a, s);
    DatabaseIs(b, s);
    PVIDsAfter(a, s);
    PVIDsAfter(b, s);
    NoPortIssues(a, s, PORT_COUNT);
    NoPortIssues(b, s, PORT_COUNT);
    DatabaseAfter(a, s);
    DatabaseAfter(b, s);
  }

  ghost function AllPorts(): set<int> {
    set port | 1 <= port <= PORT_COUNT && IsPortNumber(port)
  }

  /** VLANs then ports decodes to the same as ports then VLANs. */
  lemma OrderDoesNotMatter(b: ManagedBodies, s: VLANState, desired: map<int, PortSettings>)
    requires Renderable(s) && GoIDs(s) && ExactPorts(desired)
    ensures var left := PortAfter(VlanAfter(b, s), AllPorts(), desired);
            var right := VlanAfter(PortAfter(b, AllPorts(), desired), s);
            && DecodedState(left) == DecodedState(right) && DecodeIssues(left) == DecodeIssues(right)
            && DecodedSettings(left) == DecodedSettings(right) == desired
  {
    hide VlanAfter, PortAfter, DecodedSettings, DecodeIssues, DecodedState, Renderable, GoIDs, Supported;
    var ports := PortAfter(b, AllPorts(), desired);
    InterfaceAfterPorts(b, AllPorts(), desired, 1);
    VLANsKeptByPorts(VlanAfter(b, s), AllPorts(), desired);
    SameVLANsAfter(ports, b, s);
    SettingsDecodeBack(VlanAfter(b, s), AllPorts(), desired);
    SettingsAfter(ports, s);
    SettingsDecodeBack(b, AllPorts(), desired);
  }

  // ---------------------------------------------------------------------
  // On files
  // ---------------------------------------------------------------------

  lemma AbsentIsEmpty(lines: seq<string>)
    ensures AbsentEmpty(BodiesOf(lines), PresentPorts(lines))
  {
    hide InterfaceLabel, Present, BodyOf, BodiesOf, Region;
    forall port | 1 <= port <= PORT_COUNT && port !in PresentPorts(lines)
      ensures BodiesOf(lines).interfaces[port - 1] == []
    {
      AbsentHasNoBody(lines, InterfaceLabel(port));
      InterfaceBody(lines, port);
    }
  }

  lemma InterfaceBody(lines: seq<string>, port: int)
    requires IsPortNumber(port)
    ensures BodiesOf(lines).interfaces[port - 1] == BodyLines(lines, InterfaceLabel(port))
  {
    hide InterfaceLabel, BodyLines;
  }

  /**
   Rendering port settings into a tidy file: the file stays tidy, the VLAN state and
   the grammar errors decode as before, and the settings come back exactly when
   every port without a section is asked for its defaults.
   */
  lemma RenderedPortsDecode(lines: seq<string>, desired: map<int, PortSettings>)
    requires Tidy(lines) && ExactPorts(desired)
    ensures var out := PortRendered(lines, desired);
            && Tidy(out)
            && DecodedState(BodiesOf(out)) == DecodedState(BodiesOf(lines))
            && DecodeIssues(BodiesOf(out)) == DecodeIssues(BodiesOf(lines))
            && (DecodedSettings(BodiesOf(out)) == desired
                <==> forall port :: 1 <= port <= PORT_COUNT && port !in PresentPorts(lines) ==>
                       desired[port] == DEFAULT_SETTINGS)
  {
    hide PortRendered, DecodedState, DecodeIssues, DecodedSettings, PortAfter, PresentPorts, BodiesOf, Tidy, Spliced,
      AbsentEmpty, Supported;
    PortRenderedBodies(lines, desired);
    AbsentIsEmpty(lines);
    VLANsKeptByPorts(BodiesOf(lines), PresentPorts(lines), desired);
    SettingsDecodeBack(BodiesOf(lines), PresentPorts(lines), desired);
  }

  lemma AllPresent(lines: seq<string>)
    requires WellFormed(lines)
    ensures PresentPorts(lines) == AllPorts()
  {
    WellFormedIsTidy(lines);
    hide Present, InterfaceLabel, WellFormed;
    forall port | 1 <= port <= PORT_COUNT
      ensures Present(lines, InterfaceLabel(port))
    {
      PortName(port);
      assert Present(lines, ManagedNames()[port]);
    }
  }

  lemma TidyIsWellFormed(lines: seq<string>)
    requires Tidy(lines) && PresentPorts(lines) == AllPorts() && Present(lines, VLAN_DATABASE)
    ensures WellFormed(lines)
  {
    hide Present, InterfaceLabel, Simple, FileLines, ManagedNames;
    FirstName();
    forall k | 0 <= k < PORT_COUNT + 1
      ensures Simple(lines, ManagedNames()[k])
    {
      if k > 0 {
        PortName(k);
        assert k in AllPorts();
      }
      assert Present(lines, ManagedNames()[k]);
    }
  }

  /** Both renders of one file, in either order, decode to the same state, settings and errors. */
  lemma RendersCommute(lines: seq<string>, s: VLANState, desired: map<int, PortSettings>)
    requires WellFormed(lines) && Renderable(s) && GoIDs(s) && ExactPorts(desired)
    ensures VlanRendered(lines, s).Some? && VlanRendered(PortRendered(lines, desired), s).Some?
    ensures var left := BodiesOf(PortRendered(VlanRendered(lines, s).value, desired));
            var right := BodiesOf(VlanRendered(PortRendered(lines, desired), s).value);
            && DecodedState(left) == DecodedState(right) && DecodeIssues(left) == DecodeIssues(right)
            && DecodedSettings(left) == DecodedSettings(right) == desired
  {
    hide PortRendered, VlanRendered, DecodedState, DecodeIssues, DecodedSettings, PortAfter, VlanAfter, PresentPorts,
      BodiesOf, Tidy, WellFormed, Spliced, Supported, AllPorts, Renderable, GoIDs, Present;
    WellFormedIsTidy(lines);
    VlanRenderedBodies(lines, s);
    var vlans, ports := VlanRendered(lines, s).value, PortRendered(lines, desired);
    WellFormedIsTidy(vlans);
    AllPresent(lines);
    AllPresent(vlans);
    PortRenderedBodies(vlans, desired);
    PortRenderedBodies(lines, desired);
    StillWellFormed(lines, ports, desired);
    VlanRenderedBodies(ports, s);
    OrderDoesNotMatter(BodiesOf(lines), s, desired);
  }

  lemma StillWellFormed(lines: seq<string>, out: seq<string>, desired: map<int, PortSettings>)
    requires WellFormed(lines) && Tidy(out) && AllPortsIn(desired)
    requires PresentPorts(out) == AllPorts()
    requires forall k :: 0 <= k <= PORT_COUNT ==> Spliced(lines, out, desired, PORT_COUNT, k)
    ensures WellFormed(out)
  {
    WellFormedIsTidy(lines);
    hide Present, InterfaceLabel, Simple, FileLines, ManagedNames, WellFormed, Tidy, Region, BodyOf, NewBody;
    FirstName();
    assert Spliced(lines, out, desired, PORT_COUNT, 0);
    assert Present(lines, ManagedNames()[0]);
    TidyIsWellFormed(out);
  }
}
