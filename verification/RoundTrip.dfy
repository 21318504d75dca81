/**
 Decoding what the VLAN render wrote: the state that comes back is the one that
 was rendered exactly when the line grammar can express it.
 */
module RoundTrip {
  import opened Wrappers
  import opened VlanState
  import opened Grammar
  import opened Codec
  import opened Render
  import opened RenderFrame
  import opened BodyFacts

  predicate NoTaggedIn1(s: VLANState) {
    DEFAULT_PVID in s.vlans ==>
      forall port :: port in s.vlans[DEFAULT_PVID].ports ==> !s.vlans[DEFAULT_PVID].ports[port].Tagged?
  }

  /**
   The states the grammar can express: a tagged port of VLAN 1 needs a line that
   decode rejects, and a VLAN 1 without untagged ports leaves no trace at all.
   */
  predicate Expressible(s: VLANState) {
    NoTaggedIn1(s) && (DEFAULT_PVID in s.vlans ==> Occupied(s.vlans[DEFAULT_PVID]))
  }

  // ---------------------------------------------------------------------
  // What the bodies say after the render
  // ---------------------------------------------------------------------

  lemma PortFactsAfter(b: ManagedBodies, s: VLANState, port: int)
    requires Renderable(s) && GoIDs(s) && IsPortNumber(port)
    ensures var before, after := PortFacts(b, port), PortFacts(VlanAfter(b, s), port);
            && after.issues == [] && GetOr(after.pvid, DEFAULT_PVID) == PVIDOf(s, port)
            && after.shut == before.shut && after.flow == before.flow
            && after.foreign == ForeignLines(b.interfaces[port - 1])
  {
    hide InterfaceLabel, PVIDLines, Renderable, GoIDs, IfaceBody, ForeignLines, VlanAfter, PVIDOf;
    var name, body := InterfaceLabel(port), b.interfaces[port - 1];
    ForeignIfaceFacts(name, body);
    PVIDLinesFacts(s, port, name);
    IfaceBodyConcat(name, ForeignLines(body), PVIDLines(s, port));
    InterfaceAfter(b, s, port);
  }

  lemma InterfaceAfter(b: ManagedBodies, s: VLANState, port: int)
    requires IsPortNumber(port)
    ensures VlanAfter(b, s).interfaces[port - 1] == ForeignLines(b.interfaces[port - 1]) + PVIDLines(s, port)
  {
    hide ForeignLines, PVIDLines, GeneratedBody;
  }

  /** The database facts are the state's. */
  ghost predicate FactsOf(facts: DbFacts, s: VLANState) {
    && facts.issues == []
    && (facts.saw <==> facts.declared != [] || facts.members != [])
    && (forall vid :: vid in facts.declared <==> vid in s.vlans && vid != DEFAULT_PVID)
    && (forall m :: m in facts.members <==> Lists(s, m))
  }

  lemma DatabaseFactsAfter(b: ManagedBodies, s: VLANState)
    requires Renderable(s) && GoIDs(s)
    ensures FactsOf(DbBody(VlanAfter(b, s).database), s)
    ensures DbBody(VlanAfter(b, s).database).foreign == ForeignLines(b.database)
  {
    hide DbBody, ForeignLines, GeneratedBody, Lists, Renderable, GoIDs, VlanAfter;
    ForeignDbFacts(b.database);
    var facts := GeneratedFacts(s);
    DbBodyConcat(ForeignLines(b.database), GeneratedBody(s));
    DatabaseIs(b, s);
  }

  lemma DatabaseIs(b: ManagedBodies, s: VLANState)
    ensures VlanAfter(b, s).database == ForeignLines(b.database) + GeneratedBody(s)
  {
    hide ForeignLines, GeneratedBody, PVIDLines;
  }

  lemma PVIDsAfter(b: ManagedBodies, s: VLANState)
    requires Renderable(s) && GoIDs(s)
    ensures DecodedPVIDs(VlanAfter(b, s)) == s.pvids
  {
    hide *;
    PVIDPorts(s);
    var pvids := DecodedPVIDs(VlanAfter(b, s));
    forall port
      ensures port in pvids <==> port in s.pvids
      ensures port in pvids ==> pvids[port] == s.pvids[port]
    {
      PVIDAt(VlanAfter(b, s), port);
      if IsPortNumber(port) {
        PortFactsAfter(b, s, port);
        PVIDOfPort(s, port);
      }
    }
    assert pvids == s.pvids;
  }

  lemma PVIDOfPort(s: VLANState, port: int)
    requires port in s.pvids
    ensures PVIDOf(s, port) == s.pvids[port]
  {
  }

  lemma PVIDAt(b: ManagedBodies, port: int)
    ensures port in DecodedPVIDs(b) <==> IsPortNumber(port)
    ensures IsPortNumber(port) ==> DecodedPVIDs(b)[port] == GetOr(PortFacts(b, port).pvid, DEFAULT_PVID)
  {
    hide PortFacts;
  }

  lemma SettingsAt(b: ManagedBodies, port: int)
    ensures port in DecodedSettings(b) <==> IsPortNumber(port)
    ensures IsPortNumber(port) ==>
              DecodedSettings(b)[port] == DEFAULT_SETTINGS.(enabled := !PortFacts(b, port).shut,
                                                            flowControl := GetOr(PortFacts(b, port).flow, false))
  {
    hide PortFacts;
  }

  lemma PVIDPorts(s: VLANState)
    requires Renderable(s)
    ensures forall port :: port in s.pvids <==> IsPortNumber(port)
  {
    ValidPVIDs(s);
    hide PortRenderable, ValidState;
    assert forall port :: port in s.pvids <==> port in Ports(s.portCount);
  }

  /** The VLAN render leaves every port setting as it was. */
  lemma SettingsAfter(b: ManagedBodies, s: VLANState)
    requires Renderable(s) && GoIDs(s)
    ensures DecodedSettings(VlanAfter(b, s)) == DecodedSettings(b)
  {
    hide Renderable, GoIDs, PortFacts, VlanAfter, DecodedSettings;
    var before, after := DecodedSettings(b), DecodedSettings(VlanAfter(b, s));
    forall port
      ensures port in after <==> port in before
      ensures port in after ==> after[port] == before[port]
    {
      SettingsAt(b, port);
      SettingsAt(VlanAfter(b, s), port);
      if IsPortNumber(port) {
        PortFactsAfter(b, s, port);
      }
    }
    assert after == before;
  }

  // ---------------------------------------------------------------------
  // Issues
  // ---------------------------------------------------------------------

  lemma {:induction false} NoPortIssues(b: ManagedBodies, s: VLANState, n: nat)
    requires Renderable(s) && GoIDs(s) && n <= PORT_COUNT
    ensures PortIssues(VlanAfter(b, s), n) == []
  {
    hide Renderable, GoIDs, PortFacts, VlanAfter;
    if n > 0 {
      NoPortIssues(b, s, n - 1);
      PortFactsAfter(b, s, n);
    }
  }

  lemma {:induction false} UndeclaredIsEmpty(vids: set<int>, members: seq<VlanMember>)
    ensures Undeclared(vids, members) == [] <==> forall m :: m in members ==> m.vid in vids
  {
    hide VlanMembershipLine;
    if members != [] {
      UndeclaredIsEmpty(vids, members[..|members| - 1]);
      assert members == members[..|members| - 1] + [members[|members| - 1]];
      assert members[|members| - 1] in members;
    }
  }

  lemma {:induction false} DefaultMembersAre(n: nat, m: VlanMember)
    ensures m in DefaultMembers(n) <==> m.vid == DEFAULT_PVID && 1 <= m.port <= n && m.m == Untagged
  {
    if n > 0 {
      DefaultMembersAre(n - 1, m);
    }
  }

  /** A rendered file decodes without error exactly when no port is tagged in VLAN 1. */
  lemma IssuesAfter(b: ManagedBodies, s: VLANState)
    requires Renderable(s) && GoIDs(s)
    ensures DecodeIssues(VlanAfter(b, s)) == [] <==> NoTaggedIn1(s)
  {
    hide VlanAfter, DbBody, Undeclared, PortIssues, Renderable, GoIDs, NoTaggedIn1, FactsOf, DeclaredVLANs, AllMembers;
    var facts := DbBody(VlanAfter(b, s).database);
    DatabaseFactsAfter(b, s);
    NoPortIssues(b, s, PORT_COUNT);
    DatabaseAfter(b, s);
    NoIssues(facts, s);
    UndeclaredIff(s, facts);
  }

  lemma NoIssues(facts: DbFacts, s: VLANState)
    requires FactsOf(facts, s)
    ensures facts.issues == []
  {
  }

  lemma UndeclaredIff(s: VLANState, facts: DbFacts)
    requires Renderable(s) && FactsOf(facts, s)
    ensures Undeclared(DeclaredVLANs(facts), AllMembers(facts)) == [] <==> NoTaggedIn1(s)
  {
    hide Undeclared, Renderable, Lists, NoTaggedIn1, DefaultMembers;
    var vids, members := DeclaredVLANs(facts), AllMembers(facts);
    UndeclaredIsEmpty(vids, members);
    TaggedIsListed(s);
    if facts.saw {
      assert members == facts.members;
      forall m | Lists(s, m)
        ensures m.vid in s.vlans
      {
        ListsInRange(s, m);
      }
    } else {
      forall m | m in members
        ensures m.vid in vids
      {
        DefaultMembersAre(PORT_COUNT, m);
      }
    }
  }

  lemma TaggedIsListed(s: VLANState)
    requires Renderable(s)
    ensures NoTaggedIn1(s) <==> forall m :: Lists(s, m) ==> m.vid != DEFAULT_PVID
  {
    if m :| Lists(s, m) && m.vid == DEFAULT_PVID {
      ListsInRange(s, m);
    }
    if !NoTaggedIn1(s) {
      var port :| port in s.vlans[DEFAULT_PVID].ports && s.vlans[DEFAULT_PVID].ports[port].Tagged?;
      assert Lists(s, VlanMember(DEFAULT_PVID, port, Tagged));
    }
  }

  // ---------------------------------------------------------------------
  // The state
  // ---------------------------------------------------------------------

  /** In a renderable state a port is untagged in the VLAN of its PVID and in no other. */
  lemma UntaggedIsPVID(s: VLANState, vid: int, port: int)
    requires Renderable(s) && vid in s.vlans && IsPortNumber(port)
    ensures MembershipIn(s, vid, port).Untagged? <==> vid == PVIDOf(s, port)
  {
    assert PortRenderable(s, port);
    var untagged, pvid := UntaggedVLANs(s, port), PVIDOf(s, port);
    assert pvid in untagged;
    if MembershipIn(s, vid, port).Untagged? {
      assert vid in untagged;
      if vid != pvid {
        assert {vid, pvid} <= untagged;
        SubsetSize({vid, pvid}, untagged);
      }
    }
  }

  lemma SubsetSize<T>(a: set<T>, b: set<T>)
    requires a <= b
    ensures |a| <= |b|
  {
    assert a + (b - a) == b;
  }

  ghost predicate AllListed(s: VLANState, members: seq<VlanMember>) {
    forall m :: m in members ==> Lists(s, m)
  }

  lemma AllListedInit(s: VLANState, members: seq<VlanMember>)
    requires AllListed(s, members) && members != []
    ensures AllListed(s, members[..|members| - 1]) && Lists(s, members[|members| - 1])
    ensures forall m :: m in members <==> m in members[..|members| - 1] || m == members[|members| - 1]
  {
    hide Lists;
    assert members == members[..|members| - 1] + [members[|members| - 1]];
  }

  /** The membership the state holds. */
  function Fact(s: VLANState, vid: int, port: int): VlanMember {
    VlanMember(vid, port, MembershipIn(s, vid, port))
  }

  /** Realizing listed members gives each declared VLAN its listed ports. */
  lemma {:induction false} RealizedAre(s: VLANState, vids: set<int>, members: seq<VlanMember>, vid: int, port: int)
    requires AllListed(s, members)
    ensures var r := Realized(EmptyVLANs(vids), members);
            && r.Keys == vids
            && (vid in vids ==> r[vid].id == vid)
            && (vid in vids ==> (port in r[vid].ports <==> Fact(s, vid, port) in members))
            && (vid in vids && port in r[vid].ports ==> r[vid].ports[port] == MembershipIn(s, vid, port))
  {
    if members != [] {
      AllListedInit(s, members);
      hide AllListed;
      RealizedAre(s, vids, members[..|members| - 1], vid, port);
    }
  }

  lemma {:induction false} ExplicitIs(s: VLANState, members: seq<VlanMember>, port: int)
    requires AllListed(s, members)
    ensures ExplicitIn1(members, port)
         == if Fact(s, DEFAULT_PVID, port) in members then Some(MembershipIn(s, DEFAULT_PVID, port)) else None
  {
    if members != [] {
      AllListedInit(s, members);
      hide AllListed;
      ExplicitIs(s, members[..|members| - 1], port);
    }
  }

  /** What decode infers about a port in VLAN 1. */
  lemma InferredIs(s: VLANState, facts: DbFacts, port: int)
    requires Renderable(s) && FactsOf(facts, s) && NoTaggedIn1(s) && IsPortNumber(port) && port in s.pvids
    ensures InferredMembership(s.pvids, facts.members, port)
         == if s.pvids[port] == DEFAULT_PVID then Untagged else Ignored
  {
    hide Renderable;
    TaggedIsListed(s);
    hide Lists;
    ExplicitIs(s, facts.members, port);
    assert Fact(s, DEFAULT_PVID, port) !in facts.members;
    if UntaggedElsewhere(facts.members, port) {
      var k :| 0 <= k < |facts.members| && facts.members[k].vid != DEFAULT_PVID && facts.members[k].port == port
               && facts.members[k].m.Untagged?;
      assert facts.members[k] in facts.members;
      ListedIsMember(s, facts.members[k]);
      UntaggedIsPVID(s, facts.members[k].vid, port);
    }
  }

  lemma ListedIsMember(s: VLANState, m: VlanMember)
    requires Lists(s, m)
    ensures m.vid in s.vlans && m.m == MembershipIn(s, m.vid, m.port)
  {
  }

  /** A port is written in a declared VLAN exactly when it is not ignored there. */
  lemma FactIsListed(s: VLANState, vid: int, port: int)
    requires Renderable(s) && vid in s.vlans && vid != DEFAULT_PVID
    ensures Lists(s, Fact(s, vid, port)) <==> port in s.vlans[vid].ports && !s.vlans[vid].ports[port].Ignored?
  {
  }

  lemma NoAccess(vlan: Vlan, vid: int, pvids: map<int, int>)
    requires forall port :: 1 <= port <= PORT_COUNT ==> port in pvids
    requires forall port :: 1 <= port <= PORT_COUNT ==> !LivesIn(vlan, vid, pvids, port)
    ensures AccessPorts(vlan, vid, pvids, PORT_COUNT) == vlan.ports
  {
    hide LivesIn;
    var all := AccessPorts(vlan, vid, pvids, PORT_COUNT);
    forall p
      ensures p in all <==> p in vlan.ports
      ensures p in all ==> all[p] == vlan.ports[p]
    {
    }
    assert all == vlan.ports;
  }

  /** The listed VLANs as decode has them, VLAN 1 aside. */
  lemma ListedVLAN(s: VLANState, facts: DbFacts, vid: int)
    requires Renderable(s) && FactsOf(facts, s) && facts.saw
    requires vid in s.vlans && vid != DEFAULT_PVID
    requires forall port :: 1 <= port <= PORT_COUNT ==> port in s.pvids
    ensures var r := Realized(EmptyVLANs(DeclaredVLANs(facts)), AllMembers(facts));
            && vid in r && r[vid].id == vid
            && AccessPorts(r[vid], vid, s.pvids, PORT_COUNT) == r[vid].ports
            && NormalizedPorts(r[vid].ports, PORT_COUNT) == NormalizedPorts(s.vlans[vid].ports, PORT_COUNT)
  {
    hide Renderable, Lists, Realized, NormalizedPorts;
    var vids, members := DeclaredVLANs(facts), AllMembers(facts);
    assert members == facts.members && vid in vids;
    var r := Realized(EmptyVLANs(vids), members);
    RealizedAre(s, vids, members, vid, 1);
    forall port | 1 <= port <= PORT_COUNT
      ensures port in r[vid].ports <==> port in s.vlans[vid].ports && !s.vlans[vid].ports[port].Ignored?
      ensures port in r[vid].ports ==> r[vid].ports[port] == s.vlans[vid].ports[port]
      ensures !LivesIn(r[vid], vid, s.pvids, port)
    {
      RealizedAre(s, vids, members, vid, port);
      FactIsListed(s, vid, port);
      UntaggedIsPVID(s, vid, port);
    }
    NoAccess(r[vid], vid, s.pvids);
    SameNormalized(r[vid].ports, s.vlans[vid].ports);
  }

  /** Two port maps that differ in ignored entries only normalize to the same one. */
  lemma SameNormalized(a: map<int, PortMembership>, b: map<int, PortMembership>)
    requires forall port :: 1 <= port <= PORT_COUNT ==> (port in a <==> port in b && !b[port].Ignored?)
    requires forall port :: 1 <= port <= PORT_COUNT && port in a ==> a[port] == b[port]
    ensures NormalizedPorts(a, PORT_COUNT) == NormalizedPorts(b, PORT_COUNT)
  {
    var l, r := NormalizedPorts(a, PORT_COUNT), NormalizedPorts(b, PORT_COUNT);
    forall p
      ensures p in l <==> p in r
      ensures p in l ==> l[p] == r[p]
    {
    }
    assert l == r;
  }

  /** VLAN 1 as decode infers it. */
  lemma ImpliedVLAN1(s: VLANState, facts: DbFacts)
    requires Renderable(s) && FactsOf(facts, s) && NoTaggedIn1(s)
    requires forall port :: 1 <= port <= PORT_COUNT ==> port in s.pvids
    ensures var vlan1 := InferredVLAN1(s.pvids, facts.members);
            && (Occupied(vlan1) <==> DEFAULT_PVID in s.vlans && Occupied(s.vlans[DEFAULT_PVID]))
            && AccessPorts(vlan1, DEFAULT_PVID, s.pvids, PORT_COUNT) == vlan1.ports
            && (DEFAULT_PVID in s.vlans ==>
                  NormalizedPorts(vlan1.ports, PORT_COUNT) == NormalizedPorts(s.vlans[DEFAULT_PVID].ports, PORT_COUNT))
  {
    hide Renderable, InferredMembership, NormalizedPorts, FactsOf, NoTaggedIn1;
    var vlan1 := InferredVLAN1(s.pvids, facts.members);
    assert vlan1.ports.Keys == set p | 1 <= p <= PORT_COUNT && IsPortNumber(p);
    forall port | 1 <= port <= PORT_COUNT
      ensures vlan1.ports[port] == if s.pvids[port] == DEFAULT_PVID then Untagged else Ignored
      ensures !LivesIn(vlan1, DEFAULT_PVID, s.pvids, port)
      ensures s.pvids[port] == DEFAULT_PVID ==> DEFAULT_PVID in s.vlans
    {
      InferredIs(s, facts, port);
      PVIDExists(s, port);
    }
    NoAccess(vlan1, DEFAULT_PVID, s.pvids);
    if DEFAULT_PVID in s.vlans {
      ImpliedPorts(s, vlan1);
    }
  }

  lemma PVIDExists(s: VLANState, port: int)
    requires Renderable(s) && IsPortNumber(port)
    ensures PVIDOf(s, port) in s.vlans
  {
    assert PortRenderable(s, port);
  }

  lemma ImpliedPorts(s: VLANState, vlan1: Vlan)
    requires Renderable(s) && NoTaggedIn1(s) && DEFAULT_PVID in s.vlans
    requires forall port :: port in vlan1.ports <==> 1 <= port <= PORT_COUNT
    requires forall port :: 1 <= port <= PORT_COUNT ==> port in s.pvids
    requires forall port :: 1 <= port <= PORT_COUNT ==>
               vlan1.ports[port] == if s.pvids[port] == DEFAULT_PVID then Untagged else Ignored
    ensures Occupied(vlan1) <==> Occupied(s.vlans[DEFAULT_PVID])
    ensures NormalizedPorts(vlan1.ports, PORT_COUNT) == NormalizedPorts(s.vlans[DEFAULT_PVID].ports, PORT_COUNT)
  {
    var ports := s.vlans[DEFAULT_PVID].ports;
    assert forall port :: port in ports ==> IsPortNumber(port) && !ports[port].Unknown? && !ports[port].Tagged? by {
      assert ValidPorts(ports, s.portCount);
    }
    hide Renderable;
    forall port | 1 <= port <= PORT_COUNT
      ensures (port in ports && ports[port].Untagged?) <==> vlan1.ports[port].Untagged?
    {
      UntaggedIsPVID(s, DEFAULT_PVID, port);
    }
    if port :| port in ports && ports[port].Untagged? {
      assert vlan1.ports[port].Untagged?;
    }
    if port :| port in vlan1.ports && vlan1.ports[port].Untagged? {
      assert ports[port].Untagged?;
    }
    var l, r := NormalizedPorts(vlan1.ports, PORT_COUNT), NormalizedPorts(ports, PORT_COUNT);
    forall p
      ensures p in l <==> p in r
      ensures p in l ==> l[p] == r[p]
    {
    }
    assert l == r;
  }

  /** With vlan lines in the database the decoded VLANs are the rendered ones. */
  lemma VLANsAfter(s: VLANState, facts: DbFacts)
    requires Renderable(s) && FactsOf(facts, s) && NoTaggedIn1(s) && facts.saw
    requires forall port :: 1 <= port <= PORT_COUNT ==> port in s.pvids
    ensures var r := DecodedVLANs(facts, s.pvids);
            && (forall vid :: vid in r <==>
                  vid in s.vlans && (vid == DEFAULT_PVID ==> Occupied(s.vlans[DEFAULT_PVID])))
            && (forall vid :: vid in r ==>
                  r[vid].id == vid
                  && NormalizedPorts(r[vid].ports, PORT_COUNT) == NormalizedPorts(s.vlans[vid].ports, PORT_COUNT))
  {
    hide Renderable, Realized, NormalizedPorts, NoTaggedIn1, AccessPorts, Lists, Occupied;
    var vids, members := DeclaredVLANs(facts), AllMembers(facts);
    assert members == facts.members && DEFAULT_PVID !in vids;
    var listed := Realized(EmptyVLANs(vids), members);
    RealizedAre(s, vids, members, 1, 1);
    ImpliedVLAN1(s, facts);
    forall vid | vid in s.vlans && vid != DEFAULT_PVID
      ensures vid in listed && listed[vid].id == vid
              && AccessPorts(listed[vid], vid, s.pvids, PORT_COUNT) == listed[vid].ports
              && NormalizedPorts(listed[vid].ports, PORT_COUNT) == NormalizedPorts(s.vlans[vid].ports, PORT_COUNT)
    {
      ListedVLAN(s, facts, vid);
    }
    hide InferredVLAN1;
  }

  lemma {:induction false} ExplicitDefault(n: nat, port: int)
    ensures ExplicitIn1(DefaultMembers(n), port) == if 1 <= port <= n then Some(Untagged) else None
  {
    if n > 0 {
      ExplicitDefault(n - 1, port);
    }
  }

  lemma {:induction false} RealizedKeys(vlans: map<int, Vlan>, members: seq<VlanMember>)
    ensures Realized(vlans, members).Keys == vlans.Keys
  {
    if members != [] {
      RealizedKeys(vlans, members[..|members| - 1]);
    }
  }

  /** Without a vlan line decode falls back to VLAN 1 with every port untagged. */
  lemma FactoryVLANs(facts: DbFacts, pvids: map<int, int>)
    requires !facts.saw && facts.declared == [] && facts.members == []
    requires forall port :: 1 <= port <= PORT_COUNT ==> port in pvids
    ensures DecodedVLANs(facts, pvids)
         == map[DEFAULT_PVID :=
                  Vlan(DEFAULT_PVID, map port | 1 <= port <= PORT_COUNT && IsPortNumber(port) :: Untagged)]
  {
    hide Realized, DefaultMembers, AccessPorts;
    var vids, members := DeclaredVLANs(facts), AllMembers(facts);
    assert vids == {DEFAULT_PVID} && members == DefaultMembers(PORT_COUNT);
    RealizedKeys(EmptyVLANs(vids), members);
    var ports := map port | 1 <= port <= PORT_COUNT && IsPortNumber(port) :: Untagged;
    var vlan1 := InferredVLAN1(pvids, members);
    forall port | 1 <= port <= PORT_COUNT
      ensures vlan1.ports[port] == Untagged
    {
      ExplicitDefault(PORT_COUNT, port);
    }
    assert vlan1.ports == ports;
    hide InferredVLAN1;
    NoAccess(vlan1, DEFAULT_PVID, pvids);
    var r := DecodedVLANs(facts, pvids);
    assert forall vid :: vid in r <==> vid == DEFAULT_PVID;
    assert r == map[DEFAULT_PVID := r[DEFAULT_PVID]];
  }

  /** A state that renders without any vlan line in the database is the factory state. */
  lemma FactoryState(s: VLANState, facts: DbFacts)
    requires Renderable(s) && FactsOf(facts, s) && !facts.saw
    ensures s.vlans.Keys == {DEFAULT_PVID} && NoTaggedIn1(s) && Occupied(s.vlans[DEFAULT_PVID])
    ensures facts.declared == [] && facts.members == []
    ensures forall port :: 1 <= port <= PORT_COUNT ==> Member(s.vlans[DEFAULT_PVID].ports, port).Untagged?
  {
    TaggedIsListed(s);
    hide Renderable, Lists, NoTaggedIn1;
    PVIDExists(s, 1);
    forall vid | vid in s.vlans
      ensures vid == DEFAULT_PVID
    {
      assert vid != DEFAULT_PVID ==> vid in facts.declared;
    }
    assert DEFAULT_PVID in s.vlans;
    assert s.vlans.Keys == {DEFAULT_PVID};
    forall port | 1 <= port <= PORT_COUNT
      ensures Member(s.vlans[DEFAULT_PVID].ports, port).Untagged?
    {
      PVIDExists(s, port);
      UntaggedIsPVID(s, DEFAULT_PVID, port);
    }
    assert Member(s.vlans[DEFAULT_PVID].ports, 1).Untagged?;
    assert 1 in s.vlans[DEFAULT_PVID].ports;
  }

  /** The decoded VLANs match the rendered ones, VLAN 1 only when some port is untagged in it. */
  lemma DecodedVLANsAre(s: VLANState, facts: DbFacts)
    requires Renderable(s) && FactsOf(facts, s) && NoTaggedIn1(s)
    requires forall port :: 1 <= port <= PORT_COUNT ==> port in s.pvids
    ensures var r := DecodedVLANs(facts, s.pvids);
            && (forall vid :: vid in r <==>
                  vid in s.vlans && (vid == DEFAULT_PVID ==> Occupied(s.vlans[DEFAULT_PVID])))
            && (forall vid :: vid in r ==>
                  r[vid].id == vid
                  && NormalizedPorts(r[vid].ports, PORT_COUNT) == NormalizedPorts(s.vlans[vid].ports, PORT_COUNT))
  {
    hide Renderable, NormalizedPorts, NoTaggedIn1, DecodedVLANs, Occupied;
    if facts.saw {
      VLANsAfter(s, facts);
    } else {
      FactoryState(s, facts);
      FactoryVLANs(facts, s.pvids);
      FactoryPorts(s.vlans[DEFAULT_PVID].ports, DecodedVLANs(facts, s.pvids)[DEFAULT_PVID].ports);
    }
  }

  lemma FactoryPorts(ports: map<int, PortMembership>, all: map<int, PortMembership>)
    requires forall port :: 1 <= port <= PORT_COUNT ==> Member(ports, port).Untagged?
    requires all == map port | 1 <= port <= PORT_COUNT && IsPortNumber(port) :: Untagged
    ensures NormalizedPorts(all, PORT_COUNT) == NormalizedPorts(ports, PORT_COUNT)
  {
    var l, r := NormalizedPorts(all, PORT_COUNT), NormalizedPorts(ports, PORT_COUNT);
    forall p
      ensures p in l <==> p in r
      ensures p in l ==> l[p] == r[p]
    {
      if IsPortNumber(p) {
        assert Member(ports, p).Untagged?;
      }
    }
    assert l == r;
  }

  lemma SameVLANs(r: map<int, Vlan>, s: VLANState)
    requires s.portCount == PORT_COUNT
    requires forall vid :: vid in r ==>
               vid in s.vlans && r[vid].id == vid
               && NormalizedPorts(r[vid].ports, PORT_COUNT) == NormalizedPorts(s.vlans[vid].ports, PORT_COUNT)
    ensures SameState(VLANState(PORT_COUNT, r, s.pvids), s) <==> forall vid :: vid in s.vlans ==> vid in r
  {
    hide NormalizedPorts;
    var left, right := Normalized(VLANState(PORT_COUNT, r, s.pvids)), Normalized(s);
    if forall vid :: vid in s.vlans ==> vid in r {
      forall vid
        ensures vid in left.vlans <==> vid in right.vlans
        ensures vid in left.vlans ==> left.vlans[vid] == right.vlans[vid]
      {
      }
      assert left.vlans == right.vlans;
    } else {
      var vid :| vid in s.vlans && vid !in r;
      assert vid in right.vlans && vid !in left.vlans;
    }
  }

  /** The round trip on bodies: exactly the expressible states come back. */
  lemma DecodesBack(b: ManagedBodies, s: VLANState)
    requires Renderable(s) && GoIDs(s)
    ensures var after := VlanAfter(b, s);
            (DecodeIssues(after) == [] && EqualStates(DecodedState(after), s)) <==> Expressible(s)
  {
    hide VlanAfter, DbBody, DecodeIssues, DecodedPVIDs, DecodedVLANs, Renderable, GoIDs, FactsOf, EqualStates,
         SameState, NormalizedPorts, Occupied, NoTaggedIn1, NoZeroPVID;
    var after := VlanAfter(b, s);
    IssuesAfter(b, s);
    if NoTaggedIn1(s) {
      DatabaseFactsAfter(b, s);
      PVIDsAfter(b, s);
      PVIDPorts(s);
      var facts := DbBody(after.database);
      DecodedVLANsAre(s, facts);
      RightCount(s);
      SameVLANs(DecodedVLANs(facts, s.pvids), s);
      NoZeros(s, DecodedState(after));
      EqualIsSameState(DecodedState(after), s);
    }
  }

  lemma RightCount(s: VLANState)
    requires Renderable(s)
    ensures s.portCount == PORT_COUNT
  {
  }

  lemma NoZeros(s: VLANState, d: VLANState)
    requires Renderable(s) && d.pvids == s.pvids
    ensures NoZeroPVID(d)
  {
    PVIDPorts(s);
    forall port | port in s.pvids
      ensures s.pvids[port] != 0
    {
      PVIDExists(s, port);
    }
  }

  // ---------------------------------------------------------------------
  // Files
  // ---------------------------------------------------------------------

  /**
   Rendering a state into a well-formed file: the render succeeds, the file stays
   well-formed, every port setting is as it was, and decode gives the state back
   exactly when the grammar can express it.
   */
  lemma RenderedStateDecodes(lines: seq<string>, s: VLANState)
    requires WellFormed(lines) && Renderable(s) && GoIDs(s)
    ensures VlanRendered(lines, s).Some?
    ensures var out := BodiesOf(VlanRendered(lines, s).value);
            && WellFormed(VlanRendered(lines, s).value)
            && DecodedSettings(out) == DecodedSettings(BodiesOf(lines))
            && ((DecodeIssues(out) == [] && EqualStates(DecodedState(out), s)) <==> Expressible(s))
  {
    hide *;
    VlanRenderedBodies(lines, s);
    SettingsAfter(BodiesOf(lines), s);
    DecodesBack(BodiesOf(lines), s);
  }

  // ---------------------------------------------------------------------
  // States that do not come back
  // ---------------------------------------------------------------------

  ghost function Everywhere<T>(value: T): map<int, T> {
    map port | 1 <= port <= PORT_COUNT && IsPortNumber(port) :: value
  }

  /** All ports live in VLAN 2; VLAN 1 holds the given memberships. */
  ghost function MovedToVLAN2(ports: map<int, PortMembership>): VLANState {
    VLANState(PORT_COUNT, map[1 := Vlan(1, ports), 2 := Vlan(2, Everywhere(Untagged))], Everywhere(2))
  }

  lemma MovedIsRenderable(ports: map<int, PortMembership>)
    requires forall port :: port in ports ==> IsPortNumber(port) && (ports[port].Tagged? || ports[port].Ignored?)
    ensures Renderable(MovedToVLAN2(ports)) && GoIDs(MovedToVLAN2(ports))
  {
    var s := MovedToVLAN2(ports);
    assert s.pvids.Keys == Ports(PORT_COUNT);
    PortsSize(PORT_COUNT);
    assert |s.pvids| == PORT_COUNT by { hide MovedToVLAN2; assert |s.pvids.Keys| == PORT_COUNT; }
    forall port | IsPortNumber(port)
      ensures PortRenderable(s, port)
    {
      assert UntaggedVLANs(s, port) == {2};
    }
  }

  /** A port tagged in VLAN 1 passes the guard and does not come back. */
  lemma TaggedInVLAN1IsLost()
    ensures var s := MovedToVLAN2(map[8 := Tagged]); Renderable(s) && GoIDs(s) && !Expressible(s)
  {
    MovedIsRenderable(map[8 := Tagged]);
    assert !NoTaggedIn1(MovedToVLAN2(map[8 := Tagged])) by {
      assert MovedToVLAN2(map[8 := Tagged]).vlans[1].ports[8].Tagged?;
    }
  }

  /** A VLAN 1 that ignores every port passes the guard and does not come back. */
  lemma EmptyVLAN1IsLost()
    ensures var s := MovedToVLAN2(map[]); Renderable(s) && GoIDs(s) && !Expressible(s)
  {
    MovedIsRenderable(map[]);
  }
}
