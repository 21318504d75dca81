/**
 The two codecs over a parsed config: decode, which reads VLAN state and port
 settings out of the nine managed sections, and the two renders, which splice
 regenerated bodies back in.
 */
module Codec {
  import opened Wrappers
  import opened Text
  import opened TextCfg
  import opened VlanState
  import opened Grammar

  // ---------------------------------------------------------------------
  // The managed sections
  // ---------------------------------------------------------------------

  function BodyLines(lines: seq<string>, name: string): seq<string> {
    match BodyOf(lines, name)
    case None => []
    case Some(body) => body
  }

  /** The contents of the managed sections; an absent interface reads as an empty one. */
  datatype Bodies = Bodies(hasDatabase: bool, database: seq<string>, interfaces: seq<seq<string>>)

  function InterfaceBodies(lines: seq<string>): seq<seq<string>> {
    seq(PORT_COUNT, k => BodyLines(lines, InterfaceLabel(k + 1)))
  }

  function BodiesOf(lines: seq<string>): (b: Bodies)
    ensures |b.interfaces| == PORT_COUNT
  {
    Bodies(LabelLine(lines, VLAN_DATABASE).Some?, BodyLines(lines, VLAN_DATABASE), InterfaceBodies(lines))
  }

  type ManagedBodies = b: Bodies | |b.interfaces| == PORT_COUNT
    witness Bodies(false, [], [[], [], [], [], [], [], [], []])

  predicate IsPortNumber(port: int) {
    1 <= port <= PORT_COUNT
  }

  function PortFacts(b: ManagedBodies, port: int): IfaceFacts
    requires IsPortNumber(port)
  {
    IfaceBody(InterfaceLabel(port), b.interfaces[port - 1])
  }

  // ---------------------------------------------------------------------
  // Decoding
  // ---------------------------------------------------------------------

  function GetOr<T>(value: Option<T>, default: T): T {
    match value
    case None => default
    case Some(v) => v
  }

  function DecodedPVIDs(b: ManagedBodies): map<int, int> {
    map port | 1 <= port <= PORT_COUNT :: GetOr(PortFacts(b, port).pvid, DEFAULT_PVID)
  }

  function DecodedSettings(b: ManagedBodies): map<int, PortSettings> {
    map port | 1 <= port <= PORT_COUNT ::
      DEFAULT_SETTINGS.(enabled := !PortFacts(b, port).shut, flowControl := GetOr(PortFacts(b, port).flow, false))
  }

  function PortIssues(b: ManagedBodies, n: nat): seq<Issue>
    requires n <= PORT_COUNT
  {
    if n == 0 then [] else PortIssues(b, n - 1) + PortFacts(b, n).issues
  }

  function DefaultMembers(n: nat): seq<VlanMember> {
    if n == 0 then [] else DefaultMembers(n - 1) + [VlanMember(DEFAULT_PVID, n, Untagged)]
  }

  /** The declared VLANs; with no vlan line at all VLAN 1 is implied. */
  function DeclaredVLANs(facts: DbFacts): set<int> {
    (set vid | vid in facts.declared) + if facts.saw then {} else {DEFAULT_PVID}
  }

  function AllMembers(facts: DbFacts): seq<VlanMember> {
    facts.members + if facts.saw then [] else DefaultMembers(PORT_COUNT)
  }

  function EmptyVLANs(vids: set<int>): map<int, Vlan> {
    map vid | vid in vids :: Vlan(vid, map[])
  }

  function SetMember(vlans: map<int, Vlan>, m: VlanMember): map<int, Vlan> {
    if m.vid in vlans
    then vlans[m.vid := vlans[m.vid].(ports := vlans[m.vid].ports[m.port := m.m])]
    else vlans
  }

  function Realized(vlans: map<int, Vlan>, members: seq<VlanMember>): map<int, Vlan> {
    if members == [] then vlans
    else SetMember(Realized(vlans, members[..|members| - 1]), members[|members| - 1])
  }

  /** Memberships of VLANs that were never declared. */
  function Undeclared(vids: set<int>, members: seq<VlanMember>): seq<Issue> {
    if members == [] then []
    else
      var m := members[|members| - 1];
      Undeclared(vids, members[..|members| - 1])
      + if m.vid in vids then []
        else [BadLine(VLAN_DATABASE, VlanMembershipLine(m.vid, m.port, m.m), NeverDeclared)]
  }

  /** The last explicit membership of a port in VLAN 1. */
  function ExplicitIn1(members: seq<VlanMember>, port: int): Option<PortMembership> {
    if members == [] then None
    else
      var m := members[|members| - 1];
      if m.vid == DEFAULT_PVID && m.port == port then Some(m.m) else ExplicitIn1(members[..|members| - 1], port)
  }

  predicate UntaggedElsewhere(members: seq<VlanMember>, port: int) {
    exists k ::
      0 <= k < |members| && members[k].vid != DEFAULT_PVID && members[k].port == port && members[k].m.Untagged?
  }

  function InferredMembership(pvids: map<int, int>, members: seq<VlanMember>, port: int): PortMembership
    requires port in pvids
  {
    match ExplicitIn1(members, port)
    case Some(m) => m
    case None => if pvids[port] == DEFAULT_PVID && !UntaggedElsewhere(members, port) then Untagged else Ignored
  }

  function InferredVLAN1(pvids: map<int, int>, members: seq<VlanMember>): Vlan
    requires forall port :: 1 <= port <= PORT_COUNT ==> port in pvids
  {
    Vlan(DEFAULT_PVID, map port | 1 <= port <= PORT_COUNT :: InferredMembership(pvids, members, port))
  }

  predicate Occupied(vlan: Vlan) {
    exists port :: port in vlan.ports && vlan.ports[port].Untagged?
  }

  /** The ports up to n that live in a VLAN by their PVID alone. */
  predicate LivesIn(vlan: Vlan, vid: int, pvids: map<int, int>, port: int)
    requires port in pvids
  {
    vid > 0 && pvids[port] == vid && port !in vlan.ports
  }

  function AccessPorts(vlan: Vlan, vid: int, pvids: map<int, int>, n: nat): map<int, PortMembership>
    requires n <= PORT_COUNT && forall port :: 1 <= port <= PORT_COUNT ==> port in pvids
  {
    vlan.ports + map port | 1 <= port <= n && LivesIn(vlan, vid, pvids, port) :: Untagged
  }

  /** A port without a membership in its PVID's VLAN is untagged there. */
  function AccessUpTo(vlans: map<int, Vlan>, pvids: map<int, int>, n: nat): map<int, Vlan>
    requires n <= PORT_COUNT && forall port :: 1 <= port <= PORT_COUNT ==> port in pvids
  {
    map vid | vid in vlans :: vlans[vid].(ports := AccessPorts(vlans[vid], vid, pvids, n))
  }

  function InferredAccess(vlans: map<int, Vlan>, pvids: map<int, int>): map<int, Vlan>
    requires forall port :: 1 <= port <= PORT_COUNT ==> port in pvids
  {
    AccessUpTo(vlans, pvids, PORT_COUNT)
  }

  function WithVLAN1(vlans: map<int, Vlan>, declared: bool, vlan1: Vlan): map<int, Vlan> {
    if declared || Occupied(vlan1) then vlans[DEFAULT_PVID := vlan1] else vlans
  }

  function DecodedVLANs(facts: DbFacts, pvids: map<int, int>): map<int, Vlan>
    requires forall port :: 1 <= port <= PORT_COUNT ==> port in pvids
  {
    var vids, members := DeclaredVLANs(facts), AllMembers(facts);
    var listed := Realized(EmptyVLANs(vids), members);
    InferredAccess(WithVLAN1(listed, DEFAULT_PVID in vids, InferredVLAN1(pvids, members)), pvids)
  }

  function DecodedState(b: ManagedBodies): VLANState {
    VLANState(PORT_COUNT, DecodedVLANs(DbBody(b.database), DecodedPVIDs(b)), DecodedPVIDs(b))
  }

  function DecodeIssues(b: ManagedBodies): seq<Issue> {
    var facts := DbBody(b.database);
    (if b.hasDatabase then [] else [MissingSection(VLAN_DATABASE)])
    + facts.issues + PortIssues(b, PORT_COUNT) + Undeclared(DeclaredVLANs(facts), AllMembers(facts))
  }

  /** Everything one pass over a config yields; the first issue is the error of the VLAN decode. */
  datatype Decoded = Decoded(
    state: VLANState,
    ports: map<int, PortSettings>,
    foreign: map<string, seq<string>>,
    portPass: map<string, seq<string>>,
    issues: seq<Issue>)

  function ForeignOf(b: ManagedBodies, name: string): seq<string> {
    if name == VLAN_DATABASE then DbBody(b.database).foreign
    else
      match PortOf(name, PORT_COUNT)
      case None => []
      case Some(port) => PortFacts(b, port).foreign
  }

  function PassOf(b: ManagedBodies, name: string): seq<string> {
    match PortOf(name, PORT_COUNT)
    case None => []
    case Some(port) => PortFacts(b, port).pass
  }

  /** The managed port a section label names. */
  function PortOf(name: string, n: nat): (r: Option<int>)
    requires n <= PORT_COUNT
    ensures r.Some? ==> IsPortNumber(r.value) && InterfaceLabel(r.value) == name
  {
    if n == 0 then None else if InterfaceLabel(n) == name then Some(n) else PortOf(name, n - 1)
  }

  /** A map entry that was never made reads as no lines. */
  function LinesIn(m: map<string, seq<string>>, name: string): seq<string> {
    if name in m then m[name] else []
  }

  ghost predicate IsDecoded(dec: Decoded, b: ManagedBodies) {
    && dec.state == DecodedState(b)
    && dec.ports == DecodedSettings(b)
    && dec.issues == DecodeIssues(b)
    && (forall name :: LinesIn(dec.foreign, name) == ForeignOf(b, name))
    && (forall name :: LinesIn(dec.portPass, name) == PassOf(b, name))
  }

  lemma InterfaceLabelsDiffer(p: int, q: int)
    requires IsPortNumber(p) && IsPortNumber(q)
    ensures InterfaceLabel(p) == InterfaceLabel(q) <==> p == q
    ensures InterfaceLabel(p) != VLAN_DATABASE
  {
    var stem := "interface 0/";
    assert InterfaceLabel(p)[|stem|..] == Itoa(p) && InterfaceLabel(q)[|stem|..] == Itoa(q);
    AtoiOfItoa(p);
    AtoiOfItoa(q);
    assert InterfaceLabel(p)[0] == 'i';
  }

  lemma {:induction false} PortOfLabel(port: int, n: nat)
    requires IsPortNumber(port) && n <= PORT_COUNT
    ensures PortOf(InterfaceLabel(port), n) == if port <= n then Some(port) else None
  {
    hide InterfaceLabel;
    if n > 0 {
      InterfaceLabelsDiffer(n, port);
      PortOfLabel(port, n - 1);
    }
  }

  // ---------------------------------------------------------------------
  // decodeTextConfig
  // ---------------------------------------------------------------------

  /** The database lines, one by one. */
  method DecodeDatabase(body: seq<string>)
    returns (foreign: seq<string>, declared: set<int>, members: seq<VlanMember>, saw: bool, issues: seq<Issue>)
    ensures var facts := DbBody(body);
            && foreign == facts.foreign && declared == (set vid | vid in facts.declared)
            && members == facts.members && saw == facts.saw && issues == facts.issues
  {
    hide ParseVlanDeclares, ParseVlanMembership, IsVlanLine, TrimSpace, TrimCR, Fields;
    foreign, declared, members, saw, issues := [], {}, [], false, [];
    for i := 0 to |body|
      invariant var facts := DbBody(body[..i]);
                && foreign == facts.foreign && declared == (set vid | vid in facts.declared)
                && members == facts.members && saw == facts.saw && issues == facts.issues
    {
      assert body[..i + 1][..i] == body[..i];
      var line := TrimCR(body[i]);
      if !IsVlanLine(line) {
        foreign := foreign + [line];
        continue;
      }
      var vids := ParseVlanDeclares(Fields(line));
      if vids.Some? {
        for k := 0 to |vids.value|
          invariant declared == (set vid | vid in DbBody(body[..i]).declared + vids.value[..k])
        {
          assert vids.value[..k + 1] == vids.value[..k] + [vids.value[k]];
          declared := declared + {vids.value[k]};
        }
        assert vids.value[..|vids.value|] == vids.value;
        saw := true;
        continue;
      }
      var m := ParseVlanMembership(Fields(line));
      if m.Some? {
        if m.value.port < 1 || m.value.port > PORT_COUNT {
          issues := issues + [BadLine(VLAN_DATABASE, TrimSpace(line), PortOutsideRange)];
          continue;
        }
        members := members + [m.value];
        saw := true;
        continue;
      }
      issues := issues + [BadLine(VLAN_DATABASE, TrimSpace(line), NoDatabaseTemplate)];
    }
    assert body[..|body|] == body;
  }

  /** One interface body: the port's PVID and settings, and what each render passes through. */
  method DecodeInterface(name: string, body: seq<string>)
    returns (pvid: int, settings: PortSettings, foreign: seq<string>, pass: seq<string>, issues: seq<Issue>)
    ensures var facts := IfaceBody(name, body);
            && pvid == GetOr(facts.pvid, DEFAULT_PVID)
            && settings == DEFAULT_SETTINGS.(enabled := !facts.shut, flowControl := GetOr(facts.flow, false))
            && foreign == facts.foreign && pass == facts.pass && issues == facts.issues
  {
    hide ParseVlanPVID, ParseShutdownLine, ParseFlowControlLine, IsVlanLine, TrimSpace, TrimCR, Fields;
    pvid, settings, foreign, pass, issues := DEFAULT_PVID, DEFAULT_SETTINGS, [], [], [];
    for i := 0 to |body|
      invariant var facts := IfaceBody(name, body[..i]);
                && pvid == GetOr(facts.pvid, DEFAULT_PVID)
                && settings == DEFAULT_SETTINGS.(enabled := !facts.shut, flowControl := GetOr(facts.flow, false))
                && foreign == facts.foreign && pass == facts.pass && issues == facts.issues
    {
      assert body[..i + 1][..i] == body[..i];
      var line := TrimCR(body[i]);
      var fields := Fields(line);
      if IsVlanLine(line) {
        var vid := ParseVlanPVID(fields);
        if vid.None? {
          issues := issues + [BadLine(name, TrimSpace(line), NoPVIDTemplate)];
        } else {
          pvid := vid.value;
        }
        pass := pass + [line];
        continue;
      }
      foreign := foreign + [line];
      if ParseShutdownLine(fields) {
        settings := settings.(enabled := false);
        continue;
      }
      var on := ParseFlowControlLine(fields);
      if on.Some? {
        settings := settings.(flowControl := on.value);
        continue;
      }
      pass := pass + [line];
    }
    assert body[..|body|] == body;
  }

  /** Sets the explicit memberships of declared VLANs; the others are issues. */
  method RealizeMembers(vlans: map<int, Vlan>, members: seq<VlanMember>)
    returns (r: map<int, Vlan>, issues: seq<Issue>)
    ensures r == Realized(vlans, members) && issues == Undeclared(vlans.Keys, members)
  {
    hide VlanMembershipLine;
    r, issues := vlans, [];
    for k := 0 to |members|
      invariant r == Realized(vlans, members[..k]) && r.Keys == vlans.Keys
      invariant issues == Undeclared(vlans.Keys, members[..k])
    {
      assert members[..k + 1][..k] == members[..k];
      var m := members[k];
      if m.vid !in r {
        issues := issues + [BadLine(VLAN_DATABASE, VlanMembershipLine(m.vid, m.port, m.m), NeverDeclared)];
        continue;
      }
      r := r[m.vid := r[m.vid].(ports := r[m.vid].ports[m.port := m.m])];
    }
    assert members[..|members|] == members;
  }

  /** The implicit VLAN 1, and whether any port lives in it. */
  method InferVLAN1(wasDeclared: bool, pvids: map<int, int>, members: seq<VlanMember>)
    returns (vlan: Vlan, keep: bool)
    requires forall port :: 1 <= port <= PORT_COUNT ==> port in pvids
    ensures vlan == InferredVLAN1(pvids, members) && keep == (wasDeclared || Occupied(vlan))
  {
    hide UntaggedElsewhere;
    assert members[..0] == [];
    NothingElsewhere();
    var explicit: map<int, PortMembership> := map[];
    var elsewhere: set<int> := {};
    for k := 0 to |members|
      invariant forall port :: ExplicitIn1(members[..k], port) ==
                  if port in explicit then Some(explicit[port]) else None
      invariant forall port :: port in elsewhere <==> UntaggedElsewhere(members[..k], port)
    {
      assert members[..k + 1][..k] == members[..k];
      ElsewhereSnoc(members, k);
      var m := members[k];
      if m.vid == DEFAULT_PVID {
        explicit := explicit[m.port := m.m];
      } else if m.m.Untagged? {
        elsewhere := elsewhere + {m.port};
      }
    }
    assert members[..|members|] == members;
    hide ExplicitIn1, UntaggedElsewhere;
    var ports: map<int, PortMembership> := map[];
    keep := wasDeclared;
    for port := 1 to PORT_COUNT + 1
      invariant forall p :: p in ports <==> 1 <= p < port
      invariant forall p :: 1 <= p < port ==> ports[p] == InferredMembership(pvids, members, p)
      invariant keep == (wasDeclared || UntaggedBelow(pvids, members, port))
    {
      UntaggedBelowStep(pvids, members, port);
      if port in explicit {
        ports := ports[port := explicit[port]];
        if explicit[port].Untagged? {
          keep := true;
        }
      } else if pvids[port] == DEFAULT_PVID && port !in elsewhere {
        ports := ports[port := Untagged];
        keep := true;
      } else {
        ports := ports[port := Ignored];
      }
    }
    vlan := Vlan(DEFAULT_PVID, ports);
    forall p
      ensures p in ports <==> p in InferredVLAN1(pvids, members).ports
    {
    }
    assert ports == InferredVLAN1(pvids, members).ports;
    OccupiedIs(pvids, members);
  }

  /** Some port below n is inferred to be untagged in VLAN 1. */
  predicate UntaggedBelow(pvids: map<int, int>, members: seq<VlanMember>, n: nat)
    requires n <= PORT_COUNT + 1 && forall port :: 1 <= port <= PORT_COUNT ==> port in pvids
  {
    exists p :: 1 <= p < n && InferredMembership(pvids, members, p).Untagged?
  }

  lemma UntaggedBelowStep(pvids: map<int, int>, members: seq<VlanMember>, n: nat)
    requires 1 <= n <= PORT_COUNT && forall port :: 1 <= port <= PORT_COUNT ==> port in pvids
    ensures !UntaggedBelow(pvids, members, 1)
    ensures UntaggedBelow(pvids, members, n + 1) <==>
              UntaggedBelow(pvids, members, n) || InferredMembership(pvids, members, n).Untagged?
  {
    hide InferredMembership;
    if InferredMembership(pvids, members, n).Untagged? {
      assert UntaggedBelow(pvids, members, n + 1);
    }
  }

  lemma OccupiedIs(pvids: map<int, int>, members: seq<VlanMember>)
    requires forall port :: 1 <= port <= PORT_COUNT ==> port in pvids
    ensures Occupied(InferredVLAN1(pvids, members)) <==> UntaggedBelow(pvids, members, PORT_COUNT + 1)
  {
    hide InferredMembership;
    var vlan := InferredVLAN1(pvids, members);
    if p :| 1 <= p < PORT_COUNT + 1 && InferredMembership(pvids, members, p).Untagged? {
      assert p in vlan.ports && vlan.ports[p].Untagged?;
    }
  }

  lemma NothingElsewhere()
    ensures forall port :: !UntaggedElsewhere([], port)
  {
  }

  lemma ElsewhereSnoc(members: seq<VlanMember>, k: nat)
    requires k < |members|
    ensures forall port :: UntaggedElsewhere(members[..k + 1], port) <==>
              UntaggedElsewhere(members[..k], port)
              || (members[k].vid != DEFAULT_PVID && members[k].port == port && members[k].m.Untagged?)
  {
    forall port
      ensures UntaggedElsewhere(members[..k + 1], port) <==>
                UntaggedElsewhere(members[..k], port)
                || (members[k].vid != DEFAULT_PVID && members[k].port == port && members[k].m.Untagged?)
    {
      assert members[..k + 1][k] == members[k];
      assert forall j :: 0 <= j < k ==> members[..k + 1][j] == members[..k][j];
    }
  }

  /** PVID N stands for an untagged membership in VLAN N where none is explicit. */
  method InferAccessVLANMembershipFromPVID(vlans: map<int, Vlan>, pvids: map<int, int>) returns (r: map<int, Vlan>)
    requires forall port :: 1 <= port <= PORT_COUNT ==> port in pvids
    ensures r == InferredAccess(vlans, pvids)
  {
    r := vlans;
    StartAccess(vlans, pvids);
    for port := 1 to PORT_COUNT + 1
      invariant IsAccessUpTo(r, vlans, pvids, port - 1)
    {
      hide IsAccessUpTo;
      AccessStep(r, vlans, pvids, port);
      var vid := pvids[port];
      if vid <= 0 || vid !in r {
        continue;
      }
      if port in r[vid].ports {
        continue;
      }
      r := r[vid := r[vid].(ports := r[vid].ports[port := Untagged])];
    }
    AllAccess(r, vlans, pvids);
  }

  ghost predicate IsAccessUpTo(r: map<int, Vlan>, vlans: map<int, Vlan>, pvids: map<int, int>, n: nat)
    requires n <= PORT_COUNT && forall port :: 1 <= port <= PORT_COUNT ==> port in pvids
  {
    && (forall v :: v in r <==> v in vlans)
    && (forall v :: v in vlans ==> r[v] == vlans[v].(ports := AccessPorts(vlans[v], v, pvids, n)))
  }

  lemma StartAccess(vlans: map<int, Vlan>, pvids: map<int, int>)
    requires forall port :: 1 <= port <= PORT_COUNT ==> port in pvids
    ensures IsAccessUpTo(vlans, vlans, pvids, 0)
  {
    forall v | v in vlans
      ensures vlans[v] == vlans[v].(ports := AccessPorts(vlans[v], v, pvids, 0))
    {
      NoAccessPortsYet(vlans[v], v, pvids);
    }
  }

  /** One more port changes at most the VLAN of its PVID. */
  lemma AccessStep(r: map<int, Vlan>, vlans: map<int, Vlan>, pvids: map<int, int>, port: int)
    requires IsPortNumber(port) && forall p :: 1 <= p <= PORT_COUNT ==> p in pvids
    requires IsAccessUpTo(r, vlans, pvids, port - 1)
    ensures var vid := pvids[port];
            IsAccessUpTo(if vid <= 0 || vid !in r || port in r[vid].ports then r
                         else r[vid := r[vid].(ports := r[vid].ports[port := Untagged])], vlans, pvids, port)
  {
    var vid := pvids[port];
    var next := if vid <= 0 || vid !in r || port in r[vid].ports then r
                else r[vid := r[vid].(ports := r[vid].ports[port := Untagged])];
    hide AccessPorts;
    forall v | v in vlans
      ensures next[v] == vlans[v].(ports := AccessPorts(vlans[v], v, pvids, port))
    {
      AccessPortsStep(vlans[v], v, pvids, port);
    }
  }

  lemma AllAccess(r: map<int, Vlan>, vlans: map<int, Vlan>, pvids: map<int, int>)
    requires forall p :: 1 <= p <= PORT_COUNT ==> p in pvids
    requires IsAccessUpTo(r, vlans, pvids, PORT_COUNT)
    ensures r == InferredAccess(vlans, pvids)
  {
    hide AccessPorts;
    var goal := AccessUpTo(vlans, pvids, PORT_COUNT);
    forall v
      ensures v in r <==> v in goal
    {
    }
    assert r == goal;
  }

  lemma NoAccessPortsYet(vlan: Vlan, vid: int, pvids: map<int, int>)
    requires forall port :: 1 <= port <= PORT_COUNT ==> port in pvids
    ensures AccessPorts(vlan, vid, pvids, 0) == vlan.ports
  {
    hide LivesIn;
    var all := AccessPorts(vlan, vid, pvids, 0);
    forall p
      ensures p in all <==> p in vlan.ports
      ensures p in all ==> all[p] == vlan.ports[p]
    {
    }
    assert all == vlan.ports;
  }

  lemma AccessPortsStep(vlan: Vlan, vid: int, pvids: map<int, int>, port: int)
    requires IsPortNumber(port) && forall p :: 1 <= p <= PORT_COUNT ==> p in pvids
    ensures var before, after := AccessPorts(vlan, vid, pvids, port - 1), AccessPorts(vlan, vid, pvids, port);
            && (port in before <==> port in vlan.ports)
            && after == if LivesIn(vlan, vid, pvids, port) then before[port := Untagged] else before
  {
    var before, after := AccessPorts(vlan, vid, pvids, port - 1), AccessPorts(vlan, vid, pvids, port);
    var goal := if LivesIn(vlan, vid, pvids, port) then before[port := Untagged] else before;
    forall p
      ensures p in after <==> p in goal
      ensures p in after ==> after[p] == goal[p]
    {
    }
    assert after == goal;
  }

  /** The bodies of a parsed config. */
  ghost function BodiesIn(tc: TextConfig): ManagedBodies {
    BodiesOf(LinesOf(tc.raw))
  }

  lemma BodyIn(tc: TextConfig, port: int)
    requires IsPortNumber(port)
    ensures BodyLines(LinesOf(tc.raw), InterfaceLabel(port)) == BodiesIn(tc).interfaces[port - 1]
  {
    hide BodyLines, InterfaceLabel, LinesOf;
  }

  /** The VLANs that the declarations, memberships and PVIDs add up to. */
  method AssembleVLANs(ghost facts: DbFacts, explicit: set<int>, listed: seq<VlanMember>, saw: bool,
                       pvids: map<int, int>)
    returns (vlans: map<int, Vlan>, issues: seq<Issue>)
    requires explicit == (set vid | vid in facts.declared) && listed == facts.members && saw == facts.saw
    requires forall port :: 1 <= port <= PORT_COUNT ==> port in pvids
    ensures vlans == DecodedVLANs(facts, pvids)
    ensures issues == Undeclared(DeclaredVLANs(facts), AllMembers(facts))
  {
    hide Realized, InferredVLAN1, InferredAccess, Undeclared, DefaultMembers, Occupied;
    var declared, members := explicit, listed;
    if !saw {
      declared := declared + {DEFAULT_PVID};
      var extra := DefaultMemberList();
      members := members + extra;
    }
    assert declared == DeclaredVLANs(facts) && members == AllMembers(facts);
    vlans := EmptyVLANs(declared);
    assert vlans.Keys == declared;
    vlans, issues := RealizeMembers(vlans, members);
    var vlan1, keep := InferVLAN1(DEFAULT_PVID in declared, pvids, members);
    if keep {
      vlans := vlans[DEFAULT_PVID := vlan1];
    }
    vlans := InferAccessVLANMembershipFromPVID(vlans, pvids);
  }

  /** The interface bodies, port by port, on top of what the database yielded. */
  method DecodeInterfaces(tc: TextConfig, databaseLines: seq<string>)
    returns (pvids: map<int, int>, ports: map<int, PortSettings>, foreign: map<string, seq<string>>,
             portPass: map<string, seq<string>>, issues: seq<Issue>)
    requires tc == Parsed(tc.raw)
    requires databaseLines == DbBody(BodiesIn(tc).database).foreign
    ensures var b := BodiesIn(tc);
            && pvids == DecodedPVIDs(b) && ports == DecodedSettings(b) && issues == PortIssues(b, PORT_COUNT)
            && (forall name :: LinesIn(foreign, name) == ForeignOf(b, name))
            && (forall name :: LinesIn(portPass, name) == PassOf(b, name))
  {
    hide DbBody, IfaceBody, BodyOf, Parsed, InterfaceLabel, LinesOf, ForeignOf, PassOf, LinesIn, PortFacts,
      InterfaceBodies, BodiesIn, BodiesOf;
    ghost var b := BodiesIn(tc);
    pvids, ports, issues := map[], map[], [];
    foreign, portPass := map[VLAN_DATABASE := databaseLines], map[];
    assert ReadUpTo(b, foreign, portPass, 1) by { StartReading(b, databaseLines); }
    for port := 1 to PORT_COUNT + 1
      invariant issues == PortIssues(b, port - 1)
      invariant PortsUpTo(b, pvids, ports, port)
      invariant ReadUpTo(b, foreign, portPass, port)
    {
      hide ReadUpTo, DecodedPVIDs, DecodedSettings, PortIssues, PortsUpTo;
      var name := InterfaceLabel(port);
      var body := SectionBody(tc, name);
      BodyIn(tc, port);
      PortDecoded(b, port);
      var pvid, settings, kept, pass, portIssues := DecodeInterface(name, if body.Some? then body.value else []);
      ReadStep(b, foreign, portPass, port, kept, pass);
      PortsStep(b, pvids, ports, port, pvid, settings);
      pvids := pvids[port := pvid];
      ports := ports[port := settings];
      foreign := foreign[name := kept];
      portPass := portPass[name := pass];
      issues := issues + portIssues;
    }
    AllPorts(b, pvids, ports);
    ReadAll(b, foreign, portPass);
  }

  lemma PortDecoded(b: ManagedBodies, port: int)
    requires IsPortNumber(port)
    ensures var facts := IfaceBody(InterfaceLabel(port), b.interfaces[port - 1]);
            && facts == PortFacts(b, port)
            && DecodedPVIDs(b)[port] == GetOr(facts.pvid, DEFAULT_PVID)
            && DecodedSettings(b)[port]
               == DEFAULT_SETTINGS.(enabled := !facts.shut, flowControl := GetOr(facts.flow, false))
            && PortIssues(b, port) == PortIssues(b, port - 1) + facts.issues
  {
    hide IfaceBody, InterfaceLabel;
  }

  lemma StartReading(b: ManagedBodies, databaseLines: seq<string>)
    requires databaseLines == DbBody(b.database).foreign
    ensures ReadUpTo(b, map[VLAN_DATABASE := databaseLines], map[], 1)
  {
  }

  /** Decodes VLAN state and port settings in one pass; it always completes. */
  method DecodeTextConfig(tc: TextConfig) returns (dec: Decoded)
    requires tc == Parsed(tc.raw)
    ensures IsDecoded(dec, BodiesIn(tc))
  {
    hide DbBody, BodyOf, LabelLine, SectionAt, Parsed, LinesOf, DecodedVLANs, Undeclared, PortIssues, DecodedPVIDs,
      DecodedSettings, LinesIn, ForeignOf, PassOf, InterfaceBodies;
    var found := FindSection(tc, VLAN_DATABASE);
    var missing: seq<Issue> := if found.None? then [MissingSection(VLAN_DATABASE)] else [];
    var dbBody := SectionBody(tc, VLAN_DATABASE);
    var lines, declared, members, saw, dbIssues := DecodeDatabase(if dbBody.Some? then dbBody.value else []);
    var pvids, ports, foreign, portPass, portIssues := DecodeInterfaces(tc, lines);
    EveryPortHasPVID(BodiesIn(tc));
    var vlans, memberIssues := AssembleVLANs(DbBody(BodiesIn(tc).database), declared, members, saw, pvids);
    dec := Decoded(VLANState(PORT_COUNT, vlans, pvids), ports, foreign, portPass,
                   missing + dbIssues + portIssues + memberIssues);
  }

  lemma EveryPortHasPVID(b: ManagedBodies)
    ensures forall port :: 1 <= port <= PORT_COUNT ==> port in DecodedPVIDs(b)
  {
  }

  method DefaultMemberList() returns (members: seq<VlanMember>)
    ensures members == DefaultMembers(PORT_COUNT)
  {
    members := [];
    for port := 1 to PORT_COUNT + 1
      invariant members == DefaultMembers(port - 1)
    {
      members := members + [VlanMember(DEFAULT_PVID, port, Untagged)];
    }
  }

  /** The PVID and settings maps hold the first ports' values, and no others. */
  ghost predicate PortsUpTo(b: ManagedBodies, pvids: map<int, int>, ports: map<int, PortSettings>, port: nat)
    requires 1 <= port <= PORT_COUNT + 1
  {
    && (forall p :: p in pvids <==> 1 <= p < port)
    && (forall p :: p in ports <==> 1 <= p < port)
    && (forall p :: 1 <= p < port ==> pvids[p] == DecodedPVIDs(b)[p] && ports[p] == DecodedSettings(b)[p])
  }

  lemma PortsStep(b: ManagedBodies, pvids: map<int, int>, ports: map<int, PortSettings>, port: nat,
                  pvid: int, settings: PortSettings)
    requires IsPortNumber(port) && PortsUpTo(b, pvids, ports, port)
    requires pvid == DecodedPVIDs(b)[port] && settings == DecodedSettings(b)[port]
    ensures PortsUpTo(b, pvids[port := pvid], ports[port := settings], port + 1)
  {
    hide PortFacts;
  }

  lemma AllPorts(b: ManagedBodies, pvids: map<int, int>, ports: map<int, PortSettings>)
    requires PortsUpTo(b, pvids, ports, PORT_COUNT + 1)
    ensures pvids == DecodedPVIDs(b) && ports == DecodedSettings(b)
  {
    hide PortFacts;
    forall p
      ensures p in pvids <==> p in DecodedPVIDs(b)
      ensures p in ports <==> p in DecodedSettings(b)
    {
    }
    assert pvids == DecodedPVIDs(b);
    assert ports == DecodedSettings(b);
  }

  /** The line maps hold the database's and the first ports' lines, and no others. */
  ghost predicate ReadUpTo(b: ManagedBodies, foreign: map<string, seq<string>>,
                           portPass: map<string, seq<string>>, port: nat)
    requires 1 <= port <= PORT_COUNT + 1
  {
    && LinesIn(foreign, VLAN_DATABASE) == DbBody(b.database).foreign
    && (forall p :: 1 <= p < port ==>
          LinesIn(foreign, InterfaceLabel(p)) == PortFacts(b, p).foreign
          && LinesIn(portPass, InterfaceLabel(p)) == PortFacts(b, p).pass)
    && (forall name :: name in foreign ==>
          name == VLAN_DATABASE || exists p :: 1 <= p < port && name == InterfaceLabel(p))
    && (forall name :: name in portPass ==> exists p :: 1 <= p < port && name == InterfaceLabel(p))
  }

  lemma ReadStep(b: ManagedBodies, foreign: map<string, seq<string>>, portPass: map<string, seq<string>>, port: nat,
                 kept: seq<string>, pass: seq<string>)
    requires IsPortNumber(port) && ReadUpTo(b, foreign, portPass, port)
    requires kept == PortFacts(b, port).foreign && pass == PortFacts(b, port).pass
    ensures ReadUpTo(b, foreign[InterfaceLabel(port) := kept], portPass[InterfaceLabel(port) := pass], port + 1)
  {
    hide InterfaceLabel, PortFacts;
    var foreign', portPass' := foreign[InterfaceLabel(port) := kept], portPass[InterfaceLabel(port) := pass];
    forall p | 1 <= p < port + 1
      ensures LinesIn(foreign', InterfaceLabel(p)) == PortFacts(b, p).foreign
      ensures LinesIn(portPass', InterfaceLabel(p)) == PortFacts(b, p).pass
    {
      InterfaceLabelsDiffer(p, port);
    }
    InterfaceLabelsDiffer(port, port);
    assert forall name :: name in foreign' ==> name in foreign || name == InterfaceLabel(port);
    assert forall name :: name in portPass' ==> name in portPass || name == InterfaceLabel(port);
  }

  lemma ReadAll(b: ManagedBodies, foreign: map<string, seq<string>>, portPass: map<string, seq<string>>)
    requires ReadUpTo(b, foreign, portPass, PORT_COUNT + 1)
    ensures forall name :: LinesIn(foreign, name) == ForeignOf(b, name)
    ensures forall name :: LinesIn(portPass, name) == PassOf(b, name)
  {
    hide InterfaceLabel, PortFacts, PortOf;
    forall name
      ensures LinesIn(foreign, name) == ForeignOf(b, name) && LinesIn(portPass, name) == PassOf(b, name)
    {
      if name in foreign || name in portPass {
        if name != VLAN_DATABASE || name in portPass {
          var p :| 1 <= p < PORT_COUNT + 1 && name == InterfaceLabel(p);
          PortOfLabel(p, PORT_COUNT);
          InterfaceLabelsDiffer(p, p);
        }
      }
      DatabaseIsNoPort(PORT_COUNT);
    }
  }

  lemma {:induction false} DatabaseIsNoPort(n: nat)
    requires n <= PORT_COUNT
    ensures PortOf(VLAN_DATABASE, n) == None
  {
    hide InterfaceLabel;
    if n > 0 {
      InterfaceLabelsDiffer(n, n);
      DatabaseIsNoPort(n - 1);
    }
  }
}
