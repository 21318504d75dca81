/**
 What a plan does to a live switch, one wire write at a time: every state on the
 way is safe, every write is one the switch accepts, kept memberships never lapse,
 and the last state is the desired one, also when the plan is cut short and remade.
 */
module Transition {
  import opened VlanState
  import opened VlanPlan

  // ---------------------------------------------------------------------
  // The switch
  // ---------------------------------------------------------------------

  /** The web forms and the NSDP writes carry out the plan's ops differently. */
  datatype Channel = Http | Nsdp

  /** The smallest writes: one VLAN, one membership row, one port's PVID, one deletion. */
  datatype WireStep =
    | Create(vid: int)
    | Write(vid: int, row: map<int, PortMembership>)
    | Move(port: int, vid: int)
    | Drop(vid: int)

  /** Adding is a form of its own over HTTP; the NSDP membership write creates. */
  function StepsOfOp(ch: Channel, op: VLANOp): seq<WireStep> {
    match op
    case AddVLAN(vid) => if ch.Http? then [Create(vid)] else []
    case SetMembership(vid, row) => [Write(vid, row)]
    case SetPVIDs(vid, ports) => seq(|ports|, k requires 0 <= k < |ports| => Move(ports[k], vid))
    case DeleteVLANs(vids) => seq(|vids|, k requires 0 <= k < |vids| => Drop(vids[k]))
  }

  function Steps(ch: Channel, ops: seq<VLANOp>): seq<WireStep> {
    if ops == [] then [] else StepsOfOp(ch, ops[0]) + Steps(ch, ops[1..])
  }

  /** Both channels encode anything but tagged and untagged as ignored. */
  function OnWire(m: PortMembership): PortMembership {
    if m.Untagged? || m.Tagged? then m else Ignored
  }

  function WireRow(row: map<int, PortMembership>, portCount: int): map<int, PortMembership> {
    map port | 1 <= port <= portCount :: OnWire(Member(row, port))
  }

  function Apply(step: WireStep, s: VLANState): VLANState {
    match step
    case Create(vid) =>
      if vid in s.vlans then s else s.(vlans := s.vlans[vid := Vlan(vid, AllIgnored(s.portCount))])
    case Write(vid, row) => s.(vlans := s.vlans[vid := Vlan(vid, WireRow(row, s.portCount))])
    case Move(port, vid) => s.(pvids := s.pvids[port := vid])
    case Drop(vid) => s.(vlans := s.vlans - {vid})
  }

  /** A write that no firmware has a reason to refuse. */
  predicate Accepts(ch: Channel, step: WireStep, s: VLANState) {
    match step
    case Create(vid) => vid !in s.vlans
    case Write(vid, _) => ch.Nsdp? || vid in s.vlans
    case Move(port, vid) => IsPort(port, s.portCount) && vid in s.vlans && MembershipIn(s, vid, port) != Ignored
    case Drop(vid) => forall port :: port in s.pvids ==> s.pvids[port] != vid
  }

  function Run(steps: seq<WireStep>, s: VLANState): VLANState {
    if steps == [] then s else Run(steps[1..], Apply(steps[0], s))
  }

  /** Every state of the run is good and every step of it is accepted. */
  ghost predicate Holds(ch: Channel, steps: seq<WireStep>, s: VLANState, good: VLANState -> bool) {
    good(s) && (steps != [] ==> Accepts(ch, steps[0], s) && Holds(ch, steps[1..], Apply(steps[0], s), good))
  }

  lemma Associative<T>(a: seq<T>, b: seq<T>, c: seq<T>)
    ensures a + (b + c) == a + b + c
  {
  }

  lemma {:induction false} StepsAppend(ch: Channel, a: seq<VLANOp>, b: seq<VLANOp>)
    ensures Steps(ch, a + b) == Steps(ch, a) + Steps(ch, b)
  {
    hide StepsOfOp;
    if a == [] {
      assert a + b == b;
    } else {
      StepsAppend(ch, a[1..], b);
      assert (a + b)[0] == a[0] && (a + b)[1..] == a[1..] + b;
      Associative(StepsOfOp(ch, a[0]), Steps(ch, a[1..]), Steps(ch, b));
    }
  }

  lemma {:induction false} RunAppend(a: seq<WireStep>, b: seq<WireStep>, s: VLANState)
    ensures Run(a + b, s) == Run(b, Run(a, s))
  {
    if a == [] {
      assert a + b == b;
    } else {
      RunAppend(a[1..], b, Apply(a[0], s));
      assert (a + b)[1..] == a[1..] + b;
    }
  }

  lemma {:induction false} HoldsAppend(ch: Channel, a: seq<WireStep>, b: seq<WireStep>, s: VLANState,
                                       good: VLANState -> bool)
    requires Holds(ch, a, s, good) && Holds(ch, b, Run(a, s), good)
    ensures Holds(ch, a + b, s, good)
  {
    if a == [] {
      assert a + b == b;
    } else {
      HoldsAppend(ch, a[1..], b, Apply(a[0], s), good);
      assert (a + b)[1..] == a[1..] + b;
    }
  }

  lemma {:induction false} HoldsAtPrefix(ch: Channel, steps: seq<WireStep>, s: VLANState,
                                         good: VLANState -> bool, k: nat)
    requires Holds(ch, steps, s, good) && k <= |steps|
    ensures good(Run(steps[..k], s))
    ensures k < |steps| ==> Accepts(ch, steps[k], Run(steps[..k], s))
  {
    if k > 0 {
      HoldsAtPrefix(ch, steps[1..], Apply(steps[0], s), good, k - 1);
      assert steps[..k][1..] == steps[1..][..k - 1];
    }
  }

  /** An invariant that every step keeps holds all along the run. */
  lemma {:induction false} InvariantRun(ch: Channel, steps: seq<WireStep>, s: VLANState, inv: VLANState -> bool,
                                        good: VLANState -> bool)
    requires inv(s)
    requires forall t :: inv(t) ==> good(t)
    requires forall t, k {:trigger inv(t), steps[k]} :: 0 <= k < |steps| && inv(t) ==>
               Accepts(ch, steps[k], t) && inv(Apply(steps[k], t))
    ensures Holds(ch, steps, s, good) && inv(Run(steps, s))
  {
    if steps != [] {
      assert steps[0] == steps[0];
      forall t, k | 0 <= k < |steps[1..]| && inv(t)
        ensures Accepts(ch, steps[1..][k], t) && inv(Apply(steps[1..][k], t))
      {
        assert steps[1..][k] == steps[k + 1];
      }
      InvariantRun(ch, steps[1..], Apply(steps[0], s), inv, good);
    }
  }

  // ---------------------------------------------------------------------
  // Good states
  // ---------------------------------------------------------------------

  /** Every port's PVID names a VLAN that carries the port. */
  ghost predicate Safe(s: VLANState) {
    forall port :: IsPort(port, s.portCount) ==> CarriesPVID(s, port)
  }

  /** A row that covers exactly the ports with the three wire memberships. */
  ghost predicate IsWireRow(row: map<int, PortMembership>, portCount: int) {
    && (forall port :: port in row <==> IsPort(port, portCount))
    && (forall port :: port in row ==> !row[port].Unknown?)
  }

  /** What a read of a live switch yields: every port has a PVID, every VLAN a row over exactly the ports. */
  ghost predicate Covers(s: VLANState) {
    && s.portCount > 0
    && (forall port :: port in s.pvids <==> IsPort(port, s.portCount))
    && (forall vid :: vid in s.vlans ==> s.vlans[vid].id == vid && IsWireRow(s.vlans[vid].ports, s.portCount))
  }

  lemma CoveringIsNormalized(s: VLANState)
    requires Covers(s)
    ensures Normalized(s) == s
  {
    forall vid | vid in s.vlans
      ensures Normalized(s).vlans[vid] == s.vlans[vid]
    {
      RowIsNormalized(s.vlans[vid].ports, s.portCount);
    }
    forall vid
      ensures vid in Normalized(s).vlans <==> vid in s.vlans
    {
    }
    assert Normalized(s).vlans == s.vlans;
  }

  lemma RowIsNormalized(row: map<int, PortMembership>, portCount: int)
    requires IsWireRow(row, portCount)
    ensures NormalizedPorts(row, portCount) == row && WireRow(row, portCount) == row
  {
    forall port
      ensures port in NormalizedPorts(row, portCount) <==> port in row
      ensures port in WireRow(row, portCount) <==> port in row
    {
      assert port in row <==> IsPort(port, portCount);
    }
    assert NormalizedPorts(row, portCount) == row;
    assert WireRow(row, portCount) == row;
  }

  lemma ValidIsSafe(s: VLANState)
    requires ValidState(s) && s == Normalized(s)
    ensures Covers(s) && Safe(s)
  {
    ValidPVIDs(s);
    forall port
      ensures port in s.pvids <==> IsPort(port, s.portCount)
    {
      assert port in s.pvids.Keys <==> port in Ports(s.portCount);
    }
    forall vid | vid in s.vlans
      ensures s.vlans[vid].id == vid && IsWireRow(s.vlans[vid].ports, s.portCount)
    {
      assert s.vlans[vid] == Vlan(vid, NormalizedPorts(s.vlans[vid].ports, s.portCount));
    }
  }

  lemma MergedIsWireRow(left: map<int, PortMembership>, right: map<int, PortMembership>, portCount: int)
    requires IsWireRow(left, portCount) && IsWireRow(right, portCount)
    ensures IsWireRow(Merged(left, right, portCount), portCount)
    ensures forall port :: IsPort(port, portCount) ==>
              Merged(left, right, portCount)[port] == MinMembership(left[port], right[port])
  {
    forall port
      ensures port in Merged(left, right, portCount) <==> IsPort(port, portCount)
    {
    }
  }

  lemma IgnoredIsWireRow(portCount: int)
    ensures IsWireRow(AllIgnored(portCount), portCount)
    ensures forall port :: IsPort(port, portCount) ==> AllIgnored(portCount)[port] == Ignored
  {
    forall port
      ensures port in AllIgnored(portCount) <==> IsPort(port, portCount)
    {
    }
  }

  // ---------------------------------------------------------------------
  // The invariants of the phases
  // ---------------------------------------------------------------------

  /** The current and the desired state of one apply; nothing is asked of the current PVIDs. */
  ghost predicate Task(current: VLANState, desired: VLANState) {
    Covers(current) && Covers(desired) && Safe(desired) && current.portCount == desired.portCount
  }

  ghost function WidenedRow(current: VLANState, desired: VLANState, vid: int): map<int, PortMembership>
    requires vid in current.vlans && vid in desired.vlans
  {
    Merged(current.vlans[vid].ports, desired.vlans[vid].ports, desired.portCount)
  }

  /** Rows a VLAN can have while memberships are widened (before the PVIDs move). */
  ghost predicate WideningRow(current: VLANState, desired: VLANState, vid: int, vlan: Vlan) {
    && vlan.id == vid
    && if vid in current.vlans && vid in desired.vlans then
         vlan.ports == current.vlans[vid].ports || vlan.ports == WidenedRow(current, desired, vid)
       else if vid in current.vlans then vlan.ports == current.vlans[vid].ports
       else vid in desired.vlans
            && (vlan.ports == AllIgnored(desired.portCount) || vlan.ports == desired.vlans[vid].ports)
  }

  /** Rows a VLAN can have once the PVIDs have moved. */
  ghost predicate NarrowingRow(current: VLANState, desired: VLANState, vid: int, vlan: Vlan) {
    && vlan.id == vid
    && if vid in current.vlans && vid in desired.vlans then
         vlan.ports == WidenedRow(current, desired, vid) || vlan.ports == desired.vlans[vid].ports
       else if vid in current.vlans then
         vlan.ports == current.vlans[vid].ports || vlan.ports == AllIgnored(desired.portCount)
       else vid in desired.vlans && vlan.ports == desired.vlans[vid].ports
  }

  /** Phases 1 and 2: the PVIDs are the old ones, and every old VLAN is still there. */
  ghost predicate Widening(current: VLANState, desired: VLANState, created: bool, t: VLANState) {
    && t.portCount == current.portCount && t.pvids == current.pvids
    && (forall vid :: vid in current.vlans ==> vid in t.vlans)
    && (created ==> forall vid :: vid in desired.vlans ==> vid in t.vlans)
    && (forall vid :: vid in t.vlans ==> WideningRow(current, desired, vid, t.vlans[vid]))
  }

  /** The VLANs between the phases that widen and narrow. */
  ghost predicate Widened(current: VLANState, desired: VLANState, t: VLANState) {
    && t.portCount == current.portCount
    && (forall vid :: vid in t.vlans <==> vid in current.vlans || vid in desired.vlans)
    && (forall vid :: vid in desired.vlans ==> vid in t.vlans && t.vlans[vid] == Step1(current, desired)[vid])
    && (forall vid :: vid in t.vlans && vid !in desired.vlans ==> t.vlans[vid] == current.vlans[vid])
  }

  /** Phase 3: each port has its old PVID or its new one. */
  ghost predicate Moving(current: VLANState, desired: VLANState, t: VLANState) {
    && Widened(current, desired, t)
    && (forall port :: port in t.pvids <==> IsPort(port, t.portCount))
    && (forall port :: port in t.pvids ==>
          || (port in current.pvids && t.pvids[port] == current.pvids[port])
          || (port in desired.pvids && t.pvids[port] == desired.pvids[port]))
  }

  /** Phases 4 and 5: the PVIDs are the new ones, and every new VLAN is there. */
  ghost predicate Narrowing(current: VLANState, desired: VLANState, t: VLANState) {
    && t.portCount == current.portCount && t.pvids == desired.pvids
    && (forall vid :: vid in desired.vlans ==> vid in t.vlans)
    && (forall vid :: vid in t.vlans ==> NarrowingRow(current, desired, vid, t.vlans[vid]))
  }

  // ---------------------------------------------------------------------
  // What holds in every state of the run
  // ---------------------------------------------------------------------

  /** A membership that is in both states never lapses in between. */
  ghost predicate Kept(current: VLANState, desired: VLANState, t: VLANState) {
    forall vid, port ::
      && MembershipIn(current, vid, port) != Ignored && MembershipIn(desired, vid, port) != Ignored
      && vid in current.vlans && vid in desired.vlans && IsPort(port, current.portCount)
      ==> vid in t.vlans && MembershipIn(t, vid, port) != Ignored
  }

  /** A port whose PVID is carried at the start has its PVID carried now. */
  ghost predicate StillCarried(current: VLANState, t: VLANState) {
    forall port :: IsPort(port, current.portCount) && CarriesPVID(current, port) ==> CarriesPVID(t, port)
  }

  /** A state to plan from again, in which no safe port and no kept membership has lapsed. */
  ghost predicate Good(current: VLANState, desired: VLANState, t: VLANState) {
    Covers(t) && t.portCount == desired.portCount && StillCarried(current, t) && Kept(current, desired, t)
  }

  /** A good state in which every port is safe. */
  ghost predicate GoodAndSafe(current: VLANState, desired: VLANState, t: VLANState) {
    Good(current, desired, t) && Safe(t)
  }

  lemma WideningRowIsWireRow(current: VLANState, desired: VLANState, vid: int, vlan: Vlan)
    requires Task(current, desired)
             && (WideningRow(current, desired, vid, vlan) || NarrowingRow(current, desired, vid, vlan))
    ensures IsWireRow(vlan.ports, current.portCount)
  {
    IgnoredIsWireRow(current.portCount);
    hide AllIgnored, Merged, CarriesPVID;
    if vid in current.vlans && vid in desired.vlans {
      MergedIsWireRow(current.vlans[vid].ports, desired.vlans[vid].ports, current.portCount);
    }
  }

  lemma WidenedMember(current: VLANState, desired: VLANState, vid: int, port: int)
    requires Task(current, desired) && vid in current.vlans && vid in desired.vlans && IsPort(port, current.portCount)
    ensures Member(WidenedRow(current, desired, vid), port)
         == MinMembership(MembershipIn(current, vid, port), MembershipIn(desired, vid, port))
  {
    MergedIsWireRow(current.vlans[vid].ports, desired.vlans[vid].ports, current.portCount);
    hide Merged;
  }

  /** In the widening phases a port is a member wherever it was one. */
  lemma WideningMember(current: VLANState, desired: VLANState, vid: int, vlan: Vlan, port: int)
    requires Task(current, desired) && WideningRow(current, desired, vid, vlan) && IsPort(port, current.portCount)
    requires vid in current.vlans && MembershipIn(current, vid, port) != Ignored
    ensures Member(vlan.ports, port) != Ignored
  {
    hide Merged, AllIgnored, CarriesPVID, MinMembership;
    if vid in desired.vlans {
      WidenedMember(current, desired, vid, port);
      MinKeepsMembers(MembershipIn(current, vid, port), MembershipIn(desired, vid, port));
    }
  }

  /** In the narrowing phases a port is a member wherever it will be one. */
  lemma NarrowingMember(current: VLANState, desired: VLANState, vid: int, vlan: Vlan, port: int)
    requires Task(current, desired) && NarrowingRow(current, desired, vid, vlan) && IsPort(port, current.portCount)
    requires vid in desired.vlans && MembershipIn(desired, vid, port) != Ignored
    ensures Member(vlan.ports, port) != Ignored
  {
    hide Merged, AllIgnored, CarriesPVID, MinMembership;
    if vid in current.vlans {
      WidenedMember(current, desired, vid, port);
      MinKeepsMembers(MembershipIn(current, vid, port), MembershipIn(desired, vid, port));
    }
  }

  lemma WideningIsGood(current: VLANState, desired: VLANState, created: bool, t: VLANState)
    requires Task(current, desired) && Widening(current, desired, created, t)
    ensures Good(current, desired, t)
  {
    hide IsWireRow, WideningRow;
    forall vid | vid in t.vlans
      ensures t.vlans[vid].id == vid && IsWireRow(t.vlans[vid].ports, t.portCount)
    {
      WideningRowIsWireRow(current, desired, vid, t.vlans[vid]);
      RowID(current, desired, vid, t.vlans[vid]);
    }
    forall port | IsPort(port, t.portCount) && CarriesPVID(current, port)
      ensures CarriesPVID(t, port)
    {
      WideningMember(current, desired, t.pvids[port], t.vlans[t.pvids[port]], port);
    }
    forall vid, port | MembershipIn(current, vid, port) != Ignored && MembershipIn(desired, vid, port) != Ignored
                       && vid in current.vlans && vid in desired.vlans && IsPort(port, current.portCount)
      ensures vid in t.vlans && MembershipIn(t, vid, port) != Ignored
    {
      WideningMember(current, desired, vid, t.vlans[vid], port);
    }
  }

  lemma RowID(current: VLANState, desired: VLANState, vid: int, vlan: Vlan)
    requires WideningRow(current, desired, vid, vlan) || NarrowingRow(current, desired, vid, vlan)
    ensures vlan.id == vid
  {
  }

  lemma NarrowingIsGood(current: VLANState, desired: VLANState, t: VLANState)
    requires Task(current, desired) && Narrowing(current, desired, t)
    ensures GoodAndSafe(current, desired, t)
  {
    hide IsWireRow, NarrowingRow;
    forall vid | vid in t.vlans
      ensures t.vlans[vid].id == vid && IsWireRow(t.vlans[vid].ports, t.portCount)
    {
      WideningRowIsWireRow(current, desired, vid, t.vlans[vid]);
      RowID(current, desired, vid, t.vlans[vid]);
    }
    forall port | IsPort(port, t.portCount)
      ensures CarriesPVID(t, port)
    {
      assert CarriesPVID(desired, port);
      NarrowingMember(current, desired, t.pvids[port], t.vlans[t.pvids[port]], port);
    }
    forall vid, port | MembershipIn(current, vid, port) != Ignored && MembershipIn(desired, vid, port) != Ignored
                       && vid in current.vlans && vid in desired.vlans && IsPort(port, current.portCount)
      ensures vid in t.vlans && MembershipIn(t, vid, port) != Ignored
    {
      NarrowingMember(current, desired, vid, t.vlans[vid], port);
    }
  }

  /** Between the phases the rows are rows of both. */
  lemma WidenedRows(current: VLANState, desired: VLANState, t: VLANState, vid: int)
    requires Task(current, desired) && Widened(current, desired, t) && vid in t.vlans
    ensures WideningRow(current, desired, vid, t.vlans[vid]) && NarrowingRow(current, desired, vid, t.vlans[vid])
  {
    hide IsWireRow, Merged, AllIgnored, CarriesPVID;
  }

  lemma MovingIsGood(current: VLANState, desired: VLANState, t: VLANState)
    requires Task(current, desired) && Moving(current, desired, t)
    ensures Good(current, desired, t)
  {
    hide IsWireRow, WideningRow, NarrowingRow, Merged;
    forall vid | vid in t.vlans
      ensures t.vlans[vid].id == vid && IsWireRow(t.vlans[vid].ports, t.portCount)
    {
      WidenedRows(current, desired, t, vid);
      WideningRowIsWireRow(current, desired, vid, t.vlans[vid]);
      RowID(current, desired, vid, t.vlans[vid]);
    }
    forall port | IsPort(port, t.portCount) && CarriesPVID(current, port)
      ensures CarriesPVID(t, port)
    {
      assert CarriesPVID(desired, port);
      var vid := t.pvids[port];
      WidenedRows(current, desired, t, vid);
      if vid == current.pvids[port] {
        WideningMember(current, desired, vid, t.vlans[vid], port);
      } else {
        NarrowingMember(current, desired, vid, t.vlans[vid], port);
      }
    }
    forall vid, port | MembershipIn(current, vid, port) != Ignored && MembershipIn(desired, vid, port) != Ignored
                       && vid in current.vlans && vid in desired.vlans && IsPort(port, current.portCount)
      ensures vid in t.vlans && MembershipIn(t, vid, port) != Ignored
    {
      WidenedRows(current, desired, t, vid);
      WideningMember(current, desired, vid, t.vlans[vid], port);
    }
  }

  // ---------------------------------------------------------------------
  // The wire steps of the phases
  // ---------------------------------------------------------------------

  lemma {:induction false} StepsOfAdds(ch: Channel, vids: seq<int>)
    ensures Steps(ch, AddOps(vids))
              == if ch.Http? then seq(|vids|, k requires 0 <= k < |vids| => Create(vids[k])) else []
  {
    if vids != [] {
      assert AddOps(vids)[1..] == AddOps(vids[1..]);
      StepsOfAdds(ch, vids[1..]);
    }
  }

  lemma {:induction false} StepsOfWrites(ch: Channel, vids: seq<int>, step: map<int, Vlan>)
    requires forall k :: 0 <= k < |vids| ==> vids[k] in step
    ensures Steps(ch, WriteOps(vids, step))
         == seq(|vids|, k requires 0 <= k < |vids| => Write(vids[k], step[vids[k]].ports))
  {
    if vids != [] {
      assert forall k :: 0 <= k < |vids[1..]| ==> vids[1..][k] == vids[k + 1];
      assert WriteOps(vids, step)[1..] == WriteOps(vids[1..], step);
      StepsOfWrites(ch, vids[1..], step);
    }
  }

  /** The PVID writes are one per port, each to the PVID its batch is for. */
  lemma {:induction false} StepsOfMoves(ch: Channel, vids: seq<int>, batches: map<int, seq<int>>)
    requires forall k :: 0 <= k < |vids| ==> vids[k] in batches
    ensures forall k :: 0 <= k < |Steps(ch, MoveOps(vids, batches))| ==>
              var step := Steps(ch, MoveOps(vids, batches))[k];
              step.Move? && step.vid in vids && step.vid in batches && step.port in batches[step.vid]
    ensures forall vid, port :: vid in vids && vid in batches && port in batches[vid] ==>
              Move(port, vid) in Steps(ch, MoveOps(vids, batches))
  {
    if vids != [] {
      assert forall k :: 0 <= k < |vids[1..]| ==> vids[1..][k] == vids[k + 1];
      assert MoveOps(vids, batches)[1..] == MoveOps(vids[1..], batches);
      StepsOfMoves(ch, vids[1..], batches);
      var first, rest := batches[vids[0]], Steps(ch, MoveOps(vids[1..], batches));
      var here := StepsOfOp(ch, SetPVIDs(vids[0], first));
      assert Steps(ch, MoveOps(vids, batches)) == here + rest;
      forall vid, port | vid in vids && vid in batches && port in batches[vid]
        ensures Move(port, vid) in here + rest
      {
        if vid == vids[0] {
          var k :| 0 <= k < |first| && first[k] == port;
          assert here[k] == Move(port, vid);
        } else {
          assert vid in vids[1..];
        }
      }
    }
  }

  // ---------------------------------------------------------------------
  // What the phases come to
  // ---------------------------------------------------------------------

  ghost predicate IsWrites(steps: seq<WireStep>, vids: seq<int>, step: map<int, Vlan>) {
    |steps| == |vids| &&
    forall k :: 0 <= k < |steps| ==>
      vids[k] in step && steps[k] == Write(vids[k], step[vids[k]].ports)
  }

  /** A list of writes sets the rows it lists and nothing else. */
  lemma {:induction false} RunWrites(steps: seq<WireStep>, vids: seq<int>, step: map<int, Vlan>, s: VLANState)
    requires IsWrites(steps, vids, step)
    requires forall vid :: vid in step ==> step[vid].id == vid && IsWireRow(step[vid].ports, s.portCount)
    ensures var t := Run(steps, s);
            && t.portCount == s.portCount && t.pvids == s.pvids
            && (forall vid :: vid in t.vlans <==> vid in s.vlans || vid in vids)
            && (forall vid :: vid in t.vlans ==>
                  t.vlans[vid] == if vid in vids && vid in step then step[vid] else s.vlans[vid])
  {
    hide IsWireRow, WireRow;
    if steps != [] {
      var vid := vids[0];
      RowIsNormalized(step[vid].ports, s.portCount);
      assert steps[0] == Write(vid, step[vid].ports);
      var next := Apply(steps[0], s);
      assert next.vlans == s.vlans[vid := step[vid]];
      assert IsWrites(steps[1..], vids[1..], step);
      RunWrites(steps[1..], vids[1..], step, next);
      assert vids == [vid] + vids[1..];
    }
  }

  /** A list of PVID writes that agree with a goal leaves every written port at its goal. */
  lemma {:induction false} RunMoves(steps: seq<WireStep>, goal: map<int, int>, s: VLANState)
    requires IsMoves(steps, goal)
    ensures var t := Run(steps, s);
            && t.portCount == s.portCount && t.vlans == s.vlans
            && (forall port :: port in s.pvids ==> port in t.pvids)
            && (forall port :: port in goal && Move(port, goal[port]) in steps ==>
                  port in t.pvids && t.pvids[port] == goal[port])
            && (forall port :: port in t.pvids ==>
                  (port in goal && t.pvids[port] == goal[port]) || (port in s.pvids && t.pvids[port] == s.pvids[port]))
  {
    if steps != [] {
      var next := Apply(steps[0], s);
      assert steps[0] == steps[0];
      assert forall k :: 0 <= k < |steps[1..]| ==> steps[1..][k] == steps[k + 1];
      RunMoves(steps[1..], goal, next);
      var t := Run(steps[1..], next);
      forall port | port in goal && Move(port, goal[port]) in steps
        ensures port in t.pvids && t.pvids[port] == goal[port]
      {
        if Move(port, goal[port]) !in steps[1..] {
          assert steps[0] == Move(port, goal[port]);
        }
      }
    }
  }

  /** A list of deletions removes the VLANs it lists. */
  lemma {:induction false} RunDrops(vids: seq<int>, s: VLANState)
    ensures var steps := StepsOfOp(Nsdp, DeleteVLANs(vids));
            var t := Run(steps, s);
            && t.portCount == s.portCount && t.pvids == s.pvids
            && (forall vid :: vid in t.vlans <==> vid in s.vlans && vid !in vids)
            && (forall vid :: vid in t.vlans ==> t.vlans[vid] == s.vlans[vid])
  {
    if vids != [] {
      var steps := StepsOfOp(Nsdp, DeleteVLANs(vids));
      assert steps[1..] == StepsOfOp(Nsdp, DeleteVLANs(vids[1..]));
      assert steps[0] == Drop(vids[0]);
      RunDrops(vids[1..], Apply(Drop(vids[0]), s));
      assert vids == [vids[0]] + vids[1..];
    }
  }

  // ---------------------------------------------------------------------
  // Phase by phase
  // ---------------------------------------------------------------------

  lemma {:induction false} CreatePhase(current: VLANState, desired: VLANState, vids: seq<int>, s: VLANState)
    requires Task(current, desired) && Widening(current, desired, false, s)
    requires Ascending(vids)
    requires forall k :: 0 <= k < |vids| ==>
               vids[k] in desired.vlans && vids[k] !in current.vlans && vids[k] !in s.vlans
    ensures var steps := seq(|vids|, k requires 0 <= k < |vids| => Create(vids[k]));
            && Holds(Http, steps, s, t => Good(current, desired, t))
            && Widening(current, desired, false, Run(steps, s))
            && forall vid :: vid in s.vlans || vid in vids ==> vid in Run(steps, s).vlans
  {
    hide Good, IsWireRow, Merged, AllIgnored, CarriesPVID;
    WideningIsGood(current, desired, false, s);
    if vids != [] {
      var steps := seq(|vids|, k requires 0 <= k < |vids| => Create(vids[k]));
      var rest := vids[1..];
      assert steps[1..] == seq(|rest|, k requires 0 <= k < |rest| => Create(rest[k]));
      var next := Apply(steps[0], s);
      assert forall k :: 0 <= k < |rest| ==> rest[k] == vids[k + 1] && rest[k] != vids[0];
      CreatePhase(current, desired, rest, next);
      assert vids == [vids[0]] + rest;
    }
  }

  /** One widening write is accepted and stays within the widening rows. */
  lemma WidenStep(ch: Channel, current: VLANState, desired: VLANState, vid: int, t: VLANState)
    requires Task(current, desired) && Widening(current, desired, ch.Http?, t) && vid in desired.vlans
    ensures var step := Write(vid, Step1(current, desired)[vid].ports);
            Accepts(ch, step, t) && Widening(current, desired, ch.Http?, Apply(step, t))
  {
    hide IsWireRow, Merged, AllIgnored, CarriesPVID, WireRow;
    var row := Step1(current, desired)[vid];
    WideningRowIsWireRow(current, desired, vid, row);
    RowIsNormalized(row.ports, t.portCount);
  }

  lemma WidenResult(current: VLANState, desired: VLANState, created: bool, s: VLANState, vids: seq<int>, t: VLANState)
    requires Task(current, desired) && Widening(current, desired, created, s)
    requires forall vid :: vid in vids <==> vid in desired.vlans
    requires t.portCount == s.portCount && t.pvids == s.pvids
    requires forall vid :: vid in t.vlans <==> vid in s.vlans || vid in vids
    requires forall vid :: vid in t.vlans ==>
               t.vlans[vid]
               == if vid in vids && vid in Step1(current, desired) then Step1(current, desired)[vid] else s.vlans[vid]
    ensures Widened(current, desired, t)
  {
    hide Merged, AllIgnored;
    forall vid | vid in t.vlans && vid !in desired.vlans
      ensures vid in current.vlans && t.vlans[vid] == current.vlans[vid]
    {
      assert WideningRow(current, desired, vid, s.vlans[vid]);
    }
  }

  lemma WidenPhase(ch: Channel, current: VLANState, desired: VLANState, s: VLANState)
    requires Task(current, desired) && Widening(current, desired, ch.Http?, s)
    ensures var steps := Steps(ch, Writes(Step1(current, desired)));
            && Holds(ch, steps, s, t => Good(current, desired, t))
            && Widened(current, desired, Run(steps, s)) && Run(steps, s).pvids == current.pvids
  {
    hide *;
    var step := Step1(current, desired);
    var vids := Sorted(step.Keys);
    WritesAre(ch, step);
    var steps := Steps(ch, Writes(step));
    forall t | Widening(current, desired, ch.Http?, t)
      ensures Good(current, desired, t)
    {
      WideningIsGood(current, desired, ch.Http?, t);
    }
    Step1Facts(current, desired);
    forall t, k | 0 <= k < |steps| && Widening(current, desired, ch.Http?, t)
      ensures Accepts(ch, steps[k], t) && Widening(current, desired, ch.Http?, Apply(steps[k], t))
    {
      WritesAt(steps, vids, step, k);
      WidenStep(ch, current, desired, vids[k], t);
    }
    InvariantRun(ch, steps, s, t => Widening(current, desired, ch.Http?, t), t => Good(current, desired, t));
    WideningFacts(current, desired, ch.Http?, s);
    RunWrites(steps, vids, step, s);
    WidenResult(current, desired, ch.Http?, s, vids, Run(steps, s));
  }

  lemma WritesAre(ch: Channel, step: map<int, Vlan>)
    ensures IsWrites(Steps(ch, Writes(step)), Sorted(step.Keys), step)
    ensures forall vid :: vid in Sorted(step.Keys) <==> vid in step
  {
    hide Sorted;
    SortedIn(step.Keys);
    StepsOfWrites(ch, Sorted(step.Keys), step);
  }

  lemma WritesAt(steps: seq<WireStep>, vids: seq<int>, step: map<int, Vlan>, k: nat)
    requires IsWrites(steps, vids, step) && k < |steps|
    ensures |vids| == |steps| && vids[k] in step && steps[k] == Write(vids[k], step[vids[k]].ports)
  {
  }

  lemma Step1Facts(current: VLANState, desired: VLANState)
    requires Task(current, desired)
    ensures forall vid :: vid in Step1(current, desired) <==> vid in desired.vlans
    ensures forall vid :: vid in Step1(current, desired) ==>
              Step1(current, desired)[vid].id == vid && IsWireRow(Step1(current, desired)[vid].ports, current.portCount)
  {
    hide IsWireRow, Merged, CarriesPVID;
    forall vid | vid in Step1(current, desired)
      ensures IsWireRow(Step1(current, desired)[vid].ports, current.portCount)
    {
      WideningRowIsWireRow(current, desired, vid, Step1(current, desired)[vid]);
    }
  }

  lemma WideningFacts(current: VLANState, desired: VLANState, created: bool, s: VLANState)
    requires Widening(current, desired, created, s)
    ensures s.portCount == current.portCount && s.pvids == current.pvids
  {
  }

  // Phase 3

  /** Every step writes some port's PVID as the map has it. */
  ghost predicate IsMoves(steps: seq<WireStep>, pvids: map<int, int>) {
    forall k :: 0 <= k < |steps| ==> steps[k].Move? && steps[k].port in pvids && steps[k].vid == pvids[steps[k].port]
  }

  lemma MoveAt(steps: seq<WireStep>, pvids: map<int, int>, k: nat)
    requires IsMoves(steps, pvids) && k < |steps|
    ensures steps[k].Move? && steps[k].port in pvids && steps[k] == Move(steps[k].port, pvids[steps[k].port])
  {
  }

  lemma MovesAre(ch: Channel, pvids: map<int, int>)
    ensures IsMoves(Steps(ch, Moves(pvids)), pvids)
    ensures forall port :: port in pvids ==> Move(port, pvids[port]) in Steps(ch, Moves(pvids))
  {
    hide Sorted;
    var vids := Sorted(Batches(pvids).Keys);
    SortedIn(Batches(pvids).Keys);
    StepsOfMoves(ch, vids, Batches(pvids));
    var steps := Steps(ch, Moves(pvids));
    forall k | 0 <= k < |steps|
      ensures steps[k].Move? && steps[k].port in pvids && steps[k].vid == pvids[steps[k].port]
    {
      assert steps[k].port in Sorted(PortsOf(pvids, steps[k].vid));
    }
    forall port | port in pvids
      ensures Move(port, pvids[port]) in steps
    {
      assert port in PortsOf(pvids, pvids[port]);
      assert pvids[port] in pvids.Values;
      assert port in Batches(pvids)[pvids[port]];
    }
  }

  /** A PVID write lands on a port that is already a member of its target. */
  lemma MoveStep(ch: Channel, current: VLANState, desired: VLANState, port: int, t: VLANState)
    requires Task(current, desired) && Moving(current, desired, t) && port in desired.pvids
    ensures var step := Move(port, desired.pvids[port]);
            Accepts(ch, step, t) && Moving(current, desired, Apply(step, t))
  {
    hide IsWireRow, Merged, AllIgnored, WideningRow, NarrowingRow;
    assert CarriesPVID(desired, port);
    var vid := desired.pvids[port];
    assert vid in t.vlans;
    WidenedRows(current, desired, t, vid);
    NarrowingMember(current, desired, vid, t.vlans[vid], port);
  }

  lemma MovingPhase(ch: Channel, current: VLANState, desired: VLANState, s: VLANState)
    requires Task(current, desired) && Widened(current, desired, s) && s.pvids == current.pvids
    ensures var steps := Steps(ch, Moves(desired.pvids));
            && Holds(ch, steps, s, t => Good(current, desired, t))
            && Widened(current, desired, Run(steps, s)) && Run(steps, s).pvids == desired.pvids
  {
    var steps := Steps(ch, Moves(desired.pvids));
    StartMoving(current, desired, s);
    hide *;
    MovesAre(ch, desired.pvids);
    forall t | Moving(current, desired, t)
      ensures Good(current, desired, t)
    {
      MovingIsGood(current, desired, t);
    }
    forall t, k | 0 <= k < |steps| && Moving(current, desired, t)
      ensures Accepts(ch, steps[k], t) && Moving(current, desired, Apply(steps[k], t))
    {
      MoveAt(steps, desired.pvids, k);
      MoveStep(ch, current, desired, steps[k].port, t);
    }
    InvariantRun(ch, steps, s, t => Moving(current, desired, t), t => Good(current, desired, t));
    RunMoves(steps, desired.pvids, s);
    Moved(current, desired, s, Run(steps, s));
  }

  lemma StartMoving(current: VLANState, desired: VLANState, s: VLANState)
    requires Task(current, desired) && Widened(current, desired, s) && s.pvids == current.pvids
    ensures Moving(current, desired, s)
  {
    hide IsWireRow, CarriesPVID, Step1;
  }

  lemma Moved(current: VLANState, desired: VLANState, s: VLANState, t: VLANState)
    requires Task(current, desired) && Widened(current, desired, s) && Moving(current, desired, t)
    requires forall port :: port in desired.pvids ==> port in t.pvids && t.pvids[port] == desired.pvids[port]
    ensures t.pvids == desired.pvids && Widened(current, desired, t)
  {
    hide IsWireRow, CarriesPVID, Step1;
    forall port
      ensures port in t.pvids <==> port in desired.pvids
      ensures port in t.pvids ==> t.pvids[port] == desired.pvids[port]
    {
    }
    assert t.pvids == desired.pvids;
  }

  // Phase 4

  lemma Step2Facts(current: VLANState, desired: VLANState)
    requires Task(current, desired)
    ensures forall vid :: vid in Step2(current, desired) <==> vid in current.vlans
    ensures forall vid :: vid in Step2(current, desired) ==>
              Step2(current, desired)[vid].id == vid && IsWireRow(Step2(current, desired)[vid].ports, current.portCount)
  {
    hide IsWireRow, AllIgnored, CarriesPVID;
    IgnoredIsWireRow(current.portCount);
  }

  lemma NarrowStep(ch: Channel, current: VLANState, desired: VLANState, vid: int, t: VLANState)
    requires Task(current, desired) && Narrowing(current, desired, t)
    requires vid in current.vlans && vid in t.vlans
    ensures var step := Write(vid, Step2(current, desired)[vid].ports);
            Accepts(ch, step, t) && Narrowing(current, desired, Apply(step, t))
            && forall v :: v in t.vlans ==> v in Apply(step, t).vlans
  {
    hide IsWireRow, Merged, AllIgnored, CarriesPVID, WireRow;
    Step2Facts(current, desired);
    RowIsNormalized(Step2(current, desired)[vid].ports, t.portCount);
  }

  /** All old VLANs are still there while memberships are narrowed. */
  ghost predicate NarrowingAll(current: VLANState, desired: VLANState, t: VLANState) {
    Narrowing(current, desired, t) && forall vid :: vid in current.vlans ==> vid in t.vlans
  }

  /** The VLANs when only the deletions are left. */
  ghost predicate Narrowed(current: VLANState, desired: VLANState, t: VLANState) {
    && Narrowing(current, desired, t)
    && (forall vid :: vid in t.vlans <==> vid in current.vlans || vid in desired.vlans)
    && (forall vid :: vid in desired.vlans ==> vid in t.vlans && t.vlans[vid] == desired.vlans[vid])
  }

  lemma NarrowPhase(ch: Channel, current: VLANState, desired: VLANState, s: VLANState)
    requires Task(current, desired) && Widened(current, desired, s) && s.pvids == desired.pvids
    ensures var steps := Steps(ch, Writes(Step2(current, desired)));
            && Holds(ch, steps, s, t => GoodAndSafe(current, desired, t))
            && Narrowed(current, desired, Run(steps, s))
  {
    var step := Step2(current, desired);
    StartNarrowing(current, desired, s);
    hide *;
    var vids := Sorted(step.Keys);
    WritesAre(ch, step);
    var steps := Steps(ch, Writes(step));
    forall t | NarrowingAll(current, desired, t)
      ensures GoodAndSafe(current, desired, t)
    {
      NarrowingAllIs(current, desired, t);
      NarrowingIsGood(current, desired, t);
    }
    Step2Facts(current, desired);
    forall t, k | 0 <= k < |steps| && NarrowingAll(current, desired, t)
      ensures Accepts(ch, steps[k], t) && NarrowingAll(current, desired, Apply(steps[k], t))
    {
      WritesAt(steps, vids, step, k);
      NarrowingAllIs(current, desired, t);
      NarrowStep(ch, current, desired, vids[k], t);
      NarrowingAllIs(current, desired, Apply(steps[k], t));
    }
    InvariantRun(ch, steps, s, t => NarrowingAll(current, desired, t), t => GoodAndSafe(current, desired, t));
    SamePortCount(current, desired, s);
    RunWrites(steps, vids, step, s);
    NarrowResult(current, desired, s, vids, Run(steps, s));
  }

  lemma NarrowingAllIs(current: VLANState, desired: VLANState, t: VLANState)
    ensures NarrowingAll(current, desired, t) <==>
              Narrowing(current, desired, t) && forall vid :: vid in current.vlans ==> vid in t.vlans
  {
    hide Narrowing;
  }

  lemma SamePortCount(current: VLANState, desired: VLANState, s: VLANState)
    requires Widened(current, desired, s)
    ensures s.portCount == current.portCount
  {
  }

  lemma StartNarrowing(current: VLANState, desired: VLANState, s: VLANState)
    requires Task(current, desired) && Widened(current, desired, s) && s.pvids == desired.pvids
    ensures NarrowingAll(current, desired, s)
  {
    hide IsWireRow, CarriesPVID, WideningRow, NarrowingRow, Merged;
    forall vid | vid in s.vlans
      ensures NarrowingRow(current, desired, vid, s.vlans[vid])
    {
      WidenedRows(current, desired, s, vid);
    }
  }

  lemma NarrowResult(current: VLANState, desired: VLANState, s: VLANState, vids: seq<int>, t: VLANState)
    requires Task(current, desired) && Widened(current, desired, s) && NarrowingAll(current, desired, t)
    requires forall vid :: vid in vids <==> vid in current.vlans
    requires forall vid :: vid in t.vlans <==> vid in s.vlans || vid in vids
    requires forall vid :: vid in t.vlans ==>
               t.vlans[vid]
               == if vid in vids && vid in Step2(current, desired) then Step2(current, desired)[vid] else s.vlans[vid]
    ensures Narrowed(current, desired, t)
  {
    hide IsWireRow, CarriesPVID, Merged, AllIgnored, NarrowingRow;
  }

  // Phase 5

  lemma DropStep(ch: Channel, current: VLANState, desired: VLANState, vid: int, t: VLANState)
    requires Task(current, desired) && Narrowing(current, desired, t) && vid !in desired.vlans
    ensures Accepts(ch, Drop(vid), t) && Narrowing(current, desired, Apply(Drop(vid), t))
  {
    hide IsWireRow, Merged, AllIgnored, NarrowingRow;
    forall port | port in t.pvids
      ensures t.pvids[port] != vid
    {
      assert CarriesPVID(desired, port);
    }
  }

  lemma DropPhase(ch: Channel, current: VLANState, desired: VLANState, s: VLANState)
    requires Task(current, desired) && Narrowed(current, desired, s)
    ensures var steps := Steps(ch, DeleteOps(AddedIDs(desired, current)));
            && Holds(ch, steps, s, t => GoodAndSafe(current, desired, t))
            && Run(steps, s) == desired
  {
    var vids := AddedIDs(desired, current);
    var steps := Steps(ch, DeleteOps(vids));
    hide Sorted, IsWireRow, Merged, AllIgnored, NarrowingRow, GoodAndSafe, Holds, Run, CarriesPVID, Narrowing;
    StepsOfDeletes(ch, vids);
    forall t | Narrowing(current, desired, t)
      ensures GoodAndSafe(current, desired, t)
    {
      NarrowingIsGood(current, desired, t);
    }
    forall t, k | 0 <= k < |steps| && Narrowing(current, desired, t)
      ensures Accepts(ch, steps[k], t) && Narrowing(current, desired, Apply(steps[k], t))
    {
      assert vids[k] in vids;
      DropStep(ch, current, desired, vids[k], t);
    }
    InvariantRun(ch, steps, s, t => Narrowing(current, desired, t), t => GoodAndSafe(current, desired, t));
    RunDrops(vids, s);
    DropResult(current, desired, s, vids, Run(steps, s));
  }

  lemma StepsOfDeletes(ch: Channel, vids: seq<int>)
    ensures Steps(ch, DeleteOps(vids)) == StepsOfOp(Nsdp, DeleteVLANs(vids))
  {
    if vids != [] {
      assert DeleteOps(vids)[1..] == [];
    }
  }

  lemma DropResult(current: VLANState, desired: VLANState, s: VLANState, vids: seq<int>, t: VLANState)
    requires Task(current, desired) && Narrowed(current, desired, s) && Narrowing(current, desired, t)
    requires forall vid :: vid in vids <==> vid in current.vlans && vid !in desired.vlans
    requires forall vid :: vid in t.vlans <==> vid in s.vlans && vid !in vids
    requires forall vid :: vid in t.vlans ==> t.vlans[vid] == s.vlans[vid]
    ensures t == desired
  {
    hide IsWireRow, CarriesPVID, NarrowingRow;
    forall vid
      ensures vid in t.vlans <==> vid in desired.vlans
      ensures vid in t.vlans ==> t.vlans[vid] == desired.vlans[vid]
    {
    }
    assert t.vlans == desired.vlans;
  }
}
