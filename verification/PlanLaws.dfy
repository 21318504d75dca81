/** A plan op by op, and what its helpers yield, in terms of single VLANs and ports. */
module PlanLaws {
  import opened VlanState
  import opened VlanPlan

  // ---------------------------------------------------------------------
  // States
  // ---------------------------------------------------------------------

  /** Normalizing keeps every membership in range, adds the missing ports as ignored, and drops the others. */
  lemma NormalizedMember(s: VLANState, vid: int, port: int)
    ensures var n := Normalized(s);
            && n.portCount == s.portCount && n.pvids == s.pvids
            && (vid in n.vlans <==> vid in s.vlans)
            && (vid in s.vlans ==>
                  && n.vlans[vid].id == vid
                  && (port in n.vlans[vid].ports <==> 1 <= port <= s.portCount)
                  && (1 <= port <= s.portCount ==>
                        n.vlans[vid].ports[port]
                        == if port in s.vlans[vid].ports then s.vlans[vid].ports[port] else Ignored))
  {
  }

  /** Ports in [1, n], each untagged in VLAN 1 and with PVID 1, but for one membership and one PVID. */
  ghost function Plain(n: nat): VLANState {
    VLANState(n, map[1 := Vlan(1, map port | port in Ports(n) :: Untagged)], map port | port in Ports(n) :: 1)
  }

  lemma PlainIsValid(n: nat)
    requires n > 0
    ensures ValidState(Plain(n))
  {
    PortsSize(n);
    assert Plain(n).pvids.Keys == Ports(n);
    assert |Plain(n).pvids| == |Plain(n).pvids.Keys|;
    forall port | 1 <= port <= n
      ensures CarriesPVID(Plain(n), port)
    {
      assert port in Ports(n);
    }
  }

  /** The plain state of two ports is valid, and each thing that can be wrong with it makes it invalid. */
  lemma ValidityCases()
    ensures var s := Plain(2);
            && ValidState(s)
            && !ValidState(s.(portCount := 0))
            && !ValidState(s.(pvids := map[1 := 1]))
            && !ValidState(s.(pvids := map[1 := 1, 2 := 1, 3 := 1]))
            && !ValidState(s.(pvids := map[1 := 1, 3 := 1]))
            && !ValidState(s.(pvids := map[1 := 1, 2 := 7]))
            && !ValidState(s.(vlans := s.vlans[0 := Vlan(0, map[])]))
            && !ValidState(s.(vlans := s.vlans[7 := Vlan(7, map[3 := Tagged])]))
            && !ValidState(s.(vlans := s.vlans[7 := Vlan(7, map[0 := Tagged])]))
            && !ValidState(s.(vlans := s.vlans[7 := Vlan(7, map[2 := Unknown("forbidden")])]))
            && !ValidState(s.(vlans := map[1 := Vlan(1, map[1 := Untagged, 2 := Ignored])]))
            && !ValidState(s.(vlans := map[]))
            && ValidState(s.(vlans := map[1 := Vlan(1, map[1 := Untagged, 2 := Tagged])]))
            && ValidState(s.(vlans := s.vlans[7 := Vlan(7, map[2 := Tagged])]))
  {
    PlainIsValid(2);
    var s := Plain(2);
    BadPVIDs(s);
    BadVLANs(s);
    TaggedInPVID(s);
    OneMoreVLAN(s);
  }

  lemma BadPVIDs(s: VLANState)
    requires s.portCount == 2
    ensures !ValidState(s.(pvids := map[1 := 1])) && !ValidState(s.(pvids := map[1 := 1, 2 := 1, 3 := 1]))
    ensures !ValidState(s.(pvids := map[1 := 1, 3 := 1]))
    ensures 7 !in s.vlans ==> !ValidState(s.(pvids := map[1 := 1, 2 := 7]))
  {
    assert |map[1 := 1]| == 1;
    assert |map[1 := 1, 2 := 1, 3 := 1]| == 3;
    assert !CarriesPVID(s.(pvids := map[1 := 1, 3 := 1]), 2);
    assert 7 !in s.vlans ==> !CarriesPVID(s.(pvids := map[1 := 1, 2 := 7]), 2);
  }

  lemma BadVLANs(s: VLANState)
    requires s.portCount == 2 && 2 in s.pvids && s.pvids[2] == 1
    ensures !ValidState(s.(vlans := s.vlans[0 := Vlan(0, map[])])) && !ValidState(s.(vlans := map[]))
    ensures !ValidState(s.(vlans := s.vlans[7 := Vlan(7, map[3 := Tagged])]))
    ensures !ValidState(s.(vlans := s.vlans[7 := Vlan(7, map[0 := Tagged])]))
    ensures !ValidState(s.(vlans := s.vlans[7 := Vlan(7, map[2 := Unknown("forbidden")])]))
    ensures !ValidState(s.(vlans := map[1 := Vlan(1, map[1 := Untagged, 2 := Ignored])]))
  {
    BadRow(s, map[3 := Tagged], 3);
    BadRow(s, map[0 := Tagged], 0);
    BadRow(s, map[2 := Unknown("forbidden")], 2);
    assert 0 in s.(vlans := s.vlans[0 := Vlan(0, map[])]).vlans;
    assert !CarriesPVID(s.(vlans := map[]), 2);
    assert !CarriesPVID(s.(vlans := map[1 := Vlan(1, map[1 := Untagged, 2 := Ignored])]), 2);
  }

  lemma BadRow(s: VLANState, row: map<int, PortMembership>, port: int)
    requires s.portCount == 2 && port in row && (port < 1 || port > 2 || row[port].Unknown?)
    ensures !ValidState(s.(vlans := s.vlans[7 := Vlan(7, row)]))
  {
    var t := s.(vlans := s.vlans[7 := Vlan(7, row)]);
    assert 7 in t.vlans && !ValidPorts(t.vlans[7].ports, 2);
  }

  lemma TaggedInPVID(s: VLANState)
    requires s == Plain(2) && ValidState(s)
    ensures ValidState(s.(vlans := map[1 := Vlan(1, map[1 := Untagged, 2 := Tagged])]))
  {
    var t := s.(vlans := map[1 := Vlan(1, map[1 := Untagged, 2 := Tagged])]);
    assert CarriesPVID(s, 1) && CarriesPVID(s, 2);
    assert CarriesPVID(t, 1) && CarriesPVID(t, 2);
  }

  lemma OneMoreVLAN(s: VLANState)
    requires s == Plain(2) && ValidState(s)
    ensures ValidState(s.(vlans := s.vlans[7 := Vlan(7, map[2 := Tagged])]))
  {
    var t := s.(vlans := s.vlans[7 := Vlan(7, map[2 := Tagged])]);
    assert CarriesPVID(s, 1) && CarriesPVID(s, 2);
    assert CarriesPVID(t, 1) && CarriesPVID(t, 2);
    assert ValidPorts(s.vlans[1].ports, 2);
  }

  // ---------------------------------------------------------------------
  // The ops of a plan
  // ---------------------------------------------------------------------

  /** The ops from i up to j, one for each id, in ascending order. */
  ghost predicate OpsFor(ops: seq<VLANOp>, i: nat, j: nat, ids: set<int>) {
    && i <= j <= |ops|
    && (forall k :: i <= k < j ==> !ops[k].DeleteVLANs? && ops[k].vid in ids)
    && (forall k, l :: i <= k < l < j ==> ops[k].vid < ops[l].vid)
    && (forall vid :: vid in ids ==> exists k :: i <= k < j && ops[k].vid == vid)
  }

  ghost predicate IsFor(mine: seq<VLANOp>, ids: set<int>) {
    && |mine| == |Sorted(ids)|
    && forall k :: 0 <= k < |mine| ==> !mine[k].DeleteVLANs? && mine[k].vid == Sorted(ids)[k]
  }

  lemma ListedOps(front: seq<VLANOp>, mine: seq<VLANOp>, rest: seq<VLANOp>, ids: set<int>)
    requires IsFor(mine, ids)
    ensures OpsFor(front + mine + rest, |front|, |front| + |mine|, ids)
  {
    hide Sorted;
    var ops, vids := front + mine + rest, Sorted(ids);
    forall k | |front| <= k < |front| + |mine|
      ensures ops[k] == mine[k - |front|] && ops[k].vid in ids
    {
      assert vids[k - |front|] in vids;
    }
    forall vid | vid in ids
      ensures exists k :: |front| <= k < |front| + |mine| && ops[k].vid == vid
    {
      assert vid in vids;
      var k :| 0 <= k < |vids| && vids[k] == vid;
      assert ops[|front| + k].vid == vid;
    }
  }

  /**
   A plan that is not empty: the added VLANs are created, every desired VLAN gets its
   widened row, every PVID is set, every current VLAN gets its final row, and what is
   left over is deleted with one op, each of these in ascending order.
   */
  lemma PlanShape(current: VLANState, desired: VLANState) returns (a: nat, b: nat, c: nat, d: nat)
    requires !EqualStates(current, desired)
    ensures var ops := PlanOps(current, desired);
            && OpsFor(ops, 0, a, desired.vlans.Keys - current.vlans.Keys) && OpsFor(ops, a, b, desired.vlans.Keys)
            && OpsFor(ops, b, c, desired.pvids.Values) && OpsFor(ops, c, d, current.vlans.Keys)
            && (forall k :: 0 <= k < a ==> ops[k].AddVLAN?)
            && (forall k :: a <= k < b ==> IsWideRow(current, desired, ops[k]))
            && (forall k :: b <= k < c ==> IsMove(desired, ops[k]))
            && (forall k :: c <= k < d ==> IsFinalRow(current, desired, ops[k]))
            && (if current.vlans.Keys - desired.vlans.Keys == {} then |ops| == d
                else |ops| == d + 1 && IsDelete(current, desired, ops[d]))
  {
    hide *;
    var adds, wides := AddOps(AddedIDs(current, desired)), Writes(Step1(current, desired));
    var moves, finals := Moves(desired.pvids), Writes(Step2(current, desired));
    var dels := DeleteOps(AddedIDs(desired, current));
    var ops := PlanOps(current, desired);
    a, b := |adds|, |adds| + |wides|;
    c := b + |moves|;
    d := c + |finals|;
    PlanIs(current, desired);
    Lengths(current, desired);
    WideRows(current, desired);
    MovesAreMoves(desired);
    FinalRows(current, desired);
    LastDelete(current, desired);
    Regroup(adds, wides, moves, finals, dels);
    ListedOps([], adds, wides + moves + finals + dels, desired.vlans.Keys - current.vlans.Keys);
    ListedOps(adds, wides, moves + finals + dels, desired.vlans.Keys);
    ListedOps(adds + wides, moves, finals + dels, desired.pvids.Values);
    ListedOps(adds + wides + moves, finals, dels, current.vlans.Keys);
    InSegments(adds, wides, moves, finals, dels);
  }

  lemma PlanIs(current: VLANState, desired: VLANState)
    requires !EqualStates(current, desired)
    ensures PlanOps(current, desired)
         == AddOps(AddedIDs(current, desired)) + Writes(Step1(current, desired)) + Moves(desired.pvids)
            + Writes(Step2(current, desired)) + DeleteOps(AddedIDs(desired, current))
  {
    hide AddOps, Writes, Moves, DeleteOps, EqualStates, Step1, Step2;
  }

  /** Every phase has one op per id, in the order of the sorted ids. */
  lemma Lengths(current: VLANState, desired: VLANState)
    ensures IsFor(AddOps(AddedIDs(current, desired)), desired.vlans.Keys - current.vlans.Keys)
    ensures forall k :: 0 <= k < |AddOps(AddedIDs(current, desired))| ==> AddOps(AddedIDs(current, desired))[k].AddVLAN?
    ensures IsFor(Writes(Step1(current, desired)), desired.vlans.Keys)
    ensures IsFor(Moves(desired.pvids), desired.pvids.Values)
    ensures IsFor(Writes(Step2(current, desired)), current.vlans.Keys)
  {
    StepKeys(current, desired);
    SortedIn(Step1(current, desired).Keys);
    SortedIn(Step2(current, desired).Keys);
    SortedIn(Batches(desired.pvids).Keys);
    hide Sorted, Step1, Step2, Batches;
  }

  lemma Regroup(p: seq<VLANOp>, q: seq<VLANOp>, r: seq<VLANOp>, t: seq<VLANOp>, u: seq<VLANOp>)
    ensures p + q + r + t + u == [] + p + (q + r + t + u)
    ensures p + q + r + t + u == p + q + (r + t + u)
    ensures p + q + r + t + u == (p + q) + r + (t + u)
    ensures p + q + r + t + u == (p + q + r) + t + u
  {
  }

  lemma InSegments(p: seq<VLANOp>, q: seq<VLANOp>, r: seq<VLANOp>, t: seq<VLANOp>, u: seq<VLANOp>)
    ensures var ops := p + q + r + t + u;
            && |ops| == |p| + |q| + |r| + |t| + |u|
            && (forall k :: 0 <= k < |p| ==> ops[k] == p[k])
            && (forall k :: |p| <= k < |p| + |q| ==> ops[k] == q[k - |p|])
            && (forall k :: |p| + |q| <= k < |p| + |q| + |r| ==> ops[k] == r[k - |p| - |q|])
            && (forall k :: |p| + |q| + |r| <= k < |p| + |q| + |r| + |t| ==> ops[k] == t[k - |p| - |q| - |r|])
            && (u != [] ==> ops[|p| + |q| + |r| + |t|] == u[0])
  {
  }

  lemma StepKeys(current: VLANState, desired: VLANState)
    ensures Step1(current, desired).Keys == desired.vlans.Keys && Step2(current, desired).Keys == current.vlans.Keys
    ensures Batches(desired.pvids).Keys == desired.pvids.Values
  {
    hide Sorted, Merged;
  }

  /** An added VLAN gets its desired row at once, a kept one the widest of both. */
  ghost predicate IsWideRow(current: VLANState, desired: VLANState, op: VLANOp) {
    && op.SetMembership? && op.vid in desired.vlans
    && (op.vid !in current.vlans ==> op.memberships == desired.vlans[op.vid].ports)
    && (op.vid in current.vlans ==>
          && (forall port :: port in op.memberships <==> 1 <= port <= desired.portCount)
          && forall port {:trigger op.memberships[port]} ::
               var now, goal := MembershipIn(current, op.vid, port), MembershipIn(desired, op.vid, port);
               1 <= port <= desired.portCount && !now.Unknown? && !goal.Unknown? ==>
                 op.memberships[port]
                 == if now.Untagged? || goal.Untagged? then Untagged
                    else if now.Tagged? || goal.Tagged? then Tagged
                    else Ignored)
  }

  /** A kept VLAN gets its desired row, a removed one loses all ports. */
  ghost predicate IsFinalRow(current: VLANState, desired: VLANState, op: VLANOp) {
    && op.SetMembership? && op.vid in current.vlans
    && (op.vid in desired.vlans ==> op.memberships == desired.vlans[op.vid].ports)
    && (op.vid !in desired.vlans ==>
          && (forall port :: port in op.memberships <==> 1 <= port <= desired.portCount)
          && forall port :: port in op.memberships ==> op.memberships[port].Ignored?)
  }

  /** All ports that shall have this PVID, ascending. */
  ghost predicate IsMove(desired: VLANState, op: VLANOp) {
    && op.SetPVIDs? && Ascending(op.ports)
    && forall port :: port in op.ports <==> port in desired.pvids && desired.pvids[port] == op.vid
  }

  ghost predicate IsDelete(current: VLANState, desired: VLANState, op: VLANOp) {
    && op.DeleteVLANs? && Ascending(op.vids)
    && forall vid :: vid in op.vids <==> vid in current.vlans && vid !in desired.vlans
  }

  lemma WideRows(current: VLANState, desired: VLANState)
    ensures var wides := Writes(Step1(current, desired));
            forall k :: 0 <= k < |wides| ==> IsWideRow(current, desired, wides[k])
  {
    var step := Step1(current, desired);
    SortedIn(step.Keys);
    forall vid | vid in step
      ensures IsWideRow(current, desired, SetMembership(vid, step[vid].ports))
    {
      if vid in current.vlans {
        WideRow(current.vlans[vid].ports, desired.vlans[vid].ports, desired.portCount);
      }
    }
    hide Sorted, IsWideRow, Step1;
  }

  lemma WideRow(now: map<int, PortMembership>, goal: map<int, PortMembership>, portCount: int)
    ensures forall port :: port in Merged(now, goal, portCount) <==> 1 <= port <= portCount
    ensures forall port {:trigger Merged(now, goal, portCount)[port]} ::
              1 <= port <= portCount && !Member(now, port).Unknown? && !Member(goal, port).Unknown? ==>
                Merged(now, goal, portCount)[port]
                == if Member(now, port).Untagged? || Member(goal, port).Untagged? then Untagged
                   else if Member(now, port).Tagged? || Member(goal, port).Tagged? then Tagged
                   else Ignored
  {
    forall port | 1 <= port <= portCount
      ensures Merged(now, goal, portCount)[port] == MinMembership(Member(now, port), Member(goal, port))
    {
    }
  }

  lemma FinalRows(current: VLANState, desired: VLANState)
    ensures var finals := Writes(Step2(current, desired));
            forall k :: 0 <= k < |finals| ==> IsFinalRow(current, desired, finals[k])
  {
    var step := Step2(current, desired);
    SortedIn(step.Keys);
    hide Sorted;
  }

  lemma MovesAreMoves(desired: VLANState)
    ensures forall k :: 0 <= k < |Moves(desired.pvids)| ==> IsMove(desired, Moves(desired.pvids)[k])
  {
    SortedIn(Batches(desired.pvids).Keys);
    hide Sorted;
  }

  lemma LastDelete(current: VLANState, desired: VLANState)
    ensures var dels := DeleteOps(AddedIDs(desired, current));
            if current.vlans.Keys - desired.vlans.Keys == {} then dels == []
            else |dels| == 1 && IsDelete(current, desired, dels[0])
  {
    var removed := AddedIDs(desired, current);
    NothingInEmpty(removed);
    hide Sorted;
    if current.vlans.Keys - desired.vlans.Keys != {} {
      SomeElement(current.vlans.Keys - desired.vlans.Keys);
      var vid :| vid in current.vlans.Keys - desired.vlans.Keys;
      assert vid in removed;
    }
  }

  // ---------------------------------------------------------------------
  // Preserved ports
  // ---------------------------------------------------------------------

  /** The PVID a port has now, as a map read yields it. */
  function NowPVID(current: VLANState, port: int): int {
    if port in current.pvids then current.pvids[port] else 0
  }

  /** Where the row of a VLAN starts: as it is written, else as it is now, else without any port. */
  ghost predicate StartsAs(vlan: Vlan, step: map<int, Vlan>, current: VLANState, vid: int, portCount: int) {
    if vid in step then vlan == step[vid]
    else if vid in current.vlans then vlan == current.vlans[vid]
    else vlan.id == vid && (forall p :: p in vlan.ports <==> 1 <= p <= portCount)
         && forall p :: p in vlan.ports ==> vlan.ports[p] == Ignored
  }

  ghost predicate IsHome(current: VLANState, preserved: seq<int>, vid: int) {
    exists port :: port in preserved && NowPVID(current, port) == vid
  }

  /** The row of a VLAN, as far as one port goes, when these ports are preserved. */
  ghost predicate IsSplicedRow(r: map<int, Vlan>, start: Vlan, step: map<int, Vlan>, current: VLANState,
                               preserved: seq<int>, vid: int, port: int) {
    && (vid in r <==> vid in step || IsHome(current, preserved, vid))
    && (vid in r ==>
          && r[vid].id == start.id
          && if port in preserved && NowPVID(current, port) == vid
             then port in r[vid].ports && r[vid].ports[port] == MembershipIn(current, vid, port)
             else (port in r[vid].ports <==> port in start.ports)
                  && (port in start.ports ==> r[vid].ports[port] == start.ports[port]))
  }

  /**
   A preserved port ends up with its current membership in the VLAN of its current PVID,
   which gets a row if it has none; other entries stay.
   */
  lemma {:induction false} SplicedAre(step: map<int, Vlan>, current: VLANState, preserved: seq<int>, portCount: int,
                                      vid: int, port: int)
    returns (start: Vlan)
    ensures StartsAs(start, step, current, vid, portCount)
    ensures IsSplicedRow(Spliced(step, current, preserved, portCount), start, step, current, preserved, vid, port)
  {
    hide IsSplicedRow, SplicedPort, StartsAs;
    if preserved == [] {
      start := FirstRow(step, current, portCount, vid, port);
    } else {
      var n := |preserved| - 1;
      start := SplicedAre(step, current, preserved[..n], portCount, vid, port);
      SpliceOne(step, current, preserved, portCount, vid, port, start);
    }
  }

  lemma FirstRow(step: map<int, Vlan>, current: VLANState, portCount: int, vid: int, port: int) returns (start: Vlan)
    ensures StartsAs(start, step, current, vid, portCount) && IsSplicedRow(step, start, step, current, [], vid, port)
  {
    start := if vid in step then step[vid]
             else if vid in current.vlans then current.vlans[vid]
             else Vlan(vid, AllIgnored(portCount));
  }

  lemma SpliceOne(step: map<int, Vlan>, current: VLANState, preserved: seq<int>, portCount: int, vid: int, port: int,
                  start: Vlan)
    requires preserved != [] && StartsAs(start, step, current, vid, portCount)
    requires IsSplicedRow(Spliced(step, current, preserved[..|preserved| - 1], portCount), start, step, current,
                          preserved[..|preserved| - 1], vid, port)
    ensures IsSplicedRow(Spliced(step, current, preserved, portCount), start, step, current, preserved, vid, port)
  {
    hide *;
    var front, last := preserved[..|preserved| - 1], preserved[|preserved| - 1];
    assert preserved == front + [last];
    var before := Spliced(step, current, front, portCount);
    SplicedSnoc(step, current, preserved, portCount);
    HomeSnoc(current, front, last, vid);
    NoRowYet(before, start, step, current, front, portCount, vid, port);
    OnePort(before, current, last, portCount, vid, start);
    OneMoreRow(SplicedPort(before, current, last, portCount), before, start, step, current, front, last, vid, port);
  }

  lemma SplicedSnoc(step: map<int, Vlan>, current: VLANState, preserved: seq<int>, portCount: int)
    requires preserved != []
    ensures Spliced(step, current, preserved, portCount)
         == SplicedPort(Spliced(step, current, preserved[..|preserved| - 1], portCount), current,
                        preserved[|preserved| - 1], portCount)
  {
    hide SplicedPort;
  }

  lemma HomeSnoc(current: VLANState, front: seq<int>, last: int, vid: int)
    ensures IsHome(current, front + [last], vid) <==> IsHome(current, front, vid) || NowPVID(current, last) == vid
  {
    hide NowPVID;
    if NowPVID(current, last) == vid {
      assert last in front + [last];
    }
    if IsHome(current, front, vid) {
      var port :| port in front && NowPVID(current, port) == vid;
      assert port in front + [last];
    }
  }

  /** As long as a VLAN has no row, its start is what the state has, or an empty one. */
  lemma NoRowYet(before: map<int, Vlan>, start: Vlan, step: map<int, Vlan>, current: VLANState, front: seq<int>,
                 portCount: int, vid: int, port: int)
    requires StartsAs(start, step, current, vid, portCount)
    requires IsSplicedRow(before, start, step, current, front, vid, port)
    ensures vid !in before ==>
              start == if vid in current.vlans then current.vlans[vid] else Vlan(vid, AllIgnored(portCount))
  {
    hide IsHome, NowPVID, MembershipIn;
    if vid !in step && vid !in current.vlans {
      StartIs(start, step, current, vid, portCount);
    }
  }

  lemma OneMoreRow(after: map<int, Vlan>, before: map<int, Vlan>, start: Vlan, step: map<int, Vlan>,
                   current: VLANState, front: seq<int>, last: int, vid: int, port: int)
    requires IsSplicedRow(before, start, step, current, front, vid, port)
    requires IsHome(current, front + [last], vid) <==> IsHome(current, front, vid) || NowPVID(current, last) == vid
    requires if NowPVID(current, last) == vid
             then
               var row := if vid in before then before[vid] else start;
               vid in after && after[vid] == row.(ports := row.ports[last := MembershipIn(current, vid, last)])
             else (vid in after <==> vid in before) && (vid in after ==> after[vid] == before[vid])
    ensures IsSplicedRow(after, start, step, current, front + [last], vid, port)
  {
    hide IsHome, NowPVID, MembershipIn;
    if port in front && NowPVID(current, port) == vid && vid !in before {
      hide *;
      HomeOf(current, front, port);
      assert false;
    }
  }

  lemma HomeOf(current: VLANState, preserved: seq<int>, port: int)
    requires port in preserved
    ensures IsHome(current, preserved, NowPVID(current, port))
  {
  }

  /** One port: the VLAN of its PVID gets a row if it has none, with the port's membership. */
  lemma OnePort(before: map<int, Vlan>, current: VLANState, last: int, portCount: int, vid: int, start: Vlan)
    requires vid !in before ==>
               start == if vid in current.vlans then current.vlans[vid] else Vlan(vid, AllIgnored(portCount))
    ensures var r := SplicedPort(before, current, last, portCount);
            if NowPVID(current, last) == vid
            then
              var row := if vid in before then before[vid] else start;
              vid in r && r[vid] == row.(ports := row.ports[last := MembershipIn(current, vid, last)])
            else (vid in r <==> vid in before) && (vid in r ==> r[vid] == before[vid])
  {
  }

  lemma StartIs(start: Vlan, step: map<int, Vlan>, current: VLANState, vid: int, portCount: int)
    requires StartsAs(start, step, current, vid, portCount) && vid !in step && vid !in current.vlans
    ensures start == Vlan(vid, AllIgnored(portCount))
  {
    assert start.ports == AllIgnored(portCount);
  }
}
