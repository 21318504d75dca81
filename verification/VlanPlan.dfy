/** The convergence plan between two VLAN states: Plan and its helpers. */
module VlanPlan {
  import opened Wrappers
  import opened VlanState

  datatype VLANOp =
    | AddVLAN(vid: int)
    | SetMembership(vid: int, memberships: map<int, PortMembership>)
    | SetPVIDs(vid: int, ports: seq<int>)
    | DeleteVLANs(vids: seq<int>)

  // ---------------------------------------------------------------------
  // Memberships
  // ---------------------------------------------------------------------

  function Rank(m: PortMembership): nat {
    match m
    case Unknown(_) => 0
    case Untagged => 1
    case Tagged => 2
    case Ignored => 3
  }

  function MinMembership(left: PortMembership, right: PortMembership): PortMembership {
    if Rank(left) <= Rank(right) then left else right
  }

  /** The widest of two memberships is ignored only when both are. */
  lemma MinKeepsMembers(left: PortMembership, right: PortMembership)
    ensures MinMembership(left, right) == Ignored <==> left == Ignored && right == Ignored
  {
  }

  /** Untagged wins over tagged, and tagged over ignored; a missing entry wins over all. */
  lemma MinIs(left: PortMembership, right: PortMembership)
    ensures MinMembership(left, right)
         == if left.Unknown? then left
            else if right.Unknown? then right
            else if left.Untagged? || right.Untagged? then Untagged
            else if left.Tagged? || right.Tagged? then Tagged
            else Ignored
  {
  }

  function AllIgnored(portCount: int): map<int, PortMembership> {
    NormalizedPorts(map[], portCount)
  }

  function Merged(current: map<int, PortMembership>, desired: map<int, PortMembership>, portCount: int)
    : map<int, PortMembership>
  {
    map port | 1 <= port <= portCount :: MinMembership(Member(current, port), Member(desired, port))
  }

  method IgnoredPorts(portCount: int) returns (ports: map<int, PortMembership>)
    ensures ports == AllIgnored(portCount)
  {
    ports := NormalizePorts(map[], portCount);
  }

  /** On wire rows a port is untagged when either row has it untagged, and ignored only when both ignore it. */
  lemma MergedIs(current: map<int, PortMembership>, desired: map<int, PortMembership>, portCount: int, port: int)
    requires 1 <= port <= portCount && port in current && port in desired
    requires !current[port].Unknown? && !desired[port].Unknown?
    ensures var merged := Merged(current, desired, portCount);
            && port in merged
            && (merged[port].Untagged? <==> current[port].Untagged? || desired[port].Untagged?)
            && (merged[port].Ignored? <==> current[port].Ignored? && desired[port].Ignored?)
            && !merged[port].Unknown?
  {
    MinIs(current[port], desired[port]);
    hide MinMembership;
  }

  /** The per-port minimum of two memberships: untagged before tagged before ignored. */
  method MergedMembership(current: map<int, PortMembership>, desired: map<int, PortMembership>, portCount: int)
    returns (result: map<int, PortMembership>)
    ensures result == Merged(current, desired, portCount)
    ensures forall port :: port in result <==> 1 <= port <= portCount
    ensures forall port :: port in result && !Member(current, port).Unknown? && !Member(desired, port).Unknown? ==>
              result[port]
              == if Member(current, port).Untagged? || Member(desired, port).Untagged? then Untagged
                 else if Member(current, port).Tagged? || Member(desired, port).Tagged? then Tagged
                 else Ignored
  {
    result := IgnoredPorts(portCount);
    for port := 1 to Max(portCount, 0) + 1
      invariant result.Keys == AllIgnored(portCount).Keys
      invariant forall p :: 1 <= p < port ==> result[p] == MinMembership(Member(current, p), Member(desired, p))
    {
      result := result[port := MinMembership(Member(current, port), Member(desired, port))];
    }
    assert result.Keys == Merged(current, desired, portCount).Keys;
  }

  // ---------------------------------------------------------------------
  // The plan as a function of the two states
  // ---------------------------------------------------------------------

  /** Widened memberships: exact for added VLANs, the minimum for kept ones. */
  function Step1(current: VLANState, desired: VLANState): map<int, Vlan> {
    map vid | vid in desired.vlans ::
      if vid in current.vlans
      then Vlan(vid, Merged(current.vlans[vid].ports, desired.vlans[vid].ports, desired.portCount))
      else desired.vlans[vid]
  }

  /** Final memberships: exact for kept VLANs, all-ignored for removed ones. */
  function Step2(current: VLANState, desired: VLANState): map<int, Vlan> {
    map vid | vid in current.vlans ::
      if vid in desired.vlans then desired.vlans[vid] else Vlan(vid, AllIgnored(desired.portCount))
  }

  function AddOps(vids: seq<int>): seq<VLANOp> {
    seq(|vids|, k requires 0 <= k < |vids| => AddVLAN(vids[k]))
  }

  function WriteOps(vids: seq<int>, step: map<int, Vlan>): seq<VLANOp>
    requires forall k :: 0 <= k < |vids| ==> vids[k] in step
  {
    seq(|vids|, k requires 0 <= k < |vids| => SetMembership(vids[k], step[vids[k]].ports))
  }

  function MoveOps(vids: seq<int>, batches: map<int, seq<int>>): seq<VLANOp>
    requires forall k :: 0 <= k < |vids| ==> vids[k] in batches
  {
    seq(|vids|, k requires 0 <= k < |vids| => SetPVIDs(vids[k], batches[vids[k]]))
  }

  function DeleteOps(vids: seq<int>): seq<VLANOp> {
    if vids == [] then [] else [DeleteVLANs(vids)]
  }

  lemma SortedIn(keys: set<int>)
    ensures forall k :: 0 <= k < |Sorted(keys)| ==> Sorted(keys)[k] in keys
  {
    assert forall k :: 0 <= k < |Sorted(keys)| ==> Sorted(keys)[k] in Sorted(keys);
  }

  ghost function Writes(step: map<int, Vlan>): seq<VLANOp> {
    SortedIn(step.Keys);
    WriteOps(Sorted(step.Keys), step)
  }

  ghost function Moves(pvids: map<int, int>): seq<VLANOp> {
    SortedIn(Batches(pvids).Keys);
    MoveOps(Sorted(Batches(pvids).Keys), Batches(pvids))
  }

  /** The five phases, in their fixed order. */
  ghost function Phases(current: VLANState, desired: VLANState): seq<VLANOp> {
    AddOps(AddedIDs(current, desired))
    + Writes(Step1(current, desired))
    + Moves(desired.pvids)
    + Writes(Step2(current, desired))
    + DeleteOps(AddedIDs(desired, current))
  }

  ghost function PlanOps(current: VLANState, desired: VLANState): seq<VLANOp> {
    if EqualStates(current, desired) then [] else Phases(current, desired)
  }

  // ---------------------------------------------------------------------
  // Preserved ports
  // ---------------------------------------------------------------------

  function SplicedPort(step: map<int, Vlan>, current: VLANState, port: int, portCount: int): map<int, Vlan> {
    var pvid := if port in current.pvids then current.pvids[port] else 0;
    var vlan :=
      if pvid in step then step[pvid]
      else if pvid in current.vlans then current.vlans[pvid]
      else Vlan(pvid, AllIgnored(portCount));
    step[pvid := vlan.(ports := vlan.ports[port := MembershipIn(current, pvid, port)])]
  }

  function Spliced(step: map<int, Vlan>, current: VLANState, preserved: seq<int>, portCount: int): map<int, Vlan> {
    if preserved == [] then step
    else SplicedPort(Spliced(step, current, preserved[..|preserved| - 1], portCount), current,
                     preserved[|preserved| - 1], portCount)
  }

  /** Every preserved port keeps its current membership in the VLAN of its current PVID. */
  method SplicePreservedPorts(step: map<int, Vlan>, current: VLANState, preserved: seq<int>, portCount: int)
    returns (r: map<int, Vlan>)
    ensures r == Spliced(step, current, preserved, portCount)
  {
    r := step;
    for k := 0 to |preserved|
      invariant r == Spliced(step, current, preserved[..k], portCount)
    {
      assert preserved[..k + 1][..k] == preserved[..k];
      var port := preserved[k];
      var pvid := if port in current.pvids then current.pvids[port] else 0;
      var vlan: Vlan;
      if pvid in r {
        vlan := r[pvid];
      } else if pvid in current.vlans {
        vlan := current.vlans[pvid];
      } else {
        var ports := IgnoredPorts(portCount);
        vlan := Vlan(pvid, ports);
      }
      vlan := vlan.(ports := vlan.ports[port := MembershipIn(current, pvid, port)]);
      r := r[pvid := vlan];
    }
    assert preserved[..|preserved|] == preserved;
  }

  // ---------------------------------------------------------------------
  // Plan
  // ---------------------------------------------------------------------

  /** The entries of a map for the first k ids of a list, on top of the entries for some others. */
  function Part(step: map<int, Vlan>, others: set<int>, vids: seq<int>, k: nat): map<int, Vlan>
    requires k <= |vids|
  {
    map vid | vid in step && (vid in others || vid in vids[..k]) :: step[vid]
  }

  lemma PartStep(step: map<int, Vlan>, others: set<int>, vids: seq<int>, k: nat)
    requires k < |vids| && vids[k] in step
    ensures Part(step, others, vids, k + 1) == Part(step, others, vids, k)[vids[k] := step[vids[k]]]
  {
    assert vids[..k + 1] == vids[..k] + [vids[k]];
  }

  lemma PartAll(step: map<int, Vlan>, others: set<int>, vids: seq<int>)
    requires forall vid :: vid in step ==> vid in others || vid in vids
    ensures Part(step, others, vids, |vids|) == step
  {
    assert vids[..|vids|] == vids;
    var part := Part(step, others, vids, |vids|);
    forall vid
      ensures vid in part <==> vid in step
    {
    }
    assert part == step;
  }

  method StepMaps(current: VLANState, desired: VLANState, added: seq<int>, kept: seq<int>, removed: seq<int>)
    returns (step1: map<int, Vlan>, step2: map<int, Vlan>)
    requires added == AddedIDs(current, desired) && removed == AddedIDs(desired, current)
    requires kept == Sorted(current.vlans.Keys * desired.vlans.Keys)
    ensures step1 == Step1(current, desired) && step2 == Step2(current, desired)
  {
    hide Sorted, Merged, AllIgnored, Part, Ascending;
    ghost var widened, exact := Step1(current, desired), Step2(current, desired);
    ghost var addedSet, keptSet := desired.vlans.Keys - current.vlans.Keys, current.vlans.Keys * desired.vlans.Keys;
    step1, step2 := map[], map[];
    assert step1 == Part(widened, {}, added, 0) && step2 == Part(exact, {}, kept, 0) by {
      PartNone(widened, exact, added, kept);
    }
    for k := 0 to |added|
      invariant step1 == Part(widened, {}, added, k)
    {
      assert added[k] in added;
      PartStep(widened, {}, added, k);
      step1 := step1[added[k] := desired.vlans[added[k]]];
    }
    PartHandOver(widened, added, addedSet, kept);
    for k := 0 to |kept|
      invariant step1 == Part(widened, addedSet, kept, k)
      invariant step2 == Part(exact, {}, kept, k)
    {
      var vid := kept[k];
      assert vid in kept;
      PartStep(widened, addedSet, kept, k);
      PartStep(exact, {}, kept, k);
      var ports := MergedMembership(current.vlans[vid].ports, desired.vlans[vid].ports, desired.portCount);
      step1 := step1[vid := Vlan(vid, ports)];
      step2 := step2[vid := desired.vlans[vid]];
    }
    PartHandOver(exact, kept, keptSet, removed);
    for k := 0 to |removed|
      invariant step2 == Part(exact, keptSet, removed, k)
    {
      assert removed[k] in removed;
      PartStep(exact, keptSet, removed, k);
      var ports := IgnoredPorts(desired.portCount);
      step2 := step2[removed[k] := Vlan(removed[k], ports)];
    }
    PartAll(widened, addedSet, kept);
    PartAll(exact, keptSet, removed);
  }

  lemma PartNone(widened: map<int, Vlan>, exact: map<int, Vlan>, added: seq<int>, kept: seq<int>)
    ensures Part(widened, {}, added, 0) == map[] && Part(exact, {}, kept, 0) == map[]
  {
  }

  /** A list that has been worked off is the set it lists. */
  lemma PartHandOver(step: map<int, Vlan>, vids: seq<int>, all: set<int>, next: seq<int>)
    requires forall vid :: vid in vids <==> vid in all
    ensures Part(step, {}, vids, |vids|) == Part(step, all, next, 0)
  {
    assert vids[..|vids|] == vids && next[..0] == [];
    var before, after := Part(step, {}, vids, |vids|), Part(step, all, next, 0);
    forall vid
      ensures vid in before <==> vid in after
    {
    }
    assert before == after;
  }

  /** The ids in both lists, in the order of the right one. */
  method IntersectVLANIDs(left: seq<int>, right: seq<int>) returns (result: seq<int>)
    requires Ascending(right)
    ensures Ascending(result)
    ensures forall x :: x in result <==> x in left && x in right
  {
    var others := set x | x in right && x !in left;
    result := KeepOthers(right, others);
  }

  /** The convergence plan from current to desired. */
  method Plan(current: VLANState, desired: VLANState) returns (r: Result<seq<VLANOp>, ValidationError>)
    ensures match r
            case Err(e) => !ValidState(Normalized(desired)) && Describes(Normalized(desired), e)
            case Ok(ops) => ValidState(Normalized(desired)) && ops == PlanOps(Normalized(current), Normalized(desired))
  {
    hide Sorted, Batches, UncarriedPorts, ValidState, EqualStates, Step1, Step2, AddedIDs;
    var goal := Normalize(desired);
    var err := Validate(goal);
    if err.Some? {
      return Err(err.value);
    }
    var now := Normalize(current);
    var same := Equal(now, goal);
    if same {
      return Ok([]);
    }
    NormalizedIdempotent(desired);
    hide Normalized;
    var removed := RemovedVLANs(now, goal);
    var preserved := PreservedPorts(goal);
    NothingPreserved(goal);
    var added := AddedVLANs(now, goal);
    var nowIDs := SortedKeys(now.vlans.Keys);
    var goalIDs := SortedKeys(goal.vlans.Keys);
    var kept := IntersectVLANIDs(nowIDs, goalIDs);
    AscendingUnique(kept, Sorted(now.vlans.Keys * goal.vlans.Keys));
    var step1, step2 := StepMaps(now, goal, added, kept, removed);
    step2 := SplicePreservedPorts(step2, now, preserved, goal.portCount);
    AddedAscend(goal, now);
    ghost var allRemoved := removed;
    removed := PreserveRemovedVLANs(removed, now, preserved);
    AscendingUnique(removed, allRemoved);
    var batches := BatchPVIDs(goal);

    // Phase 1: create added VLANs.
    var plan := AddOps(added);
    // Phase 2: widen memberships.
    var ops := WriteStep(step1);
    plan := plan + ops;
    // Phase 3: move PVIDs.
    var vids := SortedKeys(batches.Keys);
    SortedIn(batches.Keys);
    plan := plan + MoveOps(vids, batches);
    // Phase 4: exact memberships.
    ops := WriteStep(step2);
    plan := plan + ops;
    // Phase 5: deletes last.
    if |removed| > 0 {
      plan := plan + [DeleteVLANs(removed)];
    }
    return Ok(plan);
  }

  method WriteStep(step: map<int, Vlan>) returns (ops: seq<VLANOp>)
    ensures ops == Writes(step)
  {
    var vids := SortedKeys(step.Keys);
    SortedIn(step.Keys);
    ops := WriteOps(vids, step);
  }

  lemma AddedAscend(current: VLANState, desired: VLANState)
    ensures Ascending(AddedIDs(current, desired))
  {
  }

  /** A validated desired state preserves no port: the splice and the filter do nothing. */
  lemma NothingPreserved(desired: VLANState)
    requires ValidState(desired) && desired == Normalized(desired)
    ensures Sorted(UncarriedPorts(desired)) == []
    ensures forall current, vid :: !IsBlocked(current, [], vid)
  {
    ValidStateCarriesAllPorts(desired);
  }
}
