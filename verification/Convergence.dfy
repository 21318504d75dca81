/** The theorems about whole plans: safety at every write, convergence, restart, continuity. */
module Convergence {
  import opened VlanState
  import opened VlanPlan
  import opened Transition

  /** The wire steps of the plan between two states, over a channel. */
  ghost function PlanSteps(ch: Channel, current: VLANState, desired: VLANState): seq<WireStep> {
    Steps(ch, PlanOps(current, desired))
  }

  // ---------------------------------------------------------------------
  // The run of a plan
  // ---------------------------------------------------------------------

  /** On states that cover their ports the comparison is equality. */
  lemma EqualCoveringStates(s: VLANState, t: VLANState)
    requires Covers(s) && Covers(t)
    ensures EqualStates(s, t) <==> s == t
  {
    hide IsWireRow, CarriesPVID;
    CoveringIsNormalized(s);
    CoveringIsNormalized(t);
    if EqualStates(s, t) {
      forall port
        ensures port in s.pvids <==> port in t.pvids
        ensures port in s.pvids ==> s.pvids[port] == t.pvids[port]
      {
      }
      assert s.pvids == t.pvids;
      VlansMatch(s, t);
    }
  }

  lemma CreateAll(ch: Channel, current: VLANState, desired: VLANState)
    requires Task(current, desired)
    ensures var steps := Steps(ch, AddOps(AddedIDs(current, desired)));
            && Holds(ch, steps, current, t => Good(current, desired, t))
            && Widening(current, desired, ch.Http?, Run(steps, current))
  {
    hide Sorted, Good, IsWireRow, CarriesPVID, Merged, AllIgnored;
    var vids := AddedIDs(current, desired);
    StepsOfAdds(ch, vids);
    assert Widening(current, desired, false, current);
    WideningIsGood(current, desired, false, current);
    if ch.Http? {
      assert forall k :: 0 <= k < |vids| ==> vids[k] in vids;
      CreatePhase(current, desired, vids, current);
      var t := Run(Steps(ch, AddOps(vids)), current);
      forall vid | vid in desired.vlans
        ensures vid in t.vlans
      {
        assert vid in current.vlans || vid in vids;
      }
    }
  }

  /** The writes up to the last PVID. */
  ghost function EarlySteps(ch: Channel, current: VLANState, desired: VLANState): seq<WireStep> {
    Steps(ch, AddOps(AddedIDs(current, desired)))
    + Steps(ch, Writes(Step1(current, desired)))
    + Steps(ch, Moves(desired.pvids))
  }

  /** The writes once every PVID has moved. */
  ghost function LateSteps(ch: Channel, current: VLANState, desired: VLANState): seq<WireStep> {
    Steps(ch, Writes(Step2(current, desired))) + Steps(ch, DeleteOps(AddedIDs(desired, current)))
  }

  lemma StepsOfPhases(ch: Channel, current: VLANState, desired: VLANState)
    ensures Steps(ch, Phases(current, desired)) == EarlySteps(ch, current, desired) + LateSteps(ch, current, desired)
  {
    hide Steps, AddOps, Writes, Moves, DeleteOps;
    var p1, p2, p3 := AddOps(AddedIDs(current, desired)), Writes(Step1(current, desired)), Moves(desired.pvids);
    var p4, p5 := Writes(Step2(current, desired)), DeleteOps(AddedIDs(desired, current));
    StepsAppend(ch, p1 + p2 + p3 + p4, p5);
    StepsAppend(ch, p1 + p2 + p3, p4);
    StepsAppend(ch, p1 + p2, p3);
    StepsAppend(ch, p1, p2);
    Associative(Steps(ch, p1 + p2 + p3), Steps(ch, p4), Steps(ch, p5));
  }

  /** Up to the last PVID every state is good. */
  lemma EarlyRun(ch: Channel, current: VLANState, desired: VLANState)
    requires Task(current, desired)
    ensures var steps := EarlySteps(ch, current, desired);
            && Holds(ch, steps, current, t => Good(current, desired, t))
            && Widened(current, desired, Run(steps, current)) && Run(steps, current).pvids == desired.pvids
  {
    var q1, q2 := Steps(ch, AddOps(AddedIDs(current, desired))), Steps(ch, Writes(Step1(current, desired)));
    var q3 := Steps(ch, Moves(desired.pvids));
    assert EarlySteps(ch, current, desired) == q1 + q2 + q3;
    hide *;
    var good := t => Good(current, desired, t);
    CreateAll(ch, current, desired);
    var s1 := Run(q1, current);
    WidenPhase(ch, current, desired, s1);
    var s2 := Run(q2, s1);
    MovingPhase(ch, current, desired, s2);
    RunAppend(q1, q2, current);
    RunAppend(q1 + q2, q3, current);
    HoldsAppend(ch, q1, q2, current, good);
    HoldsAppend(ch, q1 + q2, q3, current, good);
  }

  /** From there on every state is good and safe, and the last one is the desired one. */
  lemma LateRun(ch: Channel, current: VLANState, desired: VLANState, s: VLANState)
    requires Task(current, desired) && Widened(current, desired, s) && s.pvids == desired.pvids
    ensures var steps := LateSteps(ch, current, desired);
            Holds(ch, steps, s, t => GoodAndSafe(current, desired, t)) && Run(steps, s) == desired
  {
    var q4, q5 := Steps(ch, Writes(Step2(current, desired))), Steps(ch, DeleteOps(AddedIDs(desired, current)));
    assert LateSteps(ch, current, desired) == q4 + q5;
    hide *;
    NarrowPhase(ch, current, desired, s);
    DropPhase(ch, current, desired, Run(q4, s));
    RunAppend(q4, q5, s);
    HoldsAppend(ch, q4, q5, s, t => GoodAndSafe(current, desired, t));
  }

  /** What holds all along a run does so in a weaker form. */
  lemma {:induction false} HoldsWeaker(ch: Channel, steps: seq<WireStep>, s: VLANState, strong: VLANState -> bool,
                                       weak: VLANState -> bool)
    requires Holds(ch, steps, s, strong) && forall t :: strong(t) ==> weak(t)
    ensures Holds(ch, steps, s, weak)
  {
    hide Accepts, Apply;
    if steps != [] {
      HoldsWeaker(ch, steps[1..], Apply(steps[0], s), strong, weak);
    }
  }

  lemma PhasesRun(ch: Channel, current: VLANState, desired: VLANState)
    requires Task(current, desired)
    ensures var steps := Steps(ch, Phases(current, desired));
            Holds(ch, steps, current, t => Good(current, desired, t)) && Run(steps, current) == desired
  {
    hide *;
    var good, safe := t => Good(current, desired, t), t => GoodAndSafe(current, desired, t);
    var early, late := EarlySteps(ch, current, desired), LateSteps(ch, current, desired);
    StepsOfPhases(ch, current, desired);
    EarlyRun(ch, current, desired);
    LateRun(ch, current, desired, Run(early, current));
    forall t | safe(t)
      ensures good(t)
    {
      SafeIsGood(current, desired, t);
    }
    HoldsWeaker(ch, late, Run(early, current), safe, good);
    RunAppend(early, late, current);
    HoldsAppend(ch, early, late, current, good);
  }

  lemma SafeIsGood(current: VLANState, desired: VLANState, t: VLANState)
    requires GoodAndSafe(current, desired, t)
    ensures Good(current, desired, t) && Safe(t)
  {
    hide Good, Safe;
  }

  lemma PlanRuns(ch: Channel, current: VLANState, desired: VLANState)
    requires Task(current, desired)
    ensures Holds(ch, PlanSteps(ch, current, desired), current, t => Good(current, desired, t))
    ensures Run(PlanSteps(ch, current, desired), current) == desired
  {
    hide Phases, Good, Covers, Safe;
    if EqualStates(current, desired) {
      EqualCoveringStates(current, desired);
      StartIsGood(current, desired);
    } else {
      PhasesRun(ch, current, desired);
    }
  }

  lemma StartIsGood(current: VLANState, desired: VLANState)
    requires Task(current, desired)
    ensures Good(current, desired, current)
  {
    hide IsWireRow, CarriesPVID;
  }

  /** The number of writes up to the last PVID; none when nothing is to be done. */
  ghost function MovesEnd(ch: Channel, current: VLANState, desired: VLANState): nat {
    if EqualStates(current, desired) then 0 else |EarlySteps(ch, current, desired)|
  }

  /** Once every PVID has moved every port is safe. */
  lemma SafeOnceMoved(ch: Channel, current: VLANState, desired: VLANState, k: nat)
    requires Task(current, desired) && MovesEnd(ch, current, desired) <= k <= |PlanSteps(ch, current, desired)|
    ensures Safe(Run(PlanSteps(ch, current, desired)[..k], current))
  {
    hide Phases, Good, Covers, Safe, Holds, Run, EarlySteps, LateSteps, EqualStates, Steps;
    var steps := PlanSteps(ch, current, desired);
    if EqualStates(current, desired) {
      EqualCoveringStates(current, desired);
      assert steps == [] by { NoOps(ch); }
      OnlyStart(current);
    } else {
      var early, late := EarlySteps(ch, current, desired), LateSteps(ch, current, desired);
      StepsOfPhases(ch, current, desired);
      EarlyRun(ch, current, desired);
      LateRun(ch, current, desired, Run(early, current));
      var l := k - |early|;
      assert steps[..k] == early + late[..l];
      RunAppend(early, late[..l], current);
      HoldsAtPrefix(ch, late, Run(early, current), t => GoodAndSafe(current, desired, t), l);
    }
  }

  lemma NoOps(ch: Channel)
    ensures Steps(ch, []) == []
  {
  }

  lemma OnlyStart(s: VLANState)
    ensures Run([][..0], s) == s && Run([], s) == s
  {
  }

  // ---------------------------------------------------------------------
  // The theorems, for any desired state that validates
  // ---------------------------------------------------------------------

  /** A read of a live switch, safe or not, and a desired state that passes validation, over the same ports. */
  ghost predicate Applies(current: VLANState, desired: VLANState) {
    Covers(current) && ValidState(Normalized(desired)) && current.portCount == desired.portCount
  }

  lemma AppliesIsTask(current: VLANState, desired: VLANState)
    requires Applies(current, desired)
    ensures Task(current, Normalized(desired))
  {
    NormalizedIdempotent(desired);
    ValidIsSafe(Normalized(desired));
  }

  /**
   After every single write of the plan, over either channel: a port whose PVID named a
   VLAN that carries it at the start still has such a PVID, once the PVIDs have moved
   every port has one, no kept membership has lapsed, and the next write finds what it
   needs.
   */
  lemma SafeAtEveryWrite(ch: Channel, current: VLANState, desired: VLANState, k: nat)
    requires Applies(current, desired)
    requires k <= |PlanSteps(ch, current, Normalized(desired))|
    ensures var goal := Normalized(desired);
            var steps := PlanSteps(ch, current, goal);
            var t := Run(steps[..k], current);
            && Covers(t) && StillCarried(current, t) && Kept(current, goal, t)
            && (MovesEnd(ch, current, goal) <= k ==> Safe(t))
            && (k < |steps| ==> Accepts(ch, steps[k], t))
  {
    var goal := Normalized(desired);
    AppliesIsTask(current, desired);
    PlanRuns(ch, current, goal);
    HoldsAtPrefix(ch, PlanSteps(ch, current, goal), current, t => Good(current, goal, t), k);
    hide CarriesPVID, Holds, Run, Kept, IsWireRow, Normalized, Safe, MovesEnd, StillCarried, Accepts;
    if MovesEnd(ch, current, goal) <= k {
      SafeOnceMoved(ch, current, goal, k);
    }
  }

  /** From a safe switch every state on the way is safe. */
  lemma SafeStaysSafe(ch: Channel, current: VLANState, desired: VLANState, k: nat)
    requires Applies(current, desired) && Safe(current)
    requires k <= |PlanSteps(ch, current, Normalized(desired))|
    ensures Safe(Run(PlanSteps(ch, current, Normalized(desired))[..k], current))
  {
    hide CarriesPVID, Run, Kept, Normalized, Accepts, PlanSteps, Covers, MovesEnd;
    SafeAtEveryWrite(ch, current, desired, k);
    SamePorts(ch, current, desired, k);
  }

  /** The whole plan reaches the desired state, whatever the PVIDs were. */
  lemma Converges(ch: Channel, current: VLANState, desired: VLANState)
    requires Applies(current, desired)
    ensures Run(PlanSteps(ch, current, Normalized(desired)), current) == Normalized(desired)
    ensures EqualStates(Run(PlanSteps(ch, current, Normalized(desired)), current), desired)
  {
    hide Run, Covers, PlanSteps;
    AppliesIsTask(current, desired);
    PlanRuns(ch, current, Normalized(desired));
    NormalizedIdempotent(desired);
    SameStateIsEqual(Normalized(desired), desired);
  }

  /**
   A run cut short after any write, over either channel, leaves a state from which a
   new plan, over either channel, keeps every port that was safe at the start, finds at
   every write what it needs, and reaches the desired state.
   */
  lemma RestartsFromAnyPrefix(ch: Channel, again: Channel, current: VLANState, desired: VLANState, k: nat, l: nat)
    requires Applies(current, desired)
    requires k <= |PlanSteps(ch, current, Normalized(desired))|
    ensures var goal := Normalized(desired);
            var stopped := Run(PlanSteps(ch, current, goal)[..k], current);
            var steps := PlanSteps(again, stopped, goal);
            && Run(steps, stopped) == goal
            && (l <= |steps| ==> StillCarried(current, Run(steps[..l], stopped)))
            && (l < |steps| ==> Accepts(again, steps[l], Run(steps[..l], stopped)))
  {
    hide Run, PlanSteps, CarriesPVID, IsWireRow, Normalized, Accepts, Safe, MovesEnd, Covers, Kept;
    var goal := Normalized(desired);
    SafeAtEveryWrite(ch, current, desired, k);
    var stopped := Run(PlanSteps(ch, current, goal)[..k], current);
    SamePorts(ch, current, desired, k);
    Converges(again, stopped, desired);
    if l <= |PlanSteps(again, stopped, goal)| {
      SafeAtEveryWrite(again, stopped, desired, l);
    }
  }

  lemma {:induction false} RunKeepsPortCount(steps: seq<WireStep>, s: VLANState)
    ensures Run(steps, s).portCount == s.portCount
  {
    if steps != [] {
      RunKeepsPortCount(steps[1..], Apply(steps[0], s));
    }
  }

  lemma SamePorts(ch: Channel, current: VLANState, desired: VLANState, k: nat)
    requires k <= |PlanSteps(ch, current, Normalized(desired))|
    ensures Run(PlanSteps(ch, current, Normalized(desired))[..k], current).portCount == current.portCount
  {
    RunKeepsPortCount(PlanSteps(ch, current, Normalized(desired))[..k], current);
  }

  /** The plan is empty exactly when the states are Equal, whatever the read yielded. */
  lemma EmptyPlanIffEqual(current: VLANState, desired: VLANState)
    requires ValidState(Normalized(desired))
    ensures PlanOps(Normalized(current), Normalized(desired)) == [] <==> EqualStates(current, desired)
    ensures Covers(current) && current.portCount == desired.portCount ==>
              (EqualStates(current, desired) <==> current == Normalized(desired))
  {
    hide Phases, Covers, Sorted, EqualStates, Safe;
    var goal := Normalized(desired);
    NormalizedIdempotent(desired);
    ValidIsSafe(goal);
    EqualNormalized(current, desired);
    PhasesNotEmpty(Normalized(current), goal);
    if Covers(current) && current.portCount == desired.portCount {
      CoveringIsNormalized(current);
      EqualCoveringStates(current, goal);
    }
  }

  lemma EqualNormalized(current: VLANState, desired: VLANState)
    ensures EqualStates(Normalized(current), Normalized(desired)) <==> EqualStates(current, desired)
  {
    NormalizedIdempotent(current);
    NormalizedIdempotent(desired);
    hide Normalized;
  }

  lemma PhasesNotEmpty(current: VLANState, desired: VLANState)
    requires Covers(desired)
    ensures Phases(current, desired) != []
  {
    hide IsWireRow, Sorted, Step1, Step2;
    assert IsPort(1, desired.portCount);
    var vid := desired.pvids[1];
    assert vid in desired.pvids.Values;
    assert vid in Sorted(Batches(desired.pvids).Keys);
    SortedIn(Batches(desired.pvids).Keys);
    assert Moves(desired.pvids) != [];
  }

  // ---------------------------------------------------------------------
  // Continuity
  // ---------------------------------------------------------------------

  predicate Touches(step: WireStep, vid: int) {
    !step.Move? && step.vid == vid
  }

  ghost predicate Untouched(steps: seq<WireStep>, vid: int) {
    forall k :: 0 <= k < |steps| ==> !Touches(steps[k], vid)
  }

  lemma {:induction false} UntouchedRow(steps: seq<WireStep>, vid: int, s: VLANState)
    requires Untouched(steps, vid) && vid in s.vlans
    ensures vid in Run(steps, s).vlans && Run(steps, s).vlans[vid] == s.vlans[vid]
  {
    if steps != [] {
      assert !Touches(steps[0], vid);
      assert forall k :: 0 <= k < |steps[1..]| ==> steps[1..][k] == steps[k + 1];
      UntouchedRow(steps[1..], vid, Apply(steps[0], s));
    }
  }

  /** In a phase of membership writes a VLAN's row is written once. */
  lemma WrittenOnce(ch: Channel, step: map<int, Vlan>, vid: int) returns (before: seq<WireStep>, after: seq<WireStep>)
    requires vid in step
    ensures Steps(ch, Writes(step)) == before + [Write(vid, step[vid].ports)] + after
    ensures Untouched(before, vid) && Untouched(after, vid)
  {
    hide Sorted, Writes, Steps;
    WritesAre(ch, step);
    var vids, steps := Sorted(step.Keys), Steps(ch, Writes(step));
    assert vid in vids;
    var i :| 0 <= i < |vids| && vids[i] == vid;
    before, after := steps[..i], steps[i + 1..];
    OtherWritesUntouched(steps, vids, step, i);
  }

  lemma OtherWritesUntouched(steps: seq<WireStep>, vids: seq<int>, step: map<int, Vlan>, i: nat)
    requires IsWrites(steps, vids, step) && Ascending(vids) && i < |steps|
    ensures Untouched(steps[..i], vids[i]) && Untouched(steps[i + 1..], vids[i])
    ensures steps == steps[..i] + [Write(vids[i], step[vids[i]].ports)] + steps[i + 1..]
  {
    forall k | 0 <= k < |steps| && k != i
      ensures !Touches(steps[k], vids[i])
    {
      assert vids[k] != vids[i];
    }
    assert steps[i] == Write(vids[i], step[vids[i]].ports);
  }

  lemma OthersUntouched(ch: Channel, current: VLANState, desired: VLANState, vid: int)
    requires vid in current.vlans && vid in desired.vlans
    ensures Untouched(Steps(ch, AddOps(AddedIDs(current, desired))), vid)
    ensures Untouched(Steps(ch, Moves(desired.pvids)), vid)
    ensures Untouched(Steps(ch, DeleteOps(AddedIDs(desired, current))), vid)
  {
    hide Sorted;
    var added, removed := AddedIDs(current, desired), AddedIDs(desired, current);
    StepsOfAdds(ch, added);
    assert forall k :: 0 <= k < |added| ==> added[k] in added;
    MovesAre(ch, desired.pvids);
    StepsOfDeletes(ch, removed);
    assert forall k :: 0 <= k < |removed| ==> removed[k] in removed;
  }

  lemma UntouchedConcat(a: seq<WireStep>, b: seq<WireStep>, vid: int)
    requires Untouched(a, vid) && Untouched(b, vid)
    ensures Untouched(a + b, vid)
  {
  }

  /** Two writes of a row, and what the row is before, between and after them. */
  lemma RowBetweenWrites(a: seq<WireStep>, x: WireStep, b: seq<WireStep>, y: WireStep, c: seq<WireStep>,
                         vid: int, s: VLANState, k: nat)
    requires Untouched(a, vid) && Untouched(b, vid) && Untouched(c, vid) && vid in s.vlans
    requires x.Write? && x.vid == vid && y.Write? && y.vid == vid
    requires k <= |a + [x] + b + [y] + c|
    ensures var t := Run((a + [x] + b + [y] + c)[..k], s);
            && vid in t.vlans
            && t.vlans[vid] == if k <= |a| then s.vlans[vid]
                               else if k <= |a| + 1 + |b| then Vlan(vid, WireRow(x.row, s.portCount))
                               else Vlan(vid, WireRow(y.row, s.portCount))
  {
    var steps := a + [x] + b + [y] + c;
    if k <= |a| {
      assert steps[..k] == a[..k];
      assert Untouched(a[..k], vid);
      UntouchedRow(a[..k], vid, s);
    } else if k <= |a| + 1 + |b| {
      var front := b[..k - |a| - 1];
      assert steps[..k] == a + [x] + front;
      WriteThenUntouched(a, x, front, vid, s);
    } else {
      var front := c[..k - |a| - |b| - 2];
      assert steps[..k] == (a + [x] + b) + [y] + front;
      WriteThenUntouched(a + [x] + b, y, front, vid, s);
    }
  }

  lemma WriteThenUntouched(a: seq<WireStep>, x: WireStep, b: seq<WireStep>, vid: int, s: VLANState)
    requires x.Write? && x.vid == vid && Untouched(b, vid)
    ensures var t := Run(a + [x] + b, s);
            vid in t.vlans && t.vlans[vid] == Vlan(vid, WireRow(x.row, s.portCount))
  {
    hide WireRow;
    RunAppend(a + [x], b, s);
    RunAppend(a, [x], s);
    RunKeepsPortCount(a, s);
    OneStep(x, Run(a, s));
    UntouchedRow(b, vid, Run(a + [x], s));
  }

  lemma OneStep(x: WireStep, s: VLANState)
    ensures Run([x], s) == Apply(x, s)
  {
    assert [x][1..] == [];
  }

  /** A row in which a port is untagged when it is so now or shall be, and ignored only when both ignore it. */
  ghost predicate IsWidest(row: map<int, PortMembership>, current: map<int, PortMembership>,
                           desired: map<int, PortMembership>, portCount: int)
  {
    && (forall port :: port in row <==> IsPort(port, portCount))
    && (forall port :: port in row ==>
          && (row[port].Untagged? <==> Member(current, port).Untagged? || Member(desired, port).Untagged?)
          && (row[port].Ignored? <==> Member(current, port).Ignored? && Member(desired, port).Ignored?)
          && !row[port].Unknown?)
  }

  /**
   The row of a VLAN in both states passes through three values only, in this order: its
   current row, the widest of both, its desired row. It is the widest while PVIDs move.
   */
  lemma KeptRowsPassThroughTheMinimum(ch: Channel, current: VLANState, desired: VLANState, vid: int)
    returns (widened: nat, narrowed: nat)
    requires Covers(current) && Covers(desired) && current.portCount == desired.portCount && current != desired
    requires vid in current.vlans && vid in desired.vlans
    ensures widened <= narrowed <= |PlanSteps(ch, current, desired)|
    ensures forall k: nat :: k <= |PlanSteps(ch, current, desired)| ==>
              var t := Run(PlanSteps(ch, current, desired)[..k], current);
              && vid in t.vlans
              && (k < widened ==> t.vlans[vid].ports == current.vlans[vid].ports)
              && (widened <= k < narrowed ==>
                    IsWidest(t.vlans[vid].ports, current.vlans[vid].ports, desired.vlans[vid].ports, current.portCount))
              && (narrowed <= k ==> t.vlans[vid].ports == desired.vlans[vid].ports)
    ensures forall k: nat :: k < |PlanSteps(ch, current, desired)| && PlanSteps(ch, current, desired)[k].Move? ==>
              widened <= k && k + 1 < narrowed
  {
    hide Covers, Run, PlanSteps, IsWidest;
    widened, narrowed := RowsOnTheWay(ch, current, desired, vid);
    WidenedIsWidest(current, desired, vid);
  }

  lemma WidenedIsWidest(current: VLANState, desired: VLANState, vid: int)
    requires Covers(current) && Covers(desired) && current.portCount == desired.portCount
    requires vid in current.vlans && vid in desired.vlans
    ensures IsWidest(WidenedRow(current, desired, vid), current.vlans[vid].ports, desired.vlans[vid].ports,
                     current.portCount)
  {
    var row, now, goal := WidenedRow(current, desired, vid), current.vlans[vid].ports, desired.vlans[vid].ports;
    forall port | IsPort(port, current.portCount)
      ensures port in row && !row[port].Unknown?
      ensures row[port].Untagged? <==> now[port].Untagged? || goal[port].Untagged?
      ensures row[port].Ignored? <==> now[port].Ignored? && goal[port].Ignored?
    {
      assert port in now && port in goal && !now[port].Unknown? && !goal[port].Unknown?;
      MergedIs(now, goal, desired.portCount, port);
    }
    hide MinMembership;
  }

  lemma RowsOnTheWay(ch: Channel, current: VLANState, desired: VLANState, vid: int)
    returns (widened: nat, narrowed: nat)
    requires Covers(current) && Covers(desired) && current.portCount == desired.portCount && current != desired
    requires vid in current.vlans && vid in desired.vlans
    ensures widened <= narrowed <= |PlanSteps(ch, current, desired)|
    ensures forall k: nat :: k <= |PlanSteps(ch, current, desired)| ==>
              var t := Run(PlanSteps(ch, current, desired)[..k], current);
              && vid in t.vlans
              && t.vlans[vid].ports == if k < widened then current.vlans[vid].ports
                                       else if k < narrowed then WidenedRow(current, desired, vid)
                                       else desired.vlans[vid].ports
    ensures forall k: nat :: k < |PlanSteps(ch, current, desired)| && PlanSteps(ch, current, desired)[k].Move? ==>
              widened <= k && k + 1 < narrowed
  {
    hide Covers, EqualStates, Untouched, Run, Steps, Merged, Phases, Sorted;
    EqualCoveringStates(current, desired);
    StepsOfPhases(ch, current, desired);
    OthersUntouched(ch, current, desired, vid);
    var b1, a1 := WrittenOnce(ch, Step1(current, desired), vid);
    var b2, a2 := WrittenOnce(ch, Step2(current, desired), vid);
    var p1, p3 := Steps(ch, AddOps(AddedIDs(current, desired))), Steps(ch, Moves(desired.pvids));
    var p5 := Steps(ch, DeleteOps(AddedIDs(desired, current)));
    var x := Write(vid, Step1(current, desired)[vid].ports);
    var y := Write(vid, Step2(current, desired)[vid].ports);
    UntouchedConcat(p1, b1, vid);
    UntouchedConcat(a1, p3, vid);
    UntouchedConcat(a1 + p3, b2, vid);
    UntouchedConcat(a2, p5, vid);
    var steps := PlanSteps(ch, current, desired);
    Reassociate(p1, b1, x, a1, p3, b2, y, a2, p5);
    assert steps == (p1 + b1) + [x] + (a1 + p3 + b2) + [y] + (a2 + p5);
    widened, narrowed := |p1 + b1| + 1, |p1 + b1| + |a1 + p3 + b2| + 2;
    RowsOnWire(current, desired, vid);
    forall k: nat | k <= |steps|
      ensures var t := Run(steps[..k], current);
              && vid in t.vlans
              && t.vlans[vid].ports == if k < widened then current.vlans[vid].ports
                                       else if k < narrowed then WidenedRow(current, desired, vid)
                                       else desired.vlans[vid].ports
    {
      RowBetweenWrites(p1 + b1, x, a1 + p3 + b2, y, a2 + p5, vid, current, k);
    }
    NoMoveInWrites(ch, current, desired);
    MovesInside(steps, p1, b1, x, a1, p3, b2, y, a2, p5);
  }

  predicate NoMoves(steps: seq<WireStep>) {
    forall k :: 0 <= k < |steps| ==> !steps[k].Move?
  }

  lemma NoMoveInWrites(ch: Channel, current: VLANState, desired: VLANState)
    ensures NoMoves(Steps(ch, AddOps(AddedIDs(current, desired))))
    ensures NoMoves(Steps(ch, Writes(Step1(current, desired)))) && NoMoves(Steps(ch, Writes(Step2(current, desired))))
    ensures NoMoves(Steps(ch, DeleteOps(AddedIDs(desired, current))))
  {
    hide Sorted, Writes, Steps, Step1, Step2;
    StepsOfAdds(ch, AddedIDs(current, desired));
    WritesAre(ch, Step1(current, desired));
    WritesAre(ch, Step2(current, desired));
    StepsOfDeletes(ch, AddedIDs(desired, current));
  }

  lemma MovesInside(steps: seq<WireStep>, p1: seq<WireStep>, b1: seq<WireStep>, x: WireStep, a1: seq<WireStep>,
                    p3: seq<WireStep>, b2: seq<WireStep>, y: WireStep, a2: seq<WireStep>, p5: seq<WireStep>)
    requires steps == (p1 + b1) + [x] + (a1 + p3 + b2) + [y] + (a2 + p5)
    requires NoMoves(p1) && NoMoves(b1 + [x] + a1) && NoMoves(b2 + [y] + a2) && NoMoves(p5)
    ensures forall k: nat :: k < |steps| && steps[k].Move? ==>
              |p1 + b1| + 1 <= k && k + 1 < |p1 + b1| + |a1 + p3 + b2| + 2
  {
    var front, back := p1 + (b1 + [x] + a1), (b2 + [y] + a2) + p5;
    assert NoMoves(front) && NoMoves(back);
    assert steps == front + p3 + back;
    MovesInMiddle(front, p3, back);
  }

  lemma MovesInMiddle(front: seq<WireStep>, middle: seq<WireStep>, back: seq<WireStep>)
    requires NoMoves(front) && NoMoves(back)
    ensures forall k :: 0 <= k < |front + middle + back| && (front + middle + back)[k].Move? ==>
              |front| <= k < |front| + |middle|
  {
  }

  lemma Reassociate(p1: seq<WireStep>, b1: seq<WireStep>, x: WireStep, a1: seq<WireStep>, p3: seq<WireStep>,
                    b2: seq<WireStep>, y: WireStep, a2: seq<WireStep>, p5: seq<WireStep>)
    ensures p1 + (b1 + [x] + a1) + p3 + (b2 + [y] + a2) + p5
         == (p1 + b1) + [x] + (a1 + p3 + b2) + [y] + (a2 + p5)
  {
    assert p1 + (b1 + [x] + a1) + p3 == (p1 + b1) + [x] + (a1 + p3);
  }

  lemma RowsOnWire(current: VLANState, desired: VLANState, vid: int)
    requires Covers(current) && Covers(desired) && current.portCount == desired.portCount
    requires vid in current.vlans && vid in desired.vlans
    ensures WireRow(WidenedRow(current, desired, vid), current.portCount) == WidenedRow(current, desired, vid)
    ensures WireRow(desired.vlans[vid].ports, current.portCount) == desired.vlans[vid].ports
  {
    hide IsWireRow, CarriesPVID, WireRow, Merged;
    MergedIsWireRow(current.vlans[vid].ports, desired.vlans[vid].ports, current.portCount);
    RowIsNormalized(WidenedRow(current, desired, vid), current.portCount);
    RowIsNormalized(desired.vlans[vid].ports, current.portCount);
  }

  lemma {:induction false} GrowsWithoutDrops(steps: seq<WireStep>, s: VLANState)
    requires forall k :: 0 <= k < |steps| ==> !steps[k].Drop?
    ensures s.vlans.Keys <= Run(steps, s).vlans.Keys
  {
    if steps != [] {
      assert !steps[0].Drop?;
      assert forall k :: 0 <= k < |steps[1..]| ==> steps[1..][k] == steps[k + 1];
      var next := Apply(steps[0], s);
      assert s.vlans.Keys <= next.vlans.Keys;
      GrowsWithoutDrops(steps[1..], next);
    }
  }

  lemma {:induction false} NoDropSteps(ch: Channel, ops: seq<VLANOp>)
    requires forall op :: op in ops ==> !op.DeleteVLANs?
    ensures forall k :: 0 <= k < |Steps(ch, ops)| ==> !Steps(ch, ops)[k].Drop?
  {
    if ops != [] {
      assert ops[0] in ops;
      assert forall op :: op in ops[1..] ==> op in ops;
      NoDropSteps(ch, ops[1..]);
    }
  }

  /** With nothing to remove the plan deletes nothing and the VLAN set only grows. */
  lemma NothingRemovedOnlyGrows(ch: Channel, current: VLANState, desired: VLANState, k: nat, l: nat)
    requires forall vid :: vid in current.vlans ==> vid in desired.vlans
    requires k <= l <= |PlanSteps(ch, current, desired)|
    ensures forall op :: op in PlanOps(current, desired) ==> !op.DeleteVLANs?
    ensures var steps := PlanSteps(ch, current, desired);
            Run(steps[..k], current).vlans.Keys <= Run(steps[..l], current).vlans.Keys
  {
    hide Run, Steps, Step1, Step2, Sorted;
    NoDeletes(current, desired);
    var steps := PlanSteps(ch, current, desired);
    NoDropSteps(ch, PlanOps(current, desired));
    assert steps[..l] == steps[..k] + steps[k..l];
    RunAppend(steps[..k], steps[k..l], current);
    GrowsWithoutDrops(steps[k..l], Run(steps[..k], current));
  }

  lemma NoDeletes(current: VLANState, desired: VLANState)
    requires forall vid :: vid in current.vlans ==> vid in desired.vlans
    ensures forall op :: op in PlanOps(current, desired) ==> !op.DeleteVLANs?
  {
    hide Step1, Step2, Sorted, EqualStates, Batches;
    var removed := AddedIDs(desired, current);
    NothingInEmpty(removed);
    SortedIn(Step1(current, desired).Keys);
    SortedIn(Step2(current, desired).Keys);
    SortedIn(Batches(desired.pvids).Keys);
  }

  // ---------------------------------------------------------------------
  // A plan made from a part of the switch
  // ---------------------------------------------------------------------

  /** The same ports and PVIDs, and some of the VLANs, with their rows. */
  ghost predicate PartOf(part: VLANState, whole: VLANState) {
    && part.portCount == whole.portCount && part.pvids == whole.pvids
    && forall vid :: vid in part.vlans ==> vid in whole.vlans && whole.vlans[vid] == part.vlans[vid]
  }

  /** Writes that create nothing on their own and delete none of these VLANs. */
  predicate Spares(steps: seq<WireStep>, more: set<int>) {
    forall k :: 0 <= k < |steps| ==> !steps[k].Create? && (steps[k].Drop? ==> steps[k].vid !in more)
  }

  /** The same writes on a part and on the whole: the whole keeps the part, and the other VLANs. */
  lemma {:induction false} PartRuns(steps: seq<WireStep>, part: VLANState, whole: VLANState, more: set<int>)
    requires PartOf(part, whole) && whole.vlans.Keys == part.vlans.Keys + more && Spares(steps, more)
    ensures PartOf(Run(steps, part), Run(steps, whole))
    ensures Run(steps, whole).vlans.Keys == Run(steps, part).vlans.Keys + more
  {
    hide WireRow;
    if steps != [] {
      assert Spares(steps[1..], more);
      var next, after := Apply(steps[0], part), Apply(steps[0], whole);
      assert !steps[0].Create? && (steps[0].Drop? ==> steps[0].vid !in more);
      assert after.vlans.Keys == next.vlans.Keys + more;
      PartRuns(steps[1..], next, after, more);
    }
  }

  lemma {:induction false} StepsSpare(ops: seq<VLANOp>, more: set<int>)
    requires forall op :: op in ops && op.DeleteVLANs? ==> forall vid :: vid in op.vids ==> vid !in more
    ensures Spares(Steps(Nsdp, ops), more)
  {
    if ops != [] {
      assert ops[0] in ops;
      assert forall op :: op in ops[1..] ==> op in ops;
      StepsSpare(ops[1..], more);
    }
  }

  /** A plan deletes only VLANs that the state it is made from has. */
  lemma PlanSpares(current: VLANState, desired: VLANState, more: set<int>)
    requires current.vlans.Keys !! more
    ensures Spares(PlanSteps(Nsdp, current, desired), more)
  {
    hide Steps, Step1, Step2, Sorted, EqualStates, Batches, Spares;
    var removed := AddedIDs(desired, current);
    SortedIn(current.vlans.Keys - desired.vlans.Keys);
    SortedIn(Step1(current, desired).Keys);
    SortedIn(Step2(current, desired).Keys);
    SortedIn(Batches(desired.pvids).Keys);
    StepsSpare(PlanOps(current, desired), more);
  }

  /** What is carried, kept and safe in a part is so in the whole, and what a part takes the whole takes. */
  lemma PartCarries(current: VLANState, desired: VLANState, part: VLANState, whole: VLANState)
    requires PartOf(part, whole)
    ensures StillCarried(current, part) ==> StillCarried(current, whole)
    ensures Kept(current, desired, part) ==> Kept(current, desired, whole)
    ensures Safe(part) ==> Safe(whole)
    ensures forall step: WireStep :: !step.Create? && Accepts(Nsdp, step, part) ==> Accepts(Nsdp, step, whole)
  {
    assert forall vid, port :: vid in part.vlans ==> MembershipIn(whole, vid, port) == MembershipIn(part, vid, port);
  }

  /**
   A plan made from a part of the switch, carried out on the whole of it: what the part
   shows is safe all along, and in the end the switch is in the desired state if and only
   if every VLAN that was left out is a desired one.
   */
  lemma PlanOfPart(part: VLANState, whole: VLANState, desired: VLANState, k: nat)
    requires Applies(part, desired) && PartOf(part, whole)
    requires k <= |PlanSteps(Nsdp, part, Normalized(desired))|
    ensures var goal := Normalized(desired);
            var steps := PlanSteps(Nsdp, part, goal);
            var t := Run(steps[..k], whole);
            && StillCarried(part, t) && Kept(part, goal, t)
            && (MovesEnd(Nsdp, part, goal) <= k ==> Safe(t))
            && (k < |steps| ==> Accepts(Nsdp, steps[k], t))
            && (k == |steps| ==>
                  (t == goal <==> whole.vlans.Keys <= part.vlans.Keys + goal.vlans.Keys))
  {
    hide Run, PlanSteps, Normalized, Covers, Kept, StillCarried, Safe, Accepts, MovesEnd, PartOf, Spares, ValidState;
    var goal := Normalized(desired);
    var steps := PlanSteps(Nsdp, part, goal);
    var more := whole.vlans.Keys - part.vlans.Keys;
    PlanSpares(part, goal, more);
    SparesFront(steps, k, more);
    PartKeys(part, whole);
    PartRuns(steps[..k], part, whole, more);
    var s, t := Run(steps[..k], part), Run(steps[..k], whole);
    SafeAtEveryWrite(Nsdp, part, desired, k);
    PartCarries(part, goal, s, t);
    if k == |steps| {
      assert steps[..k] == steps;
      Converges(Nsdp, part, desired);
      PartIsWhole(s, t, more);
    }
  }

  lemma PartKeys(part: VLANState, whole: VLANState)
    requires PartOf(part, whole)
    ensures whole.vlans.Keys == part.vlans.Keys + (whole.vlans.Keys - part.vlans.Keys)
  {
    assert forall vid :: vid in part.vlans.Keys ==> vid in whole.vlans;
  }

  lemma SparesFront(steps: seq<WireStep>, k: nat, more: set<int>)
    requires Spares(steps, more) && k <= |steps|
    ensures Spares(steps[..k], more)
    ensures k < |steps| ==> !steps[k].Create?
  {
  }

  lemma PartIsWhole(part: VLANState, whole: VLANState, more: set<int>)
    requires PartOf(part, whole) && whole.vlans.Keys == part.vlans.Keys + more
    ensures whole == part <==> more <= part.vlans.Keys
  {
    if more <= part.vlans.Keys {
      var l, r := whole.vlans, part.vlans;
      forall vid
        ensures vid in l <==> vid in r
        ensures vid in l ==> l[vid] == r[vid]
      {
        assert vid in whole.vlans.Keys <==> vid in part.vlans.Keys + more;
      }
      assert l == r;
    }
  }
}
