/**
 The planner's applier over NSDP: each op becomes SETs, and whatever the link loses the
 switch ends up after some prefix of the plan's writes.
 */
module Transport {
  import opened Wrappers
  import opened Bits
  import opened Wire
  import opened Agent
  import opened Session
  import opened Client
  import opened VlanState
  import opened VlanPlan
  import opened Transition
  import opened Convergence
  import opened VlanTables
  import opened SwitchRead

  // ---------------------------------------------------------------------
  // Progress along the writes of a plan
  // ---------------------------------------------------------------------

  /** The first k writes, and nothing else, have been applied. */
  ghost predicate Progress(a: AgentState, was: AgentState, steps: seq<WireStep>, k: nat) {
    && k <= |steps| && AllEncodable(steps[..k]) && |was.tables.pvid| == PORTS
    && (forall i :: 0 <= i < |Payloads(steps[..k])| ==> WellFormedSet(Payloads(steps[..k])[i]))
    && a.log == was.log + Payloads(steps[..k])
    && a.tables == Played(was.tables, Payloads(steps[..k]))
  }

  lemma NoProgress(a: AgentState, was: AgentState, steps: seq<WireStep>)
    requires SameConfig(a, was) && |was.tables.pvid| == PORTS
    ensures Progress(a, was, steps, 0)
  {
    assert steps[..0] == [];
    assert Payloads([]) == [];
  }

  /** One more value applied is one more write done. */
  lemma ProgressStep(b: AgentState, a: AgentState, was: AgentState, steps: seq<WireStep>, k: nat)
    requires k < |steps| && Progress(a, was, steps, k) && Encodable(steps[k])
    requires WellFormedSet(Payload(steps[k])) && AppliedOnce(b, a, Payload(steps[k]))
    ensures Progress(b, was, steps, k + 1)
  {
    hide Payload, WellFormedSet, Applied, Encodable;
    var front := steps[..k + 1];
    assert front[..k] == steps[..k] && front[k] == steps[k];
    var payloads := Payloads(steps[..k]);
    assert Payloads(front) == payloads + [Payload(steps[k])];
    assert Payloads(front)[..|payloads|] == payloads;
  }

  /** What leaves the configuration alone keeps the progress. */
  lemma ProgressKept(b: AgentState, a: AgentState, was: AgentState, steps: seq<WireStep>, k: nat)
    requires Progress(a, was, steps, k) && SameConfig(b, a)
    ensures Progress(b, was, steps, k)
  {
    hide Played, WellFormedSet;
  }

  lemma {:induction false} PlayedAll(t: Tables, one: seq<TLV>, two: seq<TLV>)
    requires |t.pvid| == PORTS
    requires forall i :: 0 <= i < |one| ==> WellFormedSet(one[i])
    requires forall i :: 0 <= i < |two| ==> WellFormedSet(two[i])
    ensures forall i :: 0 <= i < |one + two| ==> WellFormedSet((one + two)[i])
    ensures Played(t, one + two) == Played(Played(t, one), two)
  {
    hide WellFormedSet, Applied;
    if two == [] {
      assert one + two == one;
    } else {
      var n := |two| - 1;
      PlayedAll(t, one, two[..n]);
      assert (one + two)[..|one| + n] == one + two[..n];
    }
  }

  lemma {:induction false} PayloadsAppend(one: seq<WireStep>, two: seq<WireStep>)
    requires AllEncodable(one) && AllEncodable(two)
    ensures AllEncodable(one + two) && Payloads(one + two) == Payloads(one) + Payloads(two)
  {
    hide Payload, Encodable;
    if two == [] {
      assert one + two == one;
    } else {
      var n := |two| - 1;
      PayloadsAppend(one, two[..n]);
      assert (one + two)[..|one| + n] == one + two[..n];
    }
  }

  /** All of some writes and then some of others. */
  lemma ProgressAppend(b: AgentState, a: AgentState, was: AgentState, one: seq<WireStep>, two: seq<WireStep>, k: nat)
    requires Progress(a, was, one, |one|) && Progress(b, a, two, k)
    ensures Progress(b, was, one + two, |one| + k)
  {
    hide WellFormedSet, Payloads, Encodable;
    assert one[..|one|] == one && (one + two)[..|one| + k] == one + two[..k];
    PayloadsAppend(one, two[..k]);
    PlayedAll(was.tables, Payloads(one), Payloads(two[..k]));
  }

  /** After any progress the tables decode to the run of the writes done. */
  lemma ProgressRefines(a: AgentState, was: AgentState, steps: seq<WireStep>, k: nat)
    requires Progress(a, was, steps, k) && Sound(was.tables)
    ensures Sound(a.tables) && Decode(a.tables) == Run(steps[..k], Decode(was.tables))
  {
    hide WellFormedSet, Payloads, Played, Decode, Sound, Run;
    PayloadsRefine(was.tables, steps[..k]);
  }

  // ---------------------------------------------------------------------
  // The typed SETs
  // ---------------------------------------------------------------------

  /** One write carried out, or not. */
  ghost predicate StepDone(err: Option<ClientError>, a: AgentState, was: AgentState, step: WireStep, clear: bool) {
    && (SameConfig(a, was)
        || (Encodable(step) && WellFormedSet(Payload(step)) && AppliedOnce(a, was, Payload(step))))
    && (err.None? ==> Encodable(step) && WellFormedSet(Payload(step)) && AppliedOnce(a, was, Payload(step)))
    && (err.Some? ==> (err.value == OutOfRange && !Encodable(step)) || (err.value == NoAnswer && !clear))
  }

  lemma SetRawDone(err: Option<ClientError>, a: AgentState, was: AgentState, step: WireStep, clear: bool, t: TLV)
    requires Encodable(step) && t == Payload(step)
    requires SameConfig(a, was) || (WellFormedSet(t) && AppliedOnce(a, was, t))
    requires err.None? ==> WellFormedSet(t) && AppliedOnce(a, was, t)
    requires err.Some? && err.value != NoAnswer ==> !WellFormedSet(t)
    requires err.Some? && clear ==> !WellFormedSet(t)
    ensures StepDone(err, a, was, step, clear)
  {
    PayloadIsWellFormed(step);
    hide WellFormedSet, Payload, Encodable, Applied;
  }

  /** The value of a membership SET: members, and tagged members. */
  method Vlan8021QPayload(vid: int, tagged: seq<int>, untagged: seq<int>) returns (buf: seq<byte>)
    requires 0 <= vid <= MAX_VID
    ensures |buf| == 4 && buf[0] == High(vid) && buf[1] == Low(vid)
    ensures forall port :: InRange(port) ==> (Bit(buf[2], port) <==> port in tagged || port in untagged)
    ensures forall port :: InRange(port) ==> (Bit(buf[3], port) <==> port in tagged)
  {
    hide Bit, Or;
    var t := PortBitmap(tagged);
    var u := PortBitmap(untagged);
    buf := [High(vid), Low(vid), Or(t, u), t];
    forall port | InRange(port)
      ensures Bit(buf[2], port) <==> port in tagged || port in untagged
    {
      OrBits(t, u, port);
    }
  }

  method Set8021QVLAN(client: Client, vid: int, tagged: seq<int>, untagged: seq<int>,
                      ghost row: map<int, PortMembership>)
    returns (err: Option<ClientError>)
    requires client.Valid() && client.link.sent + CALL_REQUESTS <= MODULUS
    requires forall port :: InRange(port) ==> (port in tagged <==> Member(row, port) == Tagged)
    requires forall port :: InRange(port) ==> (port in untagged <==> Member(row, port) == Untagged)
    modifies client, client.link, client.link.agent, client.link.agent.nonce, client.link.agent.pvid
    ensures client.Valid() && old(client.link.sent) <= client.link.sent <= old(client.link.sent) + CALL_REQUESTS
    ensures StepDone(err, client.link.agent.State(), old(client.link.agent.State()), Write(vid, row),
                     client.AllClear(old(client.link.sent)))
    ensures err == Some(OutOfRange) <==> !(0 <= vid <= 4095)
  {
    hide Payload, WellFormedSet, Applied, FromBefore, Number, Bit, High, Low, Clear;
    if vid < 0 || vid > 4095 {
      return Some(OutOfRange);
    }
    var buf := Vlan8021QPayload(vid, tagged, untagged);
    SamePayload(vid, row, buf);
    err := client.SetRaw(TAG_8021Q, buf);
    SetRawDone(err, client.link.agent.State(), old(client.link.agent.State()), Write(vid, row),
               client.AllClear(old(client.link.sent)), TLV(TAG_8021Q, buf));
  }

  lemma SamePayload(vid: int, row: map<int, PortMembership>, buf: seq<byte>)
    requires 0 <= vid <= MAX_VID && |buf| == 4 && buf[0] == High(vid) && buf[1] == Low(vid)
    requires forall port :: InRange(port) ==>
               (Bit(buf[2], port) <==> Member(row, port) == Tagged || Member(row, port) == Untagged)
    requires forall port :: InRange(port) ==> (Bit(buf[3], port) <==> Member(row, port) == Tagged)
    ensures TLV(TAG_8021Q, buf) == Payload(Write(vid, row))
  {
    hide Bit, Or, RowBitmap, High, Low;
    var tagged, untagged := RowBitmap(row, Tagged), RowBitmap(row, Untagged);
    forall port | InRange(port)
      ensures Bit(Or(tagged, untagged), port) <==> Bit(buf[2], port)
      ensures Bit(tagged, port) <==> Bit(buf[3], port)
    {
      RowBits(row, Tagged, port);
      RowBits(row, Untagged, port);
      OrBits(tagged, untagged, port);
    }
    SameBits(Or(tagged, untagged), buf[2]);
    SameBits(tagged, buf[3]);
    assert buf == [buf[0], buf[1], buf[2], buf[3]];
  }

  method SetPVID(client: Client, port: int, vid: int) returns (err: Option<ClientError>)
    requires client.Valid() && client.link.sent + CALL_REQUESTS <= MODULUS
    modifies client, client.link, client.link.agent, client.link.agent.nonce, client.link.agent.pvid
    ensures client.Valid() && old(client.link.sent) <= client.link.sent <= old(client.link.sent) + CALL_REQUESTS
    ensures StepDone(err, client.link.agent.State(), old(client.link.agent.State()), Move(port, vid),
                     client.AllClear(old(client.link.sent)))
    ensures err == Some(OutOfRange) <==> !(1 <= port <= 8) || !(0 <= vid <= 4095)
  {
    hide WellFormedSet, Applied, FromBefore, Number, High, Low, Clear;
    if port < 1 || port > 8 {
      return Some(OutOfRange);
    }
    if vid < 0 || vid > 4095 {
      return Some(OutOfRange);
    }
    var buf: seq<byte> := [port, High(vid), Low(vid)];
    err := client.SetRaw(TAG_PVID, buf);
    SetRawDone(err, client.link.agent.State(), old(client.link.agent.State()), Move(port, vid),
               client.AllClear(old(client.link.sent)), TLV(TAG_PVID, buf));
  }

  method Delete8021QVLAN(client: Client, vid: int) returns (err: Option<ClientError>)
    requires client.Valid() && client.link.sent + CALL_REQUESTS <= MODULUS
    modifies client, client.link, client.link.agent, client.link.agent.nonce, client.link.agent.pvid
    ensures client.Valid() && old(client.link.sent) <= client.link.sent <= old(client.link.sent) + CALL_REQUESTS
    ensures StepDone(err, client.link.agent.State(), old(client.link.agent.State()), Drop(vid),
                     client.AllClear(old(client.link.sent)))
    ensures err == Some(OutOfRange) <==> !(0 <= vid <= 4095)
  {
    hide WellFormedSet, Applied, FromBefore, Number, High, Low, Clear;
    if vid < 0 || vid > 4095 {
      return Some(OutOfRange);
    }
    var buf: seq<byte> := [High(vid), Low(vid)];
    err := client.SetRaw(TAG_DELETE_8021Q, buf);
    SetRawDone(err, client.link.agent.State(), old(client.link.agent.State()), Drop(vid),
               client.AllClear(old(client.link.sent)), TLV(TAG_DELETE_8021Q, buf));
  }

  // ---------------------------------------------------------------------
  // The applier
  // ---------------------------------------------------------------------

  /** How far a list of writes got: all of it without an error; a loss or a value off the wire's range stops it. */
  ghost predicate ListDone(err: Option<ClientError>, a: AgentState, was: AgentState, steps: seq<WireStep>,
                           k: nat, clear: bool) {
    && Progress(a, was, steps, k)
    && (err.None? ==> k == |steps|)
    && (err.Some? ==> (err.value == OutOfRange && !AllEncodable(steps)) || (err.value == NoAnswer && !clear))
  }

  /** The next write of a list. */
  lemma NextDone(err: Option<ClientError>, b: AgentState, a: AgentState, was: AgentState, steps: seq<WireStep>, k: nat,
                 clear: bool, all: bool)
    requires k < |steps| && Progress(a, was, steps, k) && StepDone(err, b, a, steps[k], clear)
    requires all ==> clear
    ensures err.None? ==> Progress(b, was, steps, k + 1)
    ensures err.Some? ==> exists l: nat :: ListDone(err, b, was, steps, l, all)
  {
    hide Progress, WellFormedSet, Payload, Applied, Encodable;
    if SameConfig(b, a) {
      ProgressKept(b, a, was, steps, k);
      if err.Some? {
        assert ListDone(err, b, was, steps, k, all);
      } else {
        ProgressStep(b, a, was, steps, k);
      }
    } else {
      ProgressStep(b, a, was, steps, k);
      if err.Some? {
        assert ListDone(err, b, was, steps, k + 1, all);
      }
    }
  }

  class NsdpSwitchTransport {
    const client: Client

    constructor (client: Client)
      ensures this.client == client
    {
      this.client := client;
    }

    ghost predicate Valid()
      reads client, client.link, client.link.agent, client.link.agent.nonce, client.link.agent.pvid
    {
      client.Valid()
    }

    /** The agent's state. */
    ghost function Switch(): AgentState
      reads client, client.link, client.link.agent, client.link.agent.nonce, client.link.agent.pvid
      requires Valid()
    {
      client.link.agent.State()
    }

    /** Nothing is created: the membership write does it. */
    method AddVLAN(vid: int) returns (err: Option<ClientError>)
      ensures err == None && Steps(Nsdp, [VLANOp.AddVLAN(vid)]) == []
    {
      assert Steps(Nsdp, []) == [];
      return None;
    }

    /** Splits the row into tagged and untagged ports and writes it. */
    method SetMembership(vid: int, ports: map<int, PortMembership>) returns (err: Option<ClientError>)
      requires Valid() && client.link.sent + CALL_REQUESTS <= MODULUS
      modifies client, client.link, client.link.agent, client.link.agent.nonce, client.link.agent.pvid
      ensures Valid() && old(client.link.sent) <= client.link.sent <= old(client.link.sent) + CALL_REQUESTS
      ensures StepDone(err, Switch(), old(Switch()), Write(vid, ports), client.AllClear(old(client.link.sent)))
    {
      hide Payload, WellFormedSet, Applied, FromBefore, Number, Clear;
      var tagged: seq<int>, untagged: seq<int> := [], [];
      for port := 1 to PORTS + 1
        invariant forall p :: p in tagged <==> 1 <= p < port && Member(ports, p) == Tagged
        invariant forall p :: p in untagged <==> 1 <= p < port && Member(ports, p) == Untagged
      {
        match Member(ports, port) {
          case Tagged => tagged := tagged + [port];
          case Untagged => untagged := untagged + [port];
          case _ =>
        }
      }
      err := Set8021QVLAN(client, vid, tagged, untagged, ports);
    }

    /** One PVID write per port, in the order given. */
    method SetPVIDs(vid: int, ports: seq<int>) returns (err: Option<ClientError>, ghost k: nat)
      requires Valid() && client.link.sent + |ports| * CALL_REQUESTS <= MODULUS
      modifies client, client.link, client.link.agent, client.link.agent.nonce, client.link.agent.pvid
      ensures Valid() && old(client.link.sent) <= client.link.sent <= old(client.link.sent) + |ports| * CALL_REQUESTS
      ensures ListDone(err, Switch(), old(Switch()), StepsOfOp(Nsdp, VLANOp.SetPVIDs(vid, ports)), k,
                       client.AllClear(old(client.link.sent)))
    {
      hide Payload, WellFormedSet, Applied, FromBefore, Number, Clear, Progress, ListDone, StepDone;
      ghost var steps := StepsOfOp(Nsdp, VLANOp.SetPVIDs(vid, ports));
      ghost var was, start := Switch(), client.link.sent;
      NoProgress(was, was, steps);
      for i := 0 to |ports|
        invariant Valid() && client.link.sent <= start + i * CALL_REQUESTS && start <= client.link.sent
        invariant Progress(Switch(), was, steps, i)
      {
        ghost var a, before := Switch(), client.link.sent;
        Budget(i, |ports|);
        err := SetPVID(client, ports[i], vid);
        NextDone(err, Switch(), a, was, steps, i, client.AllClear(before), client.AllClear(start));
        if err.Some? {
          k :| ListDone(err, Switch(), was, steps, k, client.AllClear(start));
          return;
        }
      }
      AllDone(Switch(), was, steps, client.AllClear(start));
      return None, |ports|;
    }

    /** One delete per id, in the order given. */
    method DeleteVLANs(vids: seq<int>) returns (err: Option<ClientError>, ghost k: nat)
      requires Valid() && client.link.sent + |vids| * CALL_REQUESTS <= MODULUS
      modifies client, client.link, client.link.agent, client.link.agent.nonce, client.link.agent.pvid
      ensures Valid() && old(client.link.sent) <= client.link.sent <= old(client.link.sent) + |vids| * CALL_REQUESTS
      ensures ListDone(err, Switch(), old(Switch()), StepsOfOp(Nsdp, VLANOp.DeleteVLANs(vids)), k,
                       client.AllClear(old(client.link.sent)))
    {
      hide Payload, WellFormedSet, Applied, FromBefore, Number, Clear, Progress, ListDone, StepDone;
      ghost var steps := StepsOfOp(Nsdp, VLANOp.DeleteVLANs(vids));
      ghost var was, start := Switch(), client.link.sent;
      NoProgress(was, was, steps);
      for i := 0 to |vids|
        invariant Valid() && client.link.sent <= start + i * CALL_REQUESTS && start <= client.link.sent
        invariant Progress(Switch(), was, steps, i)
      {
        ghost var a, before := Switch(), client.link.sent;
        Budget(i, |vids|);
        err := Delete8021QVLAN(client, vids[i]);
        NextDone(err, Switch(), a, was, steps, i, client.AllClear(before), client.AllClear(start));
        if err.Some? {
          k :| ListDone(err, Switch(), was, steps, k, client.AllClear(start));
          return;
        }
      }
      AllDone(Switch(), was, steps, client.AllClear(start));
      return None, |vids|;
    }

    /** model.Run: the ops in order, up to the first error. */
    method Run(ops: seq<VLANOp>) returns (err: Option<ClientError>, ghost k: nat)
      requires Valid() && client.link.sent + |Steps(Nsdp, ops)| * CALL_REQUESTS <= MODULUS
      modifies client, client.link, client.link.agent, client.link.agent.nonce, client.link.agent.pvid
      ensures Valid()
      ensures old(client.link.sent) <= client.link.sent <= old(client.link.sent) + |Steps(Nsdp, ops)| * CALL_REQUESTS
      ensures ListDone(err, Switch(), old(Switch()), Steps(Nsdp, ops), k, client.AllClear(old(client.link.sent)))
    {
      hide Payload, WellFormedSet, Applied, FromBefore, Number, Clear, Progress, ListDone, StepDone, Steps,
        StepsOfOp;
      ghost var was, start, all := Switch(), client.link.sent, Steps(Nsdp, ops);
      NoSteps(ops);
      NoProgress(was, was, []);
      for i := 0 to |ops|
        invariant Valid() && start <= client.link.sent <= start + |Steps(Nsdp, ops[..i])| * CALL_REQUESTS
        invariant Progress(Switch(), was, Steps(Nsdp, ops[..i]), |Steps(Nsdp, ops[..i])|)
      {
        ghost var done, mine := Steps(Nsdp, ops[..i]), StepsOfOp(Nsdp, ops[i]);
        ghost var a, before, l := Switch(), client.link.sent, 0;
        StepsSplit(ops, i);
        BudgetSplit(|done|, |mine|, |all|);
        OneWrite(ops[i]);
        match ops[i] {
          case AddVLAN(vid) =>
            err := AddVLAN(vid);
            NothingDone(Switch(), mine, client.AllClear(before));
          case SetMembership(vid, ports) =>
            err := SetMembership(vid, ports);
            l := SingleDone(err, Switch(), a, mine, client.AllClear(before));
          case SetPVIDs(vid, ports) =>
            err, l := SetPVIDs(vid, ports);
          case DeleteVLANs(vids) =>
            err, l := DeleteVLANs(vids);
        }
        ListAppends(err, Switch(), a, was, done, mine, all, l, client.AllClear(before), client.AllClear(start));
        if err.Some? {
          return err, |done| + l;
        }
      }
      assert ops[..|ops|] == ops;
      AllDone(Switch(), was, all, client.AllClear(start));
      return None, |all|;
    }

    /**
     Converges the switch to the desired state. The plan is made from what a read shows, the
     first 508 entries of the VLAN table. Whatever the link loses, the switch ends up after
     some prefix of the plan's writes: every port that was seen safe still is, no kept
     membership that was seen has lapsed, and the tables are fit for another apply. Without
     an error every port is safe, and the tables hold the desired state if and only if every
     entry behind the first 508 was one of a desired VLAN. Without loss only an invalid state,
     an id off the wire's range, or a table longer than a datagram is an error.
     */
    method ApplyVLANState(desired: VLANState) returns (err: Option<ApplyError>, ghost k: nat)
      requires Valid() && Sound(Switch().tables)
      requires client.link.sent + 2 * DEFAULT_ATTEMPTS + |PlanOf(Switch().tables, desired)| * CALL_REQUESTS <= MODULUS
      modifies client, client.link, client.link.agent, client.link.agent.nonce, client.link.agent.pvid
      ensures Valid() && Progress(Switch(), old(Switch()), PlanOf(old(Switch().tables), desired), k)
      ensures err.Some? && err.value.Invalid? <==> !ValidState(Normalized(desired))
      ensures err.None? ==> k == |PlanOf(old(Switch().tables), desired)|
      ensures err.Some? && client.AllClear(old(client.link.sent)) ==>
                || !ValidState(Normalized(desired)) || !AllEncodable(PlanOf(old(Switch().tables), desired))
                || |old(Switch().tables).vlans| > MAX_SENT
      ensures Sound(Switch().tables)
      ensures ValidState(Normalized(desired)) && desired.portCount == PORTS ==>
                var seen := Decode(ReadTables(old(Switch().tables)));
                && StillCarried(seen, Decode(Switch().tables))
                && Kept(seen, Normalized(desired), Decode(Switch().tables))
                && (err.None? ==> Safe(Decode(Switch().tables)))
                && (err.None? ==>
                      (Decode(Switch().tables) == Normalized(desired) <==>
                         AllDesired(old(Switch().tables), Normalized(desired))))
      ensures |old(Switch().tables).vlans| <= MAX_ENTRIES ==>
                && ReadTables(old(Switch().tables)) == old(Switch().tables)
                && AllDesired(old(Switch().tables), Normalized(desired))
    {
      hide FromBefore, Clear, Number, Progress, Decode, PlanOf, ValidState, PlanOps, Normalized,
        AllEncodable, Sound, Steps, StillCarried, Kept, Safe, FirstEntries, AllDesired;
      ShortTable(Switch().tables, Normalized(desired));
      ReadStaysSound(Switch().tables);
      ghost var was, start, steps := Switch(), client.link.sent, PlanOf(Switch().tables, desired);
      NoProgress(was, was, steps);
      k := 0;
      StillReady(was, was, desired, 0);
      var goal := Normalize(desired);
      var invalid := Validate(goal);
      if invalid.Some? {
        return Some(Invalid(invalid.value)), 0;
      }
      var current := ReadVLANState(client);
      ghost var middle := client.link.sent;
      if current.Err? {
        return Some(NotRead(current.error)), 0;
      }
      var plan := Plan(current.value, goal);
      NormalizedIdempotent(desired);
      PlanIs(was.tables, desired);
      var ops: seq<VLANOp>;
      match plan {
        case Err(e) => return Some(Invalid(e)), k;
        case Ok(value) => ops := value;
      }
      var stopped;
      stopped, k := Run(ops);
      RunIsProgress(stopped, Switch(), was, steps, k, client.AllClear(middle));
      StillReady(Switch(), was, desired, k);
      if stopped.Some? {
        LaterClear(client, start, middle);
        return Some(NotWritten(stopped.value)), k;
      }
      return None, k;
    }
  }

  datatype ApplyError =
    | Invalid(error: ValidationError)
    | NotRead(cause: ReadError)
    | NotWritten(failure: ClientError)

  /** The writes of the plan from what a read of the tables shows to the desired state. */
  ghost function PlanOf(t: Tables, desired: VLANState): seq<WireStep>
    requires |t.pvid| == PORTS
  {
    PlanSteps(Nsdp, Decode(ReadTables(t)), Normalized(desired))
  }

  /** Every entry behind those a read shows is one of a desired VLAN. */
  predicate AllDesired(t: Tables, desired: VLANState) {
    forall k :: MAX_ENTRIES <= k < |t.vlans| ==> t.vlans[k].vid in desired.vlans
  }

  lemma ShortTable(t: Tables, desired: VLANState)
    ensures |t.vlans| <= MAX_ENTRIES ==> ReadTables(t) == t && AllDesired(t, desired)
  {
  }

  lemma ReadStaysSound(t: Tables)
    requires Sound(t)
    ensures Sound(ReadTables(t))
  {
  }

  /** What a read shows is a part of the switch. */
  lemma ReadIsPart(t: Tables, desired: VLANState)
    requires Sound(t)
    ensures Sound(ReadTables(t)) && PartOf(Decode(ReadTables(t)), Decode(t))
    ensures Decode(t).vlans.Keys <= Decode(ReadTables(t)).vlans.Keys + desired.vlans.Keys <==> AllDesired(t, desired)
  {
    hide EntryRow, RowOf;
    var read := ReadTables(t);
    assert forall k :: 0 <= k < |read.vlans| ==> read.vlans[k] == t.vlans[k];
    forall vid | vid in Decode(read).vlans
      ensures vid in Decode(t).vlans && Decode(t).vlans[vid] == Decode(read).vlans[vid]
    {
      var k :| 0 <= k < |read.vlans| && read.vlans[k].vid == vid;
      RowAt(read.vlans, k);
      RowAt(t.vlans, k);
    }
    forall k | MAX_ENTRIES <= k < |t.vlans|
      ensures t.vlans[k].vid in Decode(t).vlans && t.vlans[k].vid !in Decode(read).vlans
    {
    }
    if AllDesired(t, desired) {
      forall vid | vid in Decode(t).vlans.Keys
        ensures vid in Decode(read).vlans.Keys + desired.vlans.Keys
      {
        var k :| 0 <= k < |t.vlans| && t.vlans[k].vid == vid;
        if k < |read.vlans| {
          assert read.vlans[k].vid == vid;
        }
      }
    } else {
      var k :| MAX_ENTRIES <= k < |t.vlans| && t.vlans[k].vid !in desired.vlans;
      assert t.vlans[k].vid in Decode(t).vlans.Keys;
    }
  }

  lemma DecodeIsNormalized(t: Tables)
    requires Sound(t)
    ensures Normalized(Decode(t)) == Decode(t)
  {
    hide EntryRow, NormalizedPorts, RowOf;
    var l, r := Normalized(Decode(t)).vlans, Decode(t).vlans;
    forall vid
      ensures vid in l <==> vid in r
      ensures vid in l ==> l[vid] == r[vid]
    {
      if vid in r {
        var k :| 0 <= k < |t.vlans| && t.vlans[k].vid == vid;
        RowAt(t.vlans, k);
        RowIsFull(t.vlans[k]);
      }
    }
    assert l == r;
  }

  lemma RowIsFull(e: Entry)
    ensures NormalizedPorts(EntryRow(e), PORTS) == EntryRow(e)
  {
    hide EntryMembership;
    var l, r := NormalizedPorts(EntryRow(e), PORTS), EntryRow(e);
    forall p
      ensures p in l <==> p in r
      ensures p in l ==> l[p] == r[p]
    {
    }
    assert l == r;
  }

  lemma PlanIs(t: Tables, desired: VLANState)
    requires Sound(t)
    ensures PlanOf(t, desired) == Steps(Nsdp, PlanOps(Normalized(Decode(ReadTables(t))), Normalized(desired)))
  {
    hide Decode, Normalized, Steps, PlanOps, Sound, ReadTables;
    ReadStaysSound(t);
    ReadHasPorts(t);
    DecodeIsNormalized(ReadTables(t));
  }

  lemma ReadHasPorts(t: Tables)
    requires Sound(t)
    ensures |t.pvid| == PORTS && |ReadTables(t).pvid| == PORTS
  {
  }

  lemma RunIsProgress(err: Option<ClientError>, a: AgentState, was: AgentState, steps: seq<WireStep>, k: nat,
                      clear: bool)
    requires ListDone(err, a, was, steps, k, clear)
    ensures Progress(a, was, steps, k) && (err.None? ==> k == |steps|)
    ensures err.Some? ==> !AllEncodable(steps) || !clear
  {
    hide Progress;
  }

  lemma LaterClear(client: Client, start: nat, middle: nat)
    requires client.link.agent.Valid() && start <= middle
    ensures client.AllClear(start) ==> client.AllClear(middle)
  {
    hide Clear;
  }

  /** Tables a read succeeds on decode to a covering state, with any PVIDs. */
  lemma SoundCovers(t: Tables)
    requires Sound(t)
    ensures Covers(Decode(t)) && Decode(t).portCount == PORTS
  {
    hide EntryRow, RowOf, CarriesPVID;
    var s := Decode(t);
    forall vid | vid in s.vlans
      ensures s.vlans[vid].id == vid && IsWireRow(s.vlans[vid].ports, s.portCount)
    {
      var k :| 0 <= k < |t.vlans| && t.vlans[k].vid == vid;
      RowAt(t.vlans, k);
      RowIsWire(t.vlans[k]);
    }
  }

  lemma RowIsWire(e: Entry)
    ensures IsWireRow(EntryRow(e), PORTS)
  {
    hide Bit;
  }

  /**
   After any prefix of the plan no port seen safe and no kept membership seen has lapsed. At
   the end every port is safe, and the switch holds the desired state if and only if the
   entries that were not seen are desired ones.
   */
  lemma StillReady(a: AgentState, was: AgentState, desired: VLANState, k: nat)
    requires Sound(was.tables) && Progress(a, was, PlanOf(was.tables, desired), k)
    ensures Sound(a.tables)
    ensures ValidState(Normalized(desired)) && desired.portCount == PORTS ==>
              var seen := Decode(ReadTables(was.tables));
              && StillCarried(seen, Decode(a.tables)) && Kept(seen, Normalized(desired), Decode(a.tables))
              && (MovesEnd(Nsdp, seen, Normalized(desired)) <= k ==> Safe(Decode(a.tables)))
              && (k == |PlanOf(was.tables, desired)| ==>
                    && Safe(Decode(a.tables))
                    && (Decode(a.tables) == Normalized(desired) <==> AllDesired(was.tables, Normalized(desired))))
  {
    hide Sound, Decode, Run, PlanSteps, Normalized, Covers, Safe, Kept, Accepts, EqualStates, ValidState, StillCarried,
      MovesEnd, AllDesired, ReadTables, PartOf;
    var steps := PlanOf(was.tables, desired);
    ProgressRefines(a, was, steps, k);
    ProgressFits(a, was, steps, k);
    hide Progress;
    ReadIsPart(was.tables, Normalized(desired));
    ReadHasPorts(was.tables);
    SoundCovers(ReadTables(was.tables));
    if ValidState(Normalized(desired)) && desired.portCount == PORTS {
      PlanOfPart(Decode(ReadTables(was.tables)), Decode(was.tables), desired, k);
      MovesEndInside(Nsdp, Decode(ReadTables(was.tables)), Normalized(desired));
    }
  }

  lemma MovesEndInside(ch: Channel, current: VLANState, desired: VLANState)
    ensures MovesEnd(ch, current, desired) <= |PlanSteps(ch, current, desired)|
  {
    hide EqualStates, Steps, Phases, EarlySteps, LateSteps;
    StepsOfPhases(ch, current, desired);
  }

  lemma ProgressFits(a: AgentState, was: AgentState, steps: seq<WireStep>, k: nat)
    requires Progress(a, was, steps, k)
    ensures k <= |steps|
  {
    hide Payloads, Played;
  }

  /**
   After every single SET of an apply, not only after the last one: a port that was seen
   safe is safe, and once the PVIDs have moved every port is.
   */
  lemma SafeAfterEverySet(a: AgentState, was: AgentState, desired: VLANState, k: nat, j: nat)
    requires Sound(was.tables) && ValidState(Normalized(desired)) && desired.portCount == PORTS
    requires Progress(a, was, PlanOf(was.tables, desired), k) && j <= k
    ensures AllEncodable(PlanOf(was.tables, desired)[..j])
    ensures var sets, seen := Payloads(PlanOf(was.tables, desired)[..j]), Decode(ReadTables(was.tables));
            && was.log + sets <= a.log
            && (forall i :: 0 <= i < |sets| ==> WellFormedSet(sets[i]))
            && Sound(Played(was.tables, sets))
            && StillCarried(seen, Decode(Played(was.tables, sets)))
            && Kept(seen, Normalized(desired), Decode(Played(was.tables, sets)))
            && (MovesEnd(Nsdp, seen, Normalized(desired)) <= j ==> Safe(Decode(Played(was.tables, sets))))
    ensures |was.tables.vlans| <= MAX_ENTRIES ==> ReadTables(was.tables) == was.tables
  {
    hide Decode, Run, PlanSteps, Normalized, Covers, Safe, Kept, Accepts, EqualStates, ValidState, Payload, Encodable,
      WellFormedSet, Played, Applied, Payloads, Unique, StillCarried, MovesEnd, PartOf;
    var steps := PlanOf(was.tables, desired);
    assert steps[..k][..j] == steps[..j];
    PayloadsAreWellFormed(steps[..k]);
    assert AllEncodable(steps[..j]) by { PrefixEncodable(steps[..k], j); }
    assert Payloads(steps[..j]) == Payloads(steps[..k])[..j];
    PayloadsRefine(was.tables, steps[..j]);
    ReadIsPart(was.tables, Normalized(desired));
    SoundCovers(ReadTables(was.tables));
    PlanOfPart(Decode(ReadTables(was.tables)), Decode(was.tables), desired, j);
  }

  lemma PrefixEncodable(steps: seq<WireStep>, j: nat)
    requires AllEncodable(steps) && j <= |steps|
    ensures AllEncodable(steps[..j])
  {
    hide Encodable;
  }

  lemma Budget(i: nat, n: nat)
    requires i < n
    ensures (i + 1) * CALL_REQUESTS <= n * CALL_REQUESTS
  {
  }

  lemma AllDone(a: AgentState, was: AgentState, steps: seq<WireStep>, clear: bool)
    requires Progress(a, was, steps, |steps|)
    ensures ListDone(None, a, was, steps, |steps|, clear)
  {
    hide Progress;
  }

  lemma NoSteps(ops: seq<VLANOp>)
    ensures ops[..0] == [] && Steps(Nsdp, []) == []
  {
  }

  /** The writes of the ops so far, of the next op, and of all. */
  lemma StepsSplit(ops: seq<VLANOp>, i: nat)
    requires i < |ops|
    ensures Steps(Nsdp, ops[..i + 1]) == Steps(Nsdp, ops[..i]) + StepsOfOp(Nsdp, ops[i])
    ensures Steps(Nsdp, ops[..i]) + StepsOfOp(Nsdp, ops[i]) <= Steps(Nsdp, ops)
  {
    hide *;
    SplitAt(ops, i);
    StepsAppend(Nsdp, ops[..i], [ops[i]]);
    StepsAppend(Nsdp, ops[..i + 1], ops[i + 1..]);
    OneOp(ops[i]);
    Front(Steps(Nsdp, ops[..i + 1]), Steps(Nsdp, ops[i + 1..]));
  }

  lemma SplitAt<T>(s: seq<T>, i: nat)
    requires i < |s|
    ensures s[..i + 1] == s[..i] + [s[i]] && s == s[..i + 1] + s[i + 1..]
  {
  }

  lemma Front<T>(a: seq<T>, b: seq<T>)
    ensures a <= a + b
  {
  }

  lemma OneOp(op: VLANOp)
    ensures Steps(Nsdp, [op]) == StepsOfOp(Nsdp, op)
  {
    hide StepsOfOp;
    assert [op][1..] == [];
    assert Steps(Nsdp, []) == [];
  }

  lemma BudgetSplit(done: nat, mine: nat, all: nat)
    requires done + mine <= all
    ensures done * CALL_REQUESTS + mine * CALL_REQUESTS == (done + mine) * CALL_REQUESTS <= all * CALL_REQUESTS
  {
  }

  lemma OneWrite(op: VLANOp)
    ensures op.AddVLAN? ==> StepsOfOp(Nsdp, op) == []
    ensures op.SetMembership? ==> StepsOfOp(Nsdp, op) == [Write(op.vid, op.memberships)]
    ensures op.SetPVIDs? ==> |StepsOfOp(Nsdp, op)| == |op.ports|
    ensures op.DeleteVLANs? ==> |StepsOfOp(Nsdp, op)| == |op.vids|
  {
  }

  lemma NothingDone(a: AgentState, mine: seq<WireStep>, clear: bool)
    requires mine == [] && |a.tables.pvid| == PORTS
    ensures ListDone(None, a, a, mine, 0, clear)
  {
    NoProgress(a, a, mine);
    hide Progress;
  }

  lemma SameItself(a: AgentState)
    ensures SameConfig(a, a)
  {
  }

  lemma SingleDone(err: Option<ClientError>, b: AgentState, a: AgentState, mine: seq<WireStep>, clear: bool)
    returns (l: nat)
    requires |mine| == 1 && StepDone(err, b, a, mine[0], clear) && |a.tables.pvid| == PORTS
    ensures ListDone(err, b, a, mine, l, clear)
  {
    hide Progress, StepDone, SameConfig;
    assert SameConfig(a, a) by { SameItself(a); }
    NoProgress(a, a, mine);
    NextDone(err, b, a, a, mine, 0, clear, clear);
    if err.None? {
      l := 1;
    } else {
      l :| ListDone(err, b, a, mine, l, clear);
    }
  }

  /** The writes of the next op on top of those of the ops before it. */
  lemma ListAppends(err: Option<ClientError>, b: AgentState, a: AgentState, was: AgentState, done: seq<WireStep>,
                    mine: seq<WireStep>, all: seq<WireStep>, l: nat, clear: bool, allClear: bool)
    requires Progress(a, was, done, |done|) && ListDone(err, b, a, mine, l, clear)
    requires done + mine <= all && (allClear ==> clear)
    ensures err.None? ==> Progress(b, was, done + mine, |done + mine|)
    ensures err.Some? ==> ListDone(err, b, was, all, |done| + l, allClear)
  {
    hide Progress, AllEncodable;
    ProgressAppend(b, a, was, done, mine, l);
    ProgressLonger(b, was, done + mine, all, |done| + l);
    if err.Some? && err.value == OutOfRange {
      assert !AllEncodable(all) by { LongerFails(done, mine, all); }
    }
  }

  lemma ProgressLonger(a: AgentState, was: AgentState, one: seq<WireStep>, all: seq<WireStep>, k: nat)
    requires Progress(a, was, one, k) && one <= all
    ensures Progress(a, was, all, k)
  {
    assert one[..k] == all[..k];
    hide Payloads, Played, AllEncodable, WellFormedSet;
  }

  lemma LongerFails(done: seq<WireStep>, mine: seq<WireStep>, all: seq<WireStep>)
    requires done + mine <= all && !AllEncodable(mine)
    ensures !AllEncodable(all)
  {
    hide Encodable;
    var k :| 0 <= k < |mine| && !Encodable(mine[k]);
    assert all[|done| + k] == mine[k];
  }
}
