/**
 A VLAN table one entry longer than the client's buffer: SETs get the factory switch there,
 and a plan back to the factory state ends without an error and leaves the last VLAN behind.
 */
module Overfull {
  import opened Bits
  import opened Wire
  import opened Agent
  import opened VlanState
  import opened Transition
  import opened VlanTables
  import opened Transport

  /** The factory's VLAN 1, and empty VLANs with the ids up to n. */
  function Crowd(n: nat): seq<Entry>
    requires n <= MAX_VID
  {
    seq(n, k requires 0 <= k < n => Entry(k + 1, 0, if k == 0 then 0xff else 0))
  }

  /** One row for each of them, without members. */
  function CrowdWrites(n: nat): seq<WireStep>
    requires 1 <= n <= MAX_VID
  {
    seq(n - 1, k requires 0 <= k < n - 1 => Write(k + 2, map[]))
  }

  lemma NothingSet(b: byte)
    requires forall port :: InRange(port) ==> !Bit(b, port)
    ensures b == 0
  {
    NoBits(PORTS);
    SameBits(b, 0);
  }

  /** A row without members is stored as an empty entry. */
  lemma EmptyRowStored(vid: int)
    requires 0 <= vid <= MAX_VID
    ensures EntryOf(Payload(Write(vid, map[])).value) == Entry(vid, 0, 0)
  {
    WordParts(vid);
    hide Bit, Or, And, AndNot, RowBitmap, High, Low, Word;
    var tagged, untagged := RowBitmap(map[], Tagged), RowBitmap(map[], Untagged);
    var member := Or(tagged, untagged);
    forall port | InRange(port)
      ensures !Bit(And(tagged, member), port) && !Bit(AndNot(member, tagged), port)
    {
      RowBits(map[], Tagged, port);
      RowBits(map[], Untagged, port);
      OrBits(tagged, untagged, port);
      AndBits(tagged, member, port);
      AndNotBits(member, tagged, port);
    }
    NothingSet(And(tagged, member));
    NothingSet(AndNot(member, tagged));
  }

  /** The writes, played on the factory's table, give the crowded one. */
  lemma {:induction false} CrowdIsReached(t: Tables, n: nat)
    requires 1 <= n <= MAX_VID && |t.pvid| == PORTS && t.vlans == FACTORY_VLANS
    ensures AllEncodable(CrowdWrites(n))
    ensures forall k :: 0 <= k < |Payloads(CrowdWrites(n))| ==> WellFormedSet(Payloads(CrowdWrites(n))[k])
    ensures Played(t, Payloads(CrowdWrites(n))) == t.(vlans := Crowd(n))
  {
    hide *;
    AllAreEncodable(n);
    PayloadsAreWellFormed(CrowdWrites(n));
    if n == 1 {
      NoCrowd(t);
    } else {
      CrowdIsReached(t, n - 1);
      MoreWrites(n);
      OneMore(t.(vlans := Crowd(n - 1)), n);
      PlayedMore(t, Payloads(CrowdWrites(n - 1)), Payload(Write(n, map[])));
    }
  }

  lemma NoCrowd(t: Tables)
    requires |t.pvid| == PORTS && t.vlans == FACTORY_VLANS
    ensures Payloads(CrowdWrites(1)) == [] && Played(t, []) == t && t.vlans == Crowd(1)
  {
    assert CrowdWrites(1) == [];
  }

  lemma AllAreEncodable(n: nat)
    requires 1 <= n <= MAX_VID
    ensures AllEncodable(CrowdWrites(n))
  {
  }

  lemma MoreWrites(n: nat)
    requires 2 <= n <= MAX_VID
    ensures AllEncodable(CrowdWrites(n - 1)) && AllEncodable(CrowdWrites(n)) && Encodable(Write(n, map[]))
    ensures Payloads(CrowdWrites(n)) == Payloads(CrowdWrites(n - 1)) + [Payload(Write(n, map[]))]
  {
    hide Payload;
    var steps := CrowdWrites(n);
    assert steps[..n - 2] == CrowdWrites(n - 1);
    assert steps[n - 2] == Write(n, map[]);
  }

  lemma PlayedMore(t: Tables, log: seq<TLV>, value: TLV)
    requires |t.pvid| == PORTS && WellFormedSet(value)
    requires forall k :: 0 <= k < |log| ==> WellFormedSet(log[k])
    ensures forall k :: 0 <= k < |log + [value]| ==> WellFormedSet((log + [value])[k])
    ensures Played(t, log + [value]) == Applied(Played(t, log), value)
  {
    hide WellFormedSet, Applied;
    assert (log + [value])[..|log|] == log;
  }

  lemma OneMore(t: Tables, n: nat)
    requires 2 <= n <= MAX_VID && |t.pvid| == PORTS && t.vlans == Crowd(n - 1)
    ensures WellFormedSet(Payload(Write(n, map[])))
    ensures Applied(t, Payload(Write(n, map[]))) == t.(vlans := Crowd(n))
  {
    PayloadIsWellFormed(Write(n, map[]));
    EmptyRowStored(n);
    PayloadTag(n);
    CrowdGrows(n);
    hide EntryOf, Payload, Upsert, Crowd, WellFormedSet;
    assert WellFormedSet(Payload(Write(n, map[])));
    StoredIs(t, Payload(Write(n, map[])));
  }

  lemma StoredIs(t: Tables, value: TLV)
    requires |t.pvid| == PORTS && value.tag == TAG_8021Q && WellFormedSet(value)
    ensures |value.value| == 4 && Applied(t, value) == t.(vlans := Upsert(t.vlans, EntryOf(value.value)))
  {
    hide EntryOf, Upsert;
  }

  lemma PayloadTag(n: nat)
    requires n <= MAX_VID
    ensures Payload(Write(n, map[])).tag == TAG_8021Q
  {
    hide Or, RowBitmap, High, Low;
  }

  lemma CrowdGrows(n: nat)
    requires 2 <= n <= MAX_VID
    ensures Upsert(Crowd(n - 1), Entry(n, 0, 0)) == Crowd(n)
  {
    hide Place;
    var at := Place(Crowd(n - 1), n);
    assert at == n - 1;
    assert Crowd(n) == Crowd(n - 1) + [Entry(n, 0, 0)];
  }

  /** The state of a factory switch. */
  ghost function Factory(): VLANState {
    Decode(Tables(FACTORY_PVIDS, FACTORY_VLANS, [], map[]))
  }

  lemma FactoryIsValid()
    ensures Factory().portCount == PORTS && Normalized(Factory()) == Factory() && ValidState(Factory())
    ensures Factory().vlans.Keys == {1}
  {
    DecodeIsNormalized(Tables(FACTORY_PVIDS, FACTORY_VLANS, [], map[]));
    FactoryRow();
    FactoryPVIDs();
    hide Bit, RowOf, IDs, Decode, FACTORY_PVIDS, FACTORY_VLANS;
    PortsSize(PORTS);
    assert Factory().pvids.Keys == Ports(PORTS);
    assert |Factory().pvids| == |Factory().pvids.Keys|;
  }

  lemma FactoryPVIDs()
    ensures Factory().portCount == PORTS
    ensures forall port :: port in Factory().pvids <==> 1 <= port <= PORTS
    ensures forall port :: port in Factory().pvids ==> Factory().pvids[port] == 1
  {
    hide IDs, RowOf;
  }

  lemma FactoryRow()
    ensures Factory().vlans.Keys == {1}
    ensures forall port :: port in Factory().vlans[1].ports <==> 1 <= port <= PORTS
    ensures forall port :: port in Factory().vlans[1].ports ==> Factory().vlans[1].ports[port] == Untagged
  {
    AllUntagged();
    assert FACTORY_VLANS[0].vid == 1;
    RowAt(FACTORY_VLANS, 0);
    hide Bit, RowOf;
    assert IDs(FACTORY_VLANS) == {1};
  }

  lemma AllUntagged()
    ensures forall port :: InRange(port) ==> !Bit(0, port) && Bit(0xff, port)
  {
    NoBits(PORTS);
    assert BitsOf(0xff, PORTS) == [true, true, true, true, true, true, true, true];
  }

  /** With 509 entries the whole plan back to the factory state leaves VLAN 509 on the switch. */
  lemma LastVlanIsLeft(a: AgentState, was: AgentState)
    requires was.tables.pvid == FACTORY_PVIDS && was.tables.vlans == Crowd(509)
    requires Progress(a, was, PlanOf(was.tables, Factory()), |PlanOf(was.tables, Factory())|)
    ensures Decode(a.tables) != Normalized(Factory())
  {
    hide Progress, PlanOf, ValidState, Normalized, Decode;
    FactoryIsValid();
    StillReady(a, was, Factory(), |PlanOf(was.tables, Factory())|);
    assert was.tables.vlans[508].vid == 509;
  }
}
