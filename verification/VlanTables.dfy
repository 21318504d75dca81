/**
 The agent's VLAN tables as the planner's switch: reading them off the wire gives the
 abstract state, and each SET payload does to the tables what the write it encodes
 does to the abstract state.
 */
module VlanTables {
  import opened Bits
  import opened Wire
  import opened Agent
  import opened VlanState
  import opened Transition

  const MAX_VID := 4095

  // ---------------------------------------------------------------------
  // The abstract switch behind the tables
  // ---------------------------------------------------------------------

  function EntryMembership(e: Entry, port: int): PortMembership
    requires InRange(port)
  {
    if Bit(e.tagged, port) then Tagged else if Bit(e.untagged, port) then Untagged else Ignored
  }

  function EntryRow(e: Entry): map<int, PortMembership> {
    map port | 1 <= port <= PORTS && InRange(port) :: EntryMembership(e, port)
  }

  /** No VLAN id is in the list twice. */
  predicate Unique(vlans: seq<Entry>) {
    forall i, j :: 0 <= i < j < |vlans| ==> vlans[i].vid != vlans[j].vid
  }

  ghost function IDs(vlans: seq<Entry>): set<int> {
    set k | 0 <= k < |vlans| :: vlans[k].vid
  }

  function RowOf(vlans: seq<Entry>, vid: int): map<int, PortMembership> {
    if vlans == [] then map[]
    else if vlans[|vlans| - 1].vid == vid then EntryRow(vlans[|vlans| - 1])
    else RowOf(vlans[..|vlans| - 1], vid)
  }

  /** The state a read of the tables yields. */
  ghost function Decode(t: Tables): VLANState
    requires |t.pvid| == PORTS
  {
    VLANState(PORTS,
              map vid | vid in IDs(t.vlans) :: Vlan(vid, RowOf(t.vlans, vid)),
              map port | 1 <= port <= PORTS && InRange(port) :: t.pvid[port - 1])
  }

  lemma {:induction false} RowAt(vlans: seq<Entry>, k: nat)
    requires Unique(vlans) && k < |vlans|
    ensures RowOf(vlans, vlans[k].vid) == EntryRow(vlans[k])
  {
    hide EntryRow;
    var n := |vlans| - 1;
    if k < n {
      assert vlans[k].vid != vlans[n].vid;
      RowAt(vlans[..n], k);
    }
  }

  // ---------------------------------------------------------------------
  // List surgery
  // ---------------------------------------------------------------------

  lemma UpsertIs(vlans: seq<Entry>, e: Entry)
    requires Unique(vlans)
    ensures var r := Upsert(vlans, e);
            && Unique(r) && IDs(r) == IDs(vlans) + {e.vid}
            && RowOf(r, e.vid) == EntryRow(e)
            && forall vid :: vid in IDs(vlans) && vid != e.vid ==> RowOf(r, vid) == RowOf(vlans, vid)
  {
    hide EntryRow, RowOf, Place;
    var r, at := Upsert(vlans, e), Place(vlans, e.vid);
    assert Unique(r);
    assert r[at] == e;
    RowAt(r, at);
    forall vid | vid in IDs(vlans) && vid != e.vid
      ensures RowOf(r, vid) == RowOf(vlans, vid)
    {
      var k :| 0 <= k < |vlans| && vlans[k].vid == vid;
      assert r[k] == vlans[k];
      RowAt(vlans, k);
      RowAt(r, k);
    }
    forall vid
      ensures vid in IDs(r) <==> vid in IDs(vlans) + {e.vid}
    {
      if vid in IDs(vlans) && vid != e.vid {
        var k :| 0 <= k < |vlans| && vlans[k].vid == vid;
        assert r[k].vid == vid;
      }
      if vid in IDs(r) && vid != e.vid {
        var k :| 0 <= k < |r| && r[k].vid == vid;
        assert vlans[k].vid == vid;
      }
    }
  }

  lemma WithoutIs(vlans: seq<Entry>, gone: u16)
    requires Unique(vlans)
    ensures var r := Without(vlans, gone);
            && Unique(r) && IDs(r) == IDs(vlans) - {gone}
            && forall vid :: vid in IDs(vlans) && vid != gone ==> RowOf(r, vid) == RowOf(vlans, vid)
  {
    hide EntryRow, RowOf, Place;
    var r, at := Without(vlans, gone), Place(vlans, gone);
    forall k | 0 <= k < |r|
      ensures r[k] == vlans[if k < at then k else k + 1]
    {
    }
    forall vid | vid in IDs(vlans) && vid != gone
      ensures vid in IDs(r) && RowOf(r, vid) == RowOf(vlans, vid)
    {
      var k :| 0 <= k < |vlans| && vlans[k].vid == vid;
      var l := if k < at then k else k - 1;
      assert r[l] == vlans[k];
      RowAt(vlans, k);
      RowAt(r, l);
    }
    forall vid | vid in IDs(r)
      ensures vid in IDs(vlans) && vid != gone
    {
      var k :| 0 <= k < |r| && r[k].vid == vid;
      assert vlans[if k < at then k else k + 1].vid == vid;
    }
    assert IDs(r) == IDs(vlans) - {gone};
  }

  // ---------------------------------------------------------------------
  // Payloads
  // ---------------------------------------------------------------------

  /** The bitmap of the ports that have this membership. */
  function RowBitmap(row: map<int, PortMembership>, m: PortMembership): byte {
    Byte8(seq(PORTS, k requires 0 <= k < PORTS => Member(row, k + 1) == m))
  }

  lemma RowBits(row: map<int, PortMembership>, m: PortMembership, port: int)
    requires InRange(port)
    ensures Bit(RowBitmap(row, m), port) <==> Member(row, port) == m
  {
    hide Byte8, Bits8;
    BitsOfByte(seq(PORTS, k requires 0 <= k < PORTS => Member(row, k + 1) == m));
  }

  /** A write the client takes: the ids and ports fit their fields. */
  predicate Encodable(step: WireStep) {
    match step
    case Create(_) => false
    case Write(vid, _) => 0 <= vid <= MAX_VID
    case Move(port, vid) => InRange(port) && 0 <= vid <= MAX_VID
    case Drop(vid) => 0 <= vid <= MAX_VID
  }

  /** The SET value of a write: members and tagged members of a row, a port's PVID, or an id to delete. */
  function Payload(step: WireStep): TLV
    requires Encodable(step)
  {
    match step
    case Write(vid, row) =>
      var tagged, untagged := RowBitmap(row, Tagged), RowBitmap(row, Untagged);
      TLV(TAG_8021Q, [High(vid), Low(vid), Or(tagged, untagged), tagged])
    case Move(port, vid) => TLV(TAG_PVID, [port, High(vid), Low(vid)])
    case Drop(vid) => TLV(TAG_DELETE_8021Q, [High(vid), Low(vid)])
  }

  lemma PayloadIsWellFormed(step: WireStep)
    requires Encodable(step)
    ensures WellFormedSet(Payload(step)) && Payload(step).tag != TERM_TAG && |Payload(step).value| < 0x1_0000
  {
    hide Or, RowBitmap, High, Low;
  }

  /** The entry the agent stores for a written row has that row. */
  lemma StoredRow(vid: int, row: map<int, PortMembership>)
    requires 0 <= vid <= MAX_VID
    ensures var e := EntryOf(Payload(Write(vid, row)).value);
            e.vid == vid && EntryRow(e) == WireRow(row, PORTS)
  {
    WordParts(vid);
    hide Bit, Or, And, AndNot, RowBitmap, High, Low, Word;
    var tagged, untagged := RowBitmap(row, Tagged), RowBitmap(row, Untagged);
    var e := EntryOf(Payload(Write(vid, row)).value);
    var l, r := EntryRow(e), WireRow(row, PORTS);
    forall port
      ensures port in l <==> port in r
      ensures port in l ==> l[port] == r[port]
    {
      if InRange(port) {
        RowBits(row, Tagged, port);
        RowBits(row, Untagged, port);
        OrBits(tagged, untagged, port);
        AndBits(tagged, Or(tagged, untagged), port);
        AndNotBits(Or(tagged, untagged), tagged, port);
      }
    }
    assert l == r;
  }

  // ---------------------------------------------------------------------
  // The refinement
  // ---------------------------------------------------------------------

  /** Tables a read succeeds on. */
  predicate Sound(t: Tables) {
    |t.pvid| == PORTS && Unique(t.vlans)
  }

  lemma WriteRefines(t: Tables, vid: int, row: map<int, PortMembership>)
    requires Sound(t) && 0 <= vid <= MAX_VID
    ensures WellFormedSet(Payload(Write(vid, row)))
    ensures var next := Applied(t, Payload(Write(vid, row)));
            Sound(next) && Decode(next) == Apply(Write(vid, row), Decode(t))
  {
    hide EntryRow, RowOf, WireRow, EntryOf, Upsert, Unique, IDs, RowBitmap, Or, High, Low;
    var step := Write(vid, row);
    PayloadIsWellFormed(step);
    StoredRow(vid, row);
    UpsertIs(t.vlans, EntryOf(Payload(step).value));
    var next := Applied(t, Payload(step));
    var l, r := Decode(next).vlans, Apply(step, Decode(t)).vlans;
    forall v
      ensures v in l <==> v in r
      ensures v in l ==> l[v] == r[v]
    {
    }
    assert l == r;
  }

  lemma DropRefines(t: Tables, vid: int)
    requires Sound(t) && 0 <= vid <= MAX_VID
    ensures WellFormedSet(Payload(Drop(vid)))
    ensures var next := Applied(t, Payload(Drop(vid)));
            Sound(next) && Decode(next) == Apply(Drop(vid), Decode(t))
  {
    DroppedFrom(t, vid);
    hide EntryRow, RowOf, Without, Unique, IDs, Payload, Applied, WellFormedSet;
    var step := Drop(vid);
    WithoutIs(t.vlans, vid);
    var next := Applied(t, Payload(step));
    var l, r := Decode(next).vlans, Apply(step, Decode(t)).vlans;
    forall v
      ensures v in l <==> v in r
      ensures v in l ==> l[v] == r[v]
    {
    }
    assert l == r;
  }

  lemma DroppedFrom(t: Tables, vid: int)
    requires |t.pvid| == PORTS && 0 <= vid <= MAX_VID
    ensures WellFormedSet(Payload(Drop(vid)))
    ensures Applied(t, Payload(Drop(vid))) == t.(vlans := Without(t.vlans, vid))
  {
    WordParts(vid);
    hide Without, High, Low, Word;
  }

  lemma MoveRefines(t: Tables, port: int, vid: int)
    requires Sound(t) && InRange(port) && 0 <= vid <= MAX_VID
    ensures WellFormedSet(Payload(Move(port, vid)))
    ensures var next := Applied(t, Payload(Move(port, vid)));
            Sound(next) && Decode(next) == Apply(Move(port, vid), Decode(t))
  {
    WordParts(vid);
    hide EntryRow, RowOf, Unique, IDs, High, Low, Word;
    var step := Move(port, vid);
    PayloadIsWellFormed(step);
    var next := Applied(t, Payload(step));
    assert next.pvid == t.pvid[port - 1 := vid];
    var l, r := Decode(next).pvids, Apply(step, Decode(t)).pvids;
    forall p
      ensures p in l <==> p in r
      ensures p in l ==> l[p] == r[p]
    {
    }
    assert l == r;
    assert Decode(next).vlans == Decode(t).vlans;
  }

  /** One SET payload does to the tables what its write does to the abstract switch, and keeps ids unique. */
  lemma StepRefines(t: Tables, step: WireStep)
    requires Sound(t) && Encodable(step)
    ensures WellFormedSet(Payload(step))
    ensures var next := Applied(t, Payload(step)); Sound(next) && Decode(next) == Apply(step, Decode(t))
  {
    hide Payload, Decode, Applied, WellFormedSet, Sound;
    match step {
      case Write(vid, row) => WriteRefines(t, vid, row);
      case Move(port, vid) => MoveRefines(t, port, vid);
      case Drop(vid) => DropRefines(t, vid);
    }
  }

  predicate AllEncodable(steps: seq<WireStep>) {
    forall k :: 0 <= k < |steps| ==> Encodable(steps[k])
  }

  function Payloads(steps: seq<WireStep>): seq<TLV>
    requires AllEncodable(steps)
  {
    if steps == [] then [] else Payloads(steps[..|steps| - 1]) + [Payload(steps[|steps| - 1])]
  }

  /** A log of SET values played on the tables. */
  function Played(t: Tables, log: seq<TLV>): (r: Tables)
    requires |t.pvid| == PORTS && forall k :: 0 <= k < |log| ==> WellFormedSet(log[k])
    ensures |r.pvid| == PORTS
  {
    if log == [] then t else Applied(Played(t, log[..|log| - 1]), log[|log| - 1])
  }

  lemma {:induction false} PayloadsAreWellFormed(steps: seq<WireStep>)
    requires AllEncodable(steps)
    ensures |Payloads(steps)| == |steps|
    ensures forall k :: 0 <= k < |steps| ==> WellFormedSet(Payloads(steps)[k])
    ensures forall j :: 0 <= j <= |steps| ==> Payloads(steps)[..j] == Payloads(steps[..j])
  {
    hide Payload, WellFormedSet;
    if steps != [] {
      var n := |steps| - 1;
      PayloadsAreWellFormed(steps[..n]);
      PayloadIsWellFormed(steps[n]);
      forall j | 0 <= j <= |steps|
        ensures Payloads(steps)[..j] == Payloads(steps[..j])
      {
        if j <= n {
          assert steps[..n][..j] == steps[..j];
          assert Payloads(steps)[..j] == Payloads(steps[..n])[..j];
        } else {
          assert steps[..j] == steps;
        }
      }
    }
  }

  /** Played payloads are the run of their writes: after each one the tables decode to the abstract state. */
  lemma {:induction false} PayloadsRefine(t: Tables, steps: seq<WireStep>)
    requires Sound(t) && AllEncodable(steps)
    ensures forall k :: 0 <= k < |Payloads(steps)| ==> WellFormedSet(Payloads(steps)[k])
    ensures Sound(Played(t, Payloads(steps))) && Decode(Played(t, Payloads(steps))) == Run(steps, Decode(t))
  {
    hide Payload, WellFormedSet, Decode, Applied, Apply, Unique;
    PayloadsAreWellFormed(steps);
    if steps != [] {
      var n := |steps| - 1;
      PayloadsRefine(t, steps[..n]);
      StepRefines(Played(t, Payloads(steps[..n])), steps[n]);
      assert steps == steps[..n] + [steps[n]];
      RunAppend(steps[..n], [steps[n]], Decode(t));
      OneRun(steps[n], Run(steps[..n], Decode(t)));
      assert Payloads(steps)[..n] == Payloads(steps[..n]);
    }
  }

  lemma OneRun(step: WireStep, s: VLANState)
    ensures Run([step], s) == Apply(step, s)
  {
    hide Apply;
    assert [step][1..] == [];
  }
}
