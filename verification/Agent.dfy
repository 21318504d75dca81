/**
 The NSDP agent of a switch: its VLAN tables, its nonce, and how it answers GETs and
 applies authenticated SETs. The other tables are not part of this model.
 */
module Agent {
  import opened Wrappers
  import opened Bits
  import opened Wire

  const TAG_SYSTEM_NAME: u16 := 0x0003
  const TAG_CAPABILITY: u16 := 0x0014
  const TAG_NONCE: u16 := 0x0017
  const TAG_LOGIN_V2: u16 := 0x001a
  const TAG_FACTORY_DEFAULTS: u16 := 0x0400
  const TAG_8021Q: u16 := 0x2800
  const TAG_DELETE_8021Q: u16 := 0x2c00
  const TAG_PVID: u16 := 0x3000
  const STATUS_BAD_ATTR: byte := 0x03
  const STATUS_SET_ERROR: byte := 0x05
  const CAPABILITY: seq<byte> := [0x00, 0x00, 0x00, 0x10]

  // ---------------------------------------------------------------------
  // Tables
  // ---------------------------------------------------------------------

  /** One 802.1Q entry: the logical tagged and untagged port sets. */
  datatype Entry = Entry(vid: u16, tagged: byte, untagged: byte)

  /** The modelled configuration: PVIDs, 802.1Q entries, system name, and the scripted small tags. */
  datatype Tables = Tables(pvid: seq<u16>, vlans: seq<Entry>, name: seq<byte>, attrs: map<byte, seq<byte>>)

  const FACTORY_PVIDS: seq<u16> := [1, 1, 1, 1, 1, 1, 1, 1]
  const FACTORY_VLANS: seq<Entry> := [Entry(1, 0x00, 0xff)]
  const FACTORY_NAME: seq<byte> := [0x47, 0x53, 0x31, 0x30, 0x38, 0x45, 0x76, 0x33]

  /** The wire carries members and tagged members; untagged is what is left. */
  function EntryOf(v: seq<byte>): Entry
    requires |v| == 4
  {
    Entry(Word(v[0], v[1]), And(v[3], v[2]), AndNot(v[2], v[3]))
  }

  /** The position of a VLAN id in the list. */
  function Place(vlans: seq<Entry>, vid: u16): (at: nat)
    ensures at <= |vlans|
    ensures at < |vlans| ==> vlans[at].vid == vid
    ensures forall k :: 0 <= k < at ==> vlans[k].vid != vid
  {
    if vlans == [] || vlans[0].vid == vid then 0 else 1 + Place(vlans[1..], vid)
  }

  function Upsert(vlans: seq<Entry>, e: Entry): seq<Entry> {
    var at := Place(vlans, e.vid);
    if at < |vlans| then vlans[at := e] else vlans + [e]
  }

  function Without(vlans: seq<Entry>, vid: u16): seq<Entry> {
    var at := Place(vlans, vid);
    if at < |vlans| then vlans[..at] + vlans[at + 1..] else vlans
  }

  predicate PortByte(b: byte) {
    1 <= b <= 8
  }

  predicate Bandwidth(v: seq<byte>) {
    |v| == 5 && PortByte(v[0]) && v[1] == 0 && v[2] == 0
  }

  /** A value the SET handler takes; unknown tags are taken and dropped. */
  predicate WellFormedSet(t: TLV) {
    var v := t.value;
    match t.tag
    case 0x9400 => |v| == 3 && PortByte(v[0])
    case 0x3800 => |v| == 2 && PortByte(v[0])
    case 0x3000 => |v| == 3 && PortByte(v[0])
    case 0x4c00 => Bandwidth(v)
    case 0x5000 => Bandwidth(v)
    case 0x5800 => Bandwidth(v)
    case 0x5c00 => |v| == 3
    case 0x3400 => |v| == 1 && 1 <= v[0] <= 2
    case 0x6c00 => |v| == 1
    case 0x2400 => |v| == 3
    case 0x2800 => |v| == 4
    case 0x2c00 => |v| == 2
    case _ => true
  }

  /** The small tags a SET stores, each under the low byte of its tag. */
  predicate IsAttrTag(tag: u16) {
    tag == 0x0005 || tag == 0x0006 || tag == 0x0007 || tag == 0x0008 || tag == 0x000b || tag == 0x2000 || tag == 0x6800
  }

  /** What one accepted SET value does to the tables. */
  function Applied(tables: Tables, t: TLV): Tables
    requires WellFormedSet(t) && |tables.pvid| == PORTS
  {
    var v := t.value;
    if t.tag == TAG_SYSTEM_NAME then tables.(name := v)
    else if IsAttrTag(t.tag) then tables.(attrs := tables.attrs[Low(t.tag) := v])
    else if t.tag == TAG_PVID then tables.(pvid := tables.pvid[v[0] - 1 := Word(v[1], v[2])])
    else if t.tag == TAG_8021Q then tables.(vlans := Upsert(tables.vlans, EntryOf(v)))
    else if t.tag == TAG_DELETE_8021Q then tables.(vlans := Without(tables.vlans, Word(v[0], v[1])))
    else if t.tag == TAG_FACTORY_DEFAULTS then
      tables.(pvid := FACTORY_PVIDS, vlans := FACTORY_VLANS, name := FACTORY_NAME)
    else tables
  }

  /** The values of a SET, up to the first malformed one. */
  datatype SetResult = SetResult(tables: Tables, log: seq<TLV>, failing: Option<u16>)

  function AppliedAll(tables: Tables, log: seq<TLV>, tlvs: seq<TLV>): (r: SetResult)
    requires |tables.pvid| == PORTS
    ensures |r.tables.pvid| == PORTS
    decreases |tlvs|
  {
    if tlvs == [] then SetResult(tables, log, None)
    else if !WellFormedSet(tlvs[0]) then SetResult(tables, log, Some(tlvs[0].tag))
    else AppliedAll(Applied(tables, tlvs[0]), log + [tlvs[0]], tlvs[1..])
  }

  // ---------------------------------------------------------------------
  // Nonce and answers
  // ---------------------------------------------------------------------

  type Nonce = n: seq<byte> | |n| == 4 witness [0, 0, 0, 0]

  /** The next nonce, as a big-endian number. */
  function Rolled(nonce: Nonce): Nonce {
    var v := QuadValue(nonce);
    Quad(if v == 0xffff_ffff then 0 else v + 1)
  }

  /** The token of a nonce under the switch's MAC and password; its arithmetic is not part of this model. */
  type TokenOf = Nonce -> seq<byte>

  /** The log is the history of the SET values that were applied. */
  datatype AgentState = AgentState(nonce: Nonce, tables: Tables, log: seq<TLV>)

  function Answer(nonce: Nonce, tables: Tables, tag: u16): Option<seq<byte>> {
    if tag == TAG_CAPABILITY then Some(CAPABILITY)
    else if tag == TAG_NONCE then Some(nonce)
    else if tag == TAG_SYSTEM_NAME then Some(tables.name)
    else if Low(tag) in tables.attrs then Some(tables.attrs[Low(tag)])
    else None
  }

  /** The answered entries, in the order of the request. */
  function Answers(a: AgentState, tlvs: seq<TLV>): seq<TLV>
    decreases |tlvs|
  {
    if tlvs == [] then []
    else
      var tag := tlvs[|tlvs| - 1].tag;
      Answers(a, tlvs[..|tlvs| - 1])
      + match Answer(a.nonce, a.tables, tag)
        case None => []
        case Some(value) => [TLV(tag, value)]
  }

  function PVIDBytes(pvid: seq<u16>, n: nat): seq<byte>
    requires n <= |pvid| && n < 0x100
  {
    if n == 0 then [] else PVIDBytes(pvid, n - 1) + [n, High(pvid[n - 1]), Low(pvid[n - 1])]
  }

  /** An entry on the wire: its id, its members, its tagged members. */
  function EntryBytes(e: Entry): seq<byte> {
    [High(e.vid), Low(e.vid), Or(e.tagged, e.untagged), e.tagged]
  }

  function EntryTLVs(vlans: seq<Entry>): seq<TLV> {
    if vlans == [] then []
    else EntryTLVs(vlans[..|vlans| - 1]) + [TLV(TAG_8021Q, EntryBytes(vlans[|vlans| - 1]))]
  }

  /** The two VLAN tables as block replies; other blocks are not part of this model. */
  function BlockAnswer(tables: Tables, tag: u16): Option<seq<TLV>>
    requires |tables.pvid| == PORTS
  {
    if tag == TAG_PVID then Some([TLV(TAG_PVID, PVIDBytes(tables.pvid, PORTS))])
    else if tag == TAG_8021Q then Some(EntryTLVs(tables.vlans))
    else None
  }

  /** What a reply says. */
  datatype Answered = Answered(status: byte, failing: u16, tlvs: seq<TLV>)

  function GetAnswer(a: AgentState, w: Walked): Option<Answered>
    requires |a.tables.pvid| == PORTS
  {
    if IsBlockRead(w) then
      match BlockAnswer(a.tables, w.tlvs[1].tag)
      case None => None
      case Some(tlvs) => Some(Answered(0, 0, tlvs))
    else
      var out := Answers(a, w.tlvs);
      if out == [] then Some(Answered(STATUS_BAD_ATTR, if w.tlvs == [] then 0 else w.tlvs[0].tag, []))
      else Some(Answered(0, 0, out))
  }

  function ReplyOf(req: Packet, answer: Option<Answered>): Option<Packet>
    requires |req| >= HEADER_LEN
  {
    match answer
    case None => None
    case Some(x) => Some(ReplyBytes(req, x.status, x.failing, [], x.tlvs))
  }

  function GetReply(a: AgentState, req: Packet): Option<Packet>
    requires |req| >= HEADER_LEN && |a.tables.pvid| == PORTS
  {
    ReplyOf(req, GetAnswer(a, WalkFrom(req[HEADER_LEN..])))
  }

  /** A SET is authentic when its first entry is the token of the agent's own nonce. */
  predicate Authentic(token: TokenOf, nonce: Nonce, tlvs: seq<TLV>) {
    tlvs != [] && tlvs[0] == TLV(TAG_LOGIN_V2, token(nonce))
  }

  datatype Handled = Handled(state: AgentState, reply: Option<Packet>)

  function SetHandled(token: TokenOf, a: AgentState, req: Packet): Handled
    requires |req| >= HEADER_LEN && |a.tables.pvid| == PORTS
  {
    var tlvs := WalkFrom(req[HEADER_LEN..]).tlvs;
    if !Authentic(token, a.nonce, tlvs) then
      var expected := token(a.nonce);
      Handled(a, Some(ReplyBytes(req, STATUS_AUTH, TAG_LOGIN_V2, LengthBytes(expected) + expected, [])))
    else
      var r := AppliedAll(a.tables, a.log, tlvs[1..]);
      match r.failing
      case Some(tag) => Handled(AgentState(a.nonce, r.tables, r.log),
                                Some(ReplyBytes(req, STATUS_SET_ERROR, tag, [], [])))
      case None => Handled(AgentState(Rolled(a.nonce), r.tables, r.log), Some(ReplyBytes(req, 0, 0, [], [])))
  }

  /** Garbage is dropped; GETs and SETs are told apart by the command byte. */
  function HandledBy(token: TokenOf, a: AgentState, req: Packet): Handled
    requires |a.tables.pvid| == PORTS
  {
    if |req| < HEADER_LEN || req[0] != VERSION || req[24..28] != MAGIC then Handled(a, None)
    else if req[1] == CMD_GET then Handled(a, GetReply(a, req))
    else if req[1] == CMD_SET then SetHandled(token, a, req)
    else Handled(a, None)
  }

  // ---------------------------------------------------------------------
  // The agent
  // ---------------------------------------------------------------------

  class FakeAgent {
    const token: TokenOf
    const nonce: array<byte>
    const pvid: array<u16>
    var vlan8021Q: seq<Entry>
    var systemName: seq<byte>
    var attrs: map<byte, seq<byte>>
    ghost var log: seq<TLV>

    ghost predicate Valid()
      reads this, nonce, pvid
    {
      nonce.Length == 4 && pvid.Length == PORTS && {nonce as object} !! {pvid as object}
    }

    ghost function State(): AgentState
      reads this, nonce, pvid
      requires Valid()
    {
      AgentState(nonce[..], Tables(pvid[..], vlan8021Q, systemName, attrs), log)
    }

    constructor (token: TokenOf, start: Nonce, scripted: map<byte, seq<byte>>)
      ensures Valid() && fresh(nonce) && fresh(pvid)
      ensures State() == AgentState(start, Tables(FACTORY_PVIDS, FACTORY_VLANS, FACTORY_NAME, scripted), [])
      ensures this.token == token
    {
      this.token := token;
      nonce := new byte[4](i requires 0 <= i < 4 => start[i]);
      pvid := new u16[PORTS](i requires 0 <= i < PORTS => 1);
      vlan8021Q := FACTORY_VLANS;
      systemName := FACTORY_NAME;
      attrs := scripted;
      log := [];
    }

    /** Adds one to the nonce, carrying from the last byte. */
    method RollNonce()
      requires Valid()
      modifies nonce
      ensures nonce[..] == Rolled(old(nonce[..]))
    {
      var i := 3;
      ghost var start := nonce[..];
      while i >= 0
        invariant -1 <= i <= 3
        invariant forall k :: 0 <= k <= i ==> nonce[k] == start[k]
        invariant forall k :: i < k < 4 ==> nonce[k] == 0 && start[k] == 0xff
      {
        nonce[i] := Next(nonce[i]);
        if nonce[i] != 0 {
          break;
        }
        i := i - 1;
      }
      CarriedIsNext(start, nonce[..], i);
    }

    /** Applies one SET value; a malformed one changes nothing. */
    method ApplyTLV(t: TLV) returns (ok: bool)
      requires Valid()
      modifies pvid, this`vlan8021Q, this`systemName, this`attrs, this`log
      ensures ok == WellFormedSet(t)
      ensures State()
                == if ok then old(State()).(tables := Applied(old(State()).tables, t), log := old(State()).log + [t])
                         else old(State())
    {
      var v := t.value;
      if !WellFormedSet(t) {
        return false;
      }
      log := log + [t];
      if t.tag == TAG_SYSTEM_NAME {
        systemName := v;
      } else if IsAttrTag(t.tag) {
        attrs := attrs[Low(t.tag) := v];
      } else if t.tag == TAG_PVID {
        pvid[v[0] - 1] := Word(v[1], v[2]);
      } else if t.tag == TAG_8021Q {
        Store(EntryOf(v));
      } else if t.tag == TAG_DELETE_8021Q {
        Remove(Word(v[0], v[1]));
      } else if t.tag == TAG_FACTORY_DEFAULTS {
        ResetFactory();
      }
      return true;
    }

    /** Replaces the entry of this id, or appends it. */
    method Store(e: Entry)
      modifies this`vlan8021Q
      ensures vlan8021Q == Upsert(old(vlan8021Q), e)
    {
      for i := 0 to |vlan8021Q|
        invariant vlan8021Q == old(vlan8021Q)
        invariant forall k :: 0 <= k < i ==> vlan8021Q[k].vid != e.vid
      {
        if vlan8021Q[i].vid == e.vid {
          PlaceIs(vlan8021Q, e.vid, i);
          vlan8021Q := vlan8021Q[i := e];
          return;
        }
      }
      vlan8021Q := vlan8021Q + [e];
    }

    /** Deletes the entry of this id; a missing one is no error. */
    method Remove(vid: u16)
      modifies this`vlan8021Q
      ensures vlan8021Q == Without(old(vlan8021Q), vid)
    {
      for i := 0 to |vlan8021Q|
        invariant vlan8021Q == old(vlan8021Q)
        invariant forall k :: 0 <= k < i ==> vlan8021Q[k].vid != vid
      {
        if vlan8021Q[i].vid == vid {
          PlaceIs(vlan8021Q, vid, i);
          vlan8021Q := vlan8021Q[..i] + vlan8021Q[i + 1..];
          return;
        }
      }
    }

    method ResetFactory()
      requires Valid()
      modifies pvid, this`vlan8021Q, this`systemName
      ensures vlan8021Q == FACTORY_VLANS && systemName == FACTORY_NAME && pvid[..] == FACTORY_PVIDS
    {
      systemName := FACTORY_NAME;
      for p := 0 to PORTS
        modifies pvid
        invariant forall k :: 0 <= k < p ==> pvid[k] == 1
      {
        pvid[p] := 1;
      }
      vlan8021Q := FACTORY_VLANS;
    }

    method HandleGet(req: Packet) returns (reply: Option<Packet>)
      requires Valid() && |req| >= HEADER_LEN
      ensures reply == GetReply(State(), req)
    {
      hide WalkFrom, ReplyBytes, Answer, PVIDBytes, EntryBytes;
      var tlvs, truncated := WalkTLVs(req);
      if IsBlockRead(Walked(tlvs, truncated)) {
        reply := ReplyBlockGet(req, tlvs[1].tag);
        return;
      }
      var out: seq<TLV> := [];
      for k := 0 to |tlvs|
        invariant out == Answers(State(), tlvs[..k])
      {
        assert tlvs[..k + 1][..k] == tlvs[..k];
        var value := Answer(nonce[..], Tables(pvid[..], vlan8021Q, systemName, attrs), tlvs[k].tag);
        if value.Some? {
          out := out + [TLV(tlvs[k].tag, value.value)];
        }
      }
      assert tlvs[..|tlvs|] == tlvs;
      var pkt: Packet;
      if |out| == 0 {
        pkt := EncodeReply(req, STATUS_BAD_ATTR, if tlvs == [] then 0 else tlvs[0].tag, [], []);
      } else {
        pkt := EncodeReply(req, 0x00, 0, [], out);
      }
      return Some(pkt);
    }

    /** The PVID table rides in one entry, the 802.1Q table in one entry per VLAN. */
    method ReplyBlockGet(req: Packet, tag: u16) returns (reply: Option<Packet>)
      requires Valid() && |req| >= HEADER_LEN
      ensures reply == match BlockAnswer(State().tables, tag)
                       case None => None
                       case Some(tlvs) => Some(ReplyBytes(req, 0, 0, [], tlvs))
    {
      hide ReplyBytes, EntryBytes;
      var tlvs: seq<TLV> := [];
      if tag == TAG_PVID {
        var v: seq<byte> := [];
        for p := 0 to PORTS
          invariant v == PVIDBytes(pvid[..], p)
        {
          v := v + [p + 1, High(pvid[p]), Low(pvid[p])];
        }
        tlvs := [TLV(tag, v)];
      } else if tag == TAG_8021Q {
        for k := 0 to |vlan8021Q|
          invariant tlvs == EntryTLVs(vlan8021Q[..k])
        {
          assert vlan8021Q[..k + 1][..k] == vlan8021Q[..k];
          tlvs := tlvs + [TLV(tag, EntryBytes(vlan8021Q[k]))];
        }
        assert vlan8021Q[..|vlan8021Q|] == vlan8021Q;
      } else {
        return None;
      }
      var pkt := EncodeReply(req, 0x00, 0, [], tlvs);
      return Some(pkt);
    }

    /**
     Applies the values of an authentic SET and rolls the nonce; anything else is answered with
     the token it wanted.
     */
    method HandleSet(req: Packet) returns (reply: Option<Packet>)
      requires Valid() && |req| >= HEADER_LEN
      modifies this`vlan8021Q, this`systemName, this`attrs, this`log, nonce, pvid
      ensures Handled(State(), reply) == SetHandled(token, old(State()), req)
    {
      hide WalkFrom, ReplyBytes, Applied, WellFormedSet, LengthBytes;
      ghost var start := State();
      var tlvs, _ := WalkTLVs(req);
      var pkt: Packet;
      var expected := token(nonce[..]);
      if tlvs == [] || tlvs[0] != TLV(TAG_LOGIN_V2, expected) {
        pkt := EncodeReply(req, STATUS_AUTH, TAG_LOGIN_V2, LengthBytes(expected) + expected, []);
        return Some(pkt);
      }
      ghost var data := tlvs[1..];
      for k := 1 to |tlvs|
        invariant nonce[..] == start.nonce
        invariant AppliedAll(start.tables, start.log, data) == AppliedAll(State().tables, State().log, tlvs[k..])
      {
        assert tlvs[k..][0] == tlvs[k] && tlvs[k..][1..] == tlvs[k + 1..];
        var ok := ApplyTLV(tlvs[k]);
        if !ok {
          pkt := EncodeReply(req, STATUS_SET_ERROR, tlvs[k].tag, [], []);
          return Some(pkt);
        }
      }
      assert tlvs[|tlvs|..] == [];
      RollNonce();
      pkt := EncodeReply(req, 0x00, 0, [], []);
      return Some(pkt);
    }

    method Handle(req: Packet) returns (reply: Option<Packet>)
      requires Valid()
      modifies this`vlan8021Q, this`systemName, this`attrs, this`log, nonce, pvid
      ensures Handled(State(), reply) == HandledBy(token, old(State()), req)
    {
      hide GetReply, SetHandled;
      if |req| < HEADER_LEN || req[0] != VERSION || req[24..28] != MAGIC {
        return None;
      }
      if req[1] == CMD_GET {
        reply := HandleGet(req);
      } else if req[1] == CMD_SET {
        reply := HandleSet(req);
      } else {
        reply := None;
      }
    }
  }

  lemma CarriedIsNext(before: Nonce, after: Nonce, i: int)
    requires -1 <= i <= 3
    requires forall k :: 0 <= k < i ==> after[k] == before[k]
    requires forall k :: i < k < 4 ==> after[k] == 0 && before[k] == 0xff
    requires i >= 0 ==> before[i] != 0xff && after[i] == before[i] + 1
    ensures after == Rolled(before)
  {
    QuadOfBytes(after);
    CarriedValue(before, after, i);
    hide Quad, QuadValue;
  }

  lemma CarriedValue(before: Nonce, after: Nonce, i: int)
    requires -1 <= i <= 3
    requires forall k :: 0 <= k < i ==> after[k] == before[k]
    requires forall k :: i < k < 4 ==> after[k] == 0 && before[k] == 0xff
    requires i >= 0 ==> before[i] != 0xff && after[i] == before[i] + 1
    ensures QuadValue(after) == if QuadValue(before) == 0xffff_ffff then 0 else QuadValue(before) + 1
  {
    if i == 3 {
      assert after[0] == before[0] && after[1] == before[1] && after[2] == before[2] && after[3] == before[3] + 1;
    } else if i == 2 {
      assert after[0] == before[0] && after[1] == before[1] && after[2] == before[2] + 1;
      assert after[3] == 0 && before[3] == 0xff;
    } else if i == 1 {
      assert after[0] == before[0] && after[1] == before[1] + 1;
      assert after[2] == after[3] == 0 && before[2] == before[3] == 0xff;
    } else if i == 0 {
      assert after[0] == before[0] + 1;
      assert after[1] == after[2] == after[3] == 0 && before[1] == before[2] == before[3] == 0xff;
    } else {
      assert after[0] == after[1] == after[2] == after[3] == 0;
      assert before[0] == before[1] == before[2] == before[3] == 0xff;
    }
  }

  lemma QuadOfBytes(s: Nonce)
    ensures Quad(QuadValue(s)) == s
  {
    hide *;
    QuadOfParts(s[0], s[1], s[2], s[3]);
    QuadValueIs(s);
    var t := [s[0], s[1], s[2], s[3]];
    assert |t| == |s| && t[0] == s[0] && t[1] == s[1] && t[2] == s[2] && t[3] == s[3];
    assert s == t;
  }

  lemma QuadValueIs(s: Nonce)
    ensures QuadValue(s) == Word(s[0], s[1]) * 0x1_0000 + Word(s[2], s[3])
  {
    hide Word;
  }

  lemma QuadOfParts(a: byte, b: byte, c: byte, d: byte)
    ensures Quad(Word(a, b) * 0x1_0000 + Word(c, d)) == [a, b, c, d]
  {
    PartsOfWord(a, b);
    PartsOfWord(c, d);
    hide Quad, Word, High, Low;
    QuadOfHalves(Word(a, b), Word(c, d));
  }

  lemma QuadOfHalves(hi: u16, lo: u16)
    ensures Quad(hi * 0x1_0000 + lo) == [High(hi), Low(hi), High(lo), Low(lo)]
  {
    HalvesOfWord(hi, lo);
    hide High, Low;
  }

  lemma HalvesOfWord(hi: u16, lo: u16)
    ensures (hi * 0x1_0000 + lo) / 0x1_0000 == hi && (hi * 0x1_0000 + lo) % 0x1_0000 == lo
  {
  }

  lemma PlaceIs(vlans: seq<Entry>, vid: u16, at: nat)
    requires at < |vlans| && vlans[at].vid == vid && forall k :: 0 <= k < at ==> vlans[k].vid != vid
    ensures Place(vlans, vid) == at
  {
  }
}
