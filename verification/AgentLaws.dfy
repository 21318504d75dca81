/** The bytes of some frames, and what single SET values do to the agent's tables. */
module AgentLaws {
  import opened Wrappers
  import opened Bits
  import opened Wire
  import opened Agent

  // ---------------------------------------------------------------------
  // Frames, byte by byte
  // ---------------------------------------------------------------------

  const SOME_MANAGER: Mac := [0x10, 0x11, 0x12, 0x13, 0x14, 0x15]
  const SOME_AGENT: Mac := [0x20, 0x21, 0x22, 0x23, 0x24, 0x25]

  lemma QuadBytes(a: byte, b: byte, c: byte, d: byte)
    ensures var v: int := Word(a, b) as int * 0x1_0000 + Word(c, d) as int;
            0 <= v < 0x1_0000_0000 && Quad(v) == [a, b, c, d]
  {
    PartsOfWord(a, b);
    PartsOfWord(c, d);
    Halves(Word(a, b), Word(c, d));
    hide High, Low, Word;
  }

  lemma Halves(hi: u16, lo: u16)
    ensures var v: int := hi as int * 0x1_0000 + lo as int; v / 0x1_0000 == hi as int && v % 0x1_0000 == lo as int
  {
  }

  /** The header: version, command, six zeros, manager, agent, sequence number, magic, four zeros. */
  lemma HeaderBytes()
    ensures Header(CMD_SET, SOME_MANAGER, Some(SOME_AGENT), 0x0102_0304)
         == [0x01, 0x03, 0, 0, 0, 0, 0, 0, 0x10, 0x11, 0x12, 0x13, 0x14, 0x15, 0x20, 0x21, 0x22, 0x23, 0x24, 0x25,
             0x01, 0x02, 0x03, 0x04, 0x4e, 0x53, 0x44, 0x50, 0, 0, 0, 0]
    ensures Header(CMD_GET, SOME_MANAGER, None, 0x0102_0304)
         == [0x01, 0x01, 0, 0, 0, 0, 0, 0, 0x10, 0x11, 0x12, 0x13, 0x14, 0x15, 0, 0, 0, 0, 0, 0,
             0x01, 0x02, 0x03, 0x04, 0x4e, 0x53, 0x44, 0x50, 0, 0, 0, 0]
  {
    QuadBytes(1, 2, 3, 4);
    assert Word(1, 2) == 0x0102 && Word(3, 4) == 0x0304;
    hide Quad;
  }

  /** What follows the header in a GET of the system name, and in a SET of a PVID. */
  lemma RegionBytes()
    ensures AttrRequest(SOME_MANAGER, Some(SOME_AGENT), 0, [3])
         == Header(CMD_GET, SOME_MANAGER, Some(SOME_AGENT), 0) + [0, 3, 0, 0, 0, 0, 0, 0, 0xff, 0xff, 0, 0]
    ensures TLVRequest(CMD_SET, SOME_MANAGER, Some(SOME_AGENT), 0, [TLV(0x3000, [5, 0x01, 0x02])])
         == Header(CMD_SET, SOME_MANAGER, Some(SOME_AGENT), 0) + [0x30, 0x00, 0, 3, 5, 0x01, 0x02, 0xff, 0xff, 0, 0]
  {
    hide Header;
    assert [3][..0] == [];
    assert AttrEntries([3]) == [] + [3, 0, 0, 0];
    RegionSnoc([], TLV(0x3000, [5, 0x01, 0x02]));
    NoRegion();
    assert TLVBytes(TLV(0x3000, [5, 0x01, 0x02])) == [0x30, 0x00, 0, 3, 5, 0x01, 0x02];
    hide Region, TLVBytes;
    assert [] + [TLV(0x3000, [5, 0x01, 0x02])] == [TLV(0x3000, [5, 0x01, 0x02])];
  }

  /** A reply: the command plus one, the status, the failing tag, and the MACs and the number of the request. */
  lemma ReplyByte(req: Packet, status: byte, failing: u16)
    requires |req| >= HEADER_LEN && req[1] < 0xff
    ensures var pkt := ReplyBytes(req, status, failing, [], []);
            && |pkt| == 36 && pkt[0] == 0x01 && pkt[1] == req[1] + 1 && pkt[2] == status && pkt[3] == 0
            && Word(pkt[4], pkt[5]) == failing && pkt[6] == 0 && pkt[7] == 0 && pkt[8..24] == req[8..24]
            && pkt[24..28] == [0x4e, 0x53, 0x44, 0x50] && pkt[32..] == [0xff, 0xff, 0, 0]
  {
    WordParts(failing);
    NoRegion();
    hide Word, High, Low, Region;
  }

  // ---------------------------------------------------------------------
  // Values
  // ---------------------------------------------------------------------

  /** The values that are refused: those of these tags in another shape. */
  lemma ShapesTaken(t: TLV)
    ensures t.tag == 0x3000 || t.tag == 0x9400 ==> (WellFormedSet(t) <==> |t.value| == 3 && 1 <= t.value[0] <= 8)
    ensures t.tag == 0x3800 ==> (WellFormedSet(t) <==> |t.value| == 2 && 1 <= t.value[0] <= 8)
    ensures t.tag == 0x4c00 || t.tag == 0x5000 || t.tag == 0x5800 ==>
              (WellFormedSet(t) <==> |t.value| == 5 && 1 <= t.value[0] <= 8 && t.value[1] == 0 && t.value[2] == 0)
    ensures t.tag == 0x3400 ==> (WellFormedSet(t) <==> |t.value| == 1 && 1 <= t.value[0] <= 2)
    ensures t.tag == 0x6c00 ==> (WellFormedSet(t) <==> |t.value| == 1)
    ensures t.tag == 0x5c00 || t.tag == 0x2400 ==> (WellFormedSet(t) <==> |t.value| == 3)
    ensures t.tag == 0x2800 ==> (WellFormedSet(t) <==> |t.value| == 4)
    ensures t.tag == 0x2c00 ==> (WellFormedSet(t) <==> |t.value| == 2)
    ensures !WellFormedSet(t) ==>
              || t.tag == 0x3000 || t.tag == 0x9400 || t.tag == 0x3800 || t.tag == 0x4c00 || t.tag == 0x5000
              || t.tag == 0x5800 || t.tag == 0x3400 || t.tag == 0x6c00 || t.tag == 0x5c00 || t.tag == 0x2400
              || t.tag == 0x2800 || t.tag == 0x2c00
  {
  }

  /** A system name and a small value are read back under their tags; the two mode tags share the key 0. */
  lemma StoredIsAnswered(nonce: Nonce, tables: Tables, value: seq<byte>)
    requires |tables.pvid| == PORTS
    ensures Answer(nonce, Applied(tables, TLV(0x0003, value)), 0x0003) == Some(value)
    ensures Answer(nonce, Applied(tables, TLV(0x0005, value)), 0x0005) == Some(value)
    ensures Answer(nonce, Applied(tables, TLV(0x0006, value)), 0x0006) == Some(value)
    ensures Answer(nonce, Applied(tables, TLV(0x0007, value)), 0x0007) == Some(value)
    ensures Answer(nonce, Applied(tables, TLV(0x0008, value)), 0x0008) == Some(value)
    ensures Answer(nonce, Applied(tables, TLV(0x000b, value)), 0x000b) == Some(value)
    ensures Answer(nonce, Applied(tables, TLV(0x2000, value)), 0x0000) == Some(value)
    ensures Answer(nonce, Applied(tables, TLV(0x6800, value)), 0x0000) == Some(value)
    ensures Answer(nonce, tables, 0x0014) == Some([0, 0, 0, 0x10]) && Answer(nonce, tables, 0x0017) == Some(nonce)
  {
  }

  /** What each kind of value leaves alone, and what it sets. */
  lemma EffectOf(tables: Tables, t: TLV)
    requires WellFormedSet(t) && |tables.pvid| == PORTS
    ensures var next := Applied(tables, t);
            && (t.tag != 0x3000 && t.tag != 0x0400 ==> next.pvid == tables.pvid)
            && (t.tag != 0x2800 && t.tag != 0x2c00 && t.tag != 0x0400 ==> next.vlans == tables.vlans)
            && (t.tag != 0x0003 && t.tag != 0x0400 ==> next.name == tables.name)
            && (t.tag == 0x3000 ==>
                  forall p :: 0 <= p < PORTS ==>
                    next.pvid[p] == if p + 1 == t.value[0] then Word(t.value[1], t.value[2]) else tables.pvid[p])
            && (t.tag == 0x0400 ==>
                  && next.pvid == [1, 1, 1, 1, 1, 1, 1, 1] && next.vlans == [Entry(1, 0, 0xff)]
                  && next.name == [0x47, 0x53, 0x31, 0x30, 0x38, 0x45, 0x76, 0x33] && next.attrs == tables.attrs)
  {
    hide Word, Upsert, Without, EntryOf;
  }

  /** The PVID table on the wire: for each port its number and its PVID, the high byte first. */
  lemma {:induction false} PVIDBytesAt(pvid: seq<u16>, n: nat)
    requires n <= |pvid| && n < 0x100
    ensures |PVIDBytes(pvid, n)| == 3 * n
    ensures forall k :: 0 <= k < n ==>
              var v := PVIDBytes(pvid, n);
              && v[3 * k] as int == k + 1
              && 256 * v[3 * k + 1] as int + v[3 * k + 2] as int == pvid[k] as int
  {
    if n > 0 {
      PVIDBytesAt(pvid, n - 1);
      WordParts(pvid[n - 1]);
    }
  }

  /** A stored entry: tagged are the tagged members, untagged the other members. */
  lemma EntryBits(v: seq<byte>, port: int)
    requires |v| == 4 && InRange(port)
    ensures EntryOf(v).vid == Word(v[0], v[1])
    ensures Bit(EntryOf(v).tagged, port) <==> Bit(v[2], port) && Bit(v[3], port)
    ensures Bit(EntryOf(v).untagged, port) <==> Bit(v[2], port) && !Bit(v[3], port)
  {
    hide Bit, And, AndNot, Word;
    AndBits(v[3], v[2], port);
    AndNotBits(v[2], v[3], port);
  }

  /** Big-endian: the high byte counts 256. */
  lemma WordIs(hi: byte, lo: byte)
    ensures Word(hi, lo) == 256 * hi as int + lo as int
  {
  }

  /** Any other tag is looked up under its low byte. */
  lemma OtherTag(nonce: Nonce, tables: Tables, tag: u16)
    requires tag != 0x0003 && tag != 0x0014 && tag != 0x0017
    ensures var key: byte := tag % 0x100;
            Answer(nonce, tables, tag) == if key in tables.attrs then Some(tables.attrs[key]) else None
  {
  }

  // ---------------------------------------------------------------------
  // Refusals
  // ---------------------------------------------------------------------

  /** A GET that nothing answers gets status 3 with its first tag. */
  lemma UnknownIsRefused(a: AgentState, w: Walked)
    requires |a.tables.pvid| == PORTS && !IsBlockRead(w) && Answers(a, w.tlvs) == []
    ensures GetAnswer(a, w) == Some(Answered(0x03, if w.tlvs == [] then 0 else w.tlvs[0].tag, []))
  {
  }

  /** Without the token of the nonce under the login tag in front, nothing changes, and status 0x0d announces it. */
  lemma StrangerIsRefused(token: TokenOf, a: AgentState, req: Packet)
    requires |req| >= HEADER_LEN && |a.tables.pvid| == PORTS
    requires var tlvs := WalkFrom(req[HEADER_LEN..]).tlvs;
             tlvs == [] || tlvs[0].tag != 0x001a || tlvs[0].value != token(a.nonce)
    ensures SetHandled(token, a, req)
         == Handled(a, Some(ReplyBytes(req, 0x0d, 0x001a, LengthBytes(token(a.nonce)) + token(a.nonce), [])))
  {
    hide WalkFrom, ReplyBytes, LengthBytes;
  }

  lemma PVIDsStay(tables: Tables, t: TLV)
    requires WellFormedSet(t) && |tables.pvid| == PORTS
    ensures |Applied(tables, t).pvid| == PORTS
  {
    hide Upsert, Without, EntryOf, Word;
  }

  /** A malformed value gets status 5 with its tag; what came before it is applied, and the nonce stays. */
  lemma MalformedIsRefused(token: TokenOf, a: AgentState, req: Packet, good: TLV, bad: TLV)
    requires |req| >= HEADER_LEN && |a.tables.pvid| == PORTS && WellFormedSet(good) && !WellFormedSet(bad)
    requires WalkFrom(req[HEADER_LEN..]).tlvs == [TLV(0x001a, token(a.nonce)), good, bad]
    ensures SetHandled(token, a, req)
         == Handled(AgentState(a.nonce, Applied(a.tables, good), a.log + [good]),
                    Some(ReplyBytes(req, 0x05, bad.tag, [], [])))
  {
    hide WalkFrom, ReplyBytes, WellFormedSet, Applied;
    var tlvs := [TLV(0x001a, token(a.nonce)), good, bad];
    assert tlvs[1..] == [good, bad] && [good, bad][1..] == [bad];
    var next, log := Applied(a.tables, good), a.log + [good];
    PVIDsStay(a.tables, good);
    assert AppliedAll(next, log, [bad]) == SetResult(next, log, Some(bad.tag));
  }

  /** Too short, or of another version, magic or command: no answer, and nothing changes. */
  lemma GarbageIsDropped(token: TokenOf, a: AgentState, req: Packet)
    requires |a.tables.pvid| == PORTS
    requires || |req| < 32 || req[0] != 0x01 || req[24..28] != [0x4e, 0x53, 0x44, 0x50]
             || (req[1] != 0x01 && req[1] != 0x03)
    ensures HandledBy(token, a, req) == Handled(a, None)
  {
    hide SetHandled, GetReply;
  }
}
