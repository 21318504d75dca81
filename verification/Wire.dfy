/**
 NSDP frames byte by byte: the 32-byte header, the TLV region behind it, and the
 request quirk that the byte at offset 32 is the high byte of the first tag.
 */
module Wire {
  import opened Wrappers
  import opened Bits

  const HEADER_LEN := 32
  const REPLY_MIN_LEN := 36
  /** Both ends read a datagram into a buffer of this size; what does not fit is lost. */
  const BUFFER := 4096
  /** The bytes a buffer has for entries. */
  const ROOM := BUFFER - HEADER_LEN
  /** The longest datagram a socket sends. */
  const MAX_DATAGRAM := 65507
  const VERSION: byte := 0x01
  const CMD_GET: byte := 0x01
  const CMD_SET: byte := 0x03
  const TERM_TAG: u16 := 0xFFFF
  const STATUS_AUTH: byte := 0x0d
  const MAGIC: seq<byte> := [0x4e, 0x53, 0x44, 0x50]
  const TERMINATOR: seq<byte> := [0xff, 0xff, 0x00, 0x00]
  const BLOCK_MARKER_V1: u16 := 0x000F
  const BLOCK_MARKER_V2: u16 := 0x0014

  type Packet = seq<byte>

  /** A MAC address; none stands for broadcast. */
  type Mac = m: seq<byte> | |m| == 6 witness [0, 0, 0, 0, 0, 0]

  datatype TLV = TLV(tag: u16, value: seq<byte>)

  // ---------------------------------------------------------------------
  // Frames as values
  // ---------------------------------------------------------------------

  /** The two length bytes; a longer value is truncated to 16 bits. */
  function LengthBytes(value: seq<byte>): seq<byte> {
    [High(|value| % 0x1_0000), Low(|value| % 0x1_0000)]
  }

  function TLVBytes(t: TLV): seq<byte> {
    [High(t.tag), Low(t.tag)] + LengthBytes(t.value) + t.value
  }

  function Region(tlvs: seq<TLV>): seq<byte> {
    if tlvs == [] then [] else Region(tlvs[..|tlvs| - 1]) + TLVBytes(tlvs[|tlvs| - 1])
  }

  function Header(cmd: byte, manager: Mac, agent: Option<Mac>, seqno: u32): (r: Packet)
    ensures |r| == HEADER_LEN
  {
    var to := if agent.Some? then agent.value else [0, 0, 0, 0, 0, 0];
    [VERSION, cmd, 0, 0, 0, 0, 0, 0] + manager + to + Quad(seqno) + MAGIC + [0, 0, 0, 0]
  }

  /** A request with TLVs; with none the byte at offset 32 stays in front of the terminator. */
  function TLVRequest(cmd: byte, manager: Mac, agent: Option<Mac>, seqno: u32, tlvs: seq<TLV>): Packet {
    Header(cmd, manager, agent, seqno) + (if tlvs == [] then [0] else Region(tlvs)) + TERMINATOR
  }

  function AttrEntries(tags: seq<byte>): seq<byte> {
    if tags == [] then [] else AttrEntries(tags[..|tags| - 1]) + [tags[|tags| - 1], 0, 0, 0]
  }

  function AttrRequest(manager: Mac, agent: Option<Mac>, seqno: u32, tags: seq<byte>): Packet {
    Header(CMD_GET, manager, agent, seqno) + [0] + AttrEntries(tags) + [0, 0, 0] + TERMINATOR
  }

  /** What of a request a reply echoes: manager and agent MAC, and the sequence number. */
  function Echo(req: Packet): Packet
    requires |req| >= HEADER_LEN
  {
    req[8..24]
  }

  /** byte(b + 1) */
  function Next(b: byte): byte {
    if b == 0xff then 0 else b + 1
  }

  function ReplyHeader(req: Packet, status: byte, failing: u16): (r: Packet)
    requires |req| >= HEADER_LEN
    ensures |r| == HEADER_LEN
  {
    [VERSION, Next(req[1]), status, 0, High(failing), Low(failing), 0, 0] + Echo(req) + MAGIC + [0, 0, 0, 0]
  }

  function ReplyBytes(req: Packet, status: byte, failing: u16, payload: seq<byte>, tlvs: seq<TLV>): Packet
    requires |req| >= HEADER_LEN
  {
    ReplyHeader(req, status, failing) + payload + Region(tlvs) + TERMINATOR
  }

  // ---------------------------------------------------------------------
  // Building frames
  // ---------------------------------------------------------------------

  /** The header and one more byte, the high byte of the first tag. */
  method EncodeHeader(manager: Mac, agent: Option<Mac>, seqno: u32) returns (req: Packet)
    ensures req == Header(CMD_GET, manager, agent, seqno) + [0]
  {
    req := [VERSION, CMD_GET, 0, 0, 0, 0, 0, 0];
    req := req + manager;
    if agent.Some? {
      req := req + agent.value;
    } else {
      req := req + [0, 0, 0, 0, 0, 0];
    }
    req := req + Quad(seqno);
    req := req + MAGIC;
    req := req + [0, 0, 0, 0];
    req := req + [0];
  }

  lemma HeaderCommand(cmd: byte, manager: Mac, agent: Option<Mac>, seqno: u32)
    ensures (Header(CMD_GET, manager, agent, seqno) + [0])[1 := cmd] == Header(cmd, manager, agent, seqno) + [0]
  {
  }

  method EncodeGetRequest(manager: Mac, agent: Option<Mac>, seqno: u32, tags: seq<byte>) returns (req: Packet)
    ensures req == AttrRequest(manager, agent, seqno, tags)
  {
    hide Header;
    req := EncodeHeader(manager, agent, seqno);
    HeaderCommand(CMD_GET, manager, agent, seqno);
    req := req[1 := CMD_GET];
    for k := 0 to |tags|
      invariant req == Header(CMD_GET, manager, agent, seqno) + [0] + AttrEntries(tags[..k])
    {
      assert tags[..k + 1][..k] == tags[..k];
      req := req + [tags[k], 0x00, 0x00, 0x00];
    }
    assert tags[..|tags|] == tags;
    req := req + [0x00, 0x00, 0x00, 0xff, 0xff, 0x00, 0x00];
  }

  /** The shared TLV request builder: the first tag's high byte goes to offset 32. */
  method EncodeTLVs(cmd: byte, manager: Mac, agent: Option<Mac>, seqno: u32, tlvs: seq<TLV>) returns (req: Packet)
    ensures req == TLVRequest(cmd, manager, agent, seqno, tlvs)
  {
    hide Header, LengthBytes, TLVBytes, High, Low;
    req := EncodeHeader(manager, agent, seqno);
    HeaderCommand(cmd, manager, agent, seqno);
    req := req[1 := cmd];
    ghost var head := Header(cmd, manager, agent, seqno);
    for k := 0 to |tlvs|
      invariant |head| == HEADER_LEN
      invariant req == head + if k == 0 then [0] else Region(tlvs[..k])
    {
      assert tlvs[..k + 1][..k] == tlvs[..k];
      var t := tlvs[k];
      if k == 0 {
        FirstEntry(head, t);
        assert Region(tlvs[..1]) == [] + TLVBytes(t);
        req := req[32 := High(t.tag)];
        req := req + [Low(t.tag)] + LengthBytes(t.value);
      } else {
        NextEntry(head, Region(tlvs[..k]), t);
        req := req + [High(t.tag), Low(t.tag)] + LengthBytes(t.value);
      }
      req := req + t.value;
    }
    assert tlvs[..|tlvs|] == tlvs;
    req := req + TERMINATOR;
  }

  lemma FirstEntry(head: Packet, t: TLV)
    requires |head| == HEADER_LEN
    ensures (head + [0])[32 := High(t.tag)] + [Low(t.tag)] + LengthBytes(t.value) + t.value == head + TLVBytes(t)
  {
    hide LengthBytes;
  }

  lemma NextEntry(head: Packet, region: seq<byte>, t: TLV)
    ensures head + region + [High(t.tag), Low(t.tag)] + LengthBytes(t.value) + t.value == head + (region + TLVBytes(t))
  {
    hide LengthBytes, High, Low;
  }

  /** The reply to a request, with its TLVs. */
  method EncodeReply(req: Packet, status: byte, failing: u16, payload: seq<byte>, tlvs: seq<TLV>) returns (pkt: Packet)
    requires |req| >= HEADER_LEN
    ensures pkt == ReplyBytes(req, status, failing, payload, tlvs)
  {
    pkt := [VERSION, Next(req[1]), status, 0x00];
    pkt := pkt + [High(failing), Low(failing), 0x00, 0x00];
    pkt := pkt + req[8..24];
    pkt := pkt + MAGIC;
    pkt := pkt + [0, 0, 0, 0];
    assert pkt == ReplyHeader(req, status, failing);
    pkt := pkt + payload;
    hide ReplyHeader;
    for k := 0 to |tlvs|
      invariant pkt == ReplyHeader(req, status, failing) + payload + Region(tlvs[..k])
    {
      assert tlvs[..k + 1][..k] == tlvs[..k];
      var t := tlvs[k];
      pkt := pkt + [High(t.tag), Low(t.tag)] + LengthBytes(t.value);
      pkt := pkt + t.value;
    }
    assert tlvs[..|tlvs|] == tlvs;
    pkt := pkt + TERMINATOR;
  }

  // ---------------------------------------------------------------------
  // Walking the TLV region
  // ---------------------------------------------------------------------

  datatype Walked = Walked(tlvs: seq<TLV>, truncated: bool)

  function Before(t: TLV, w: Walked): Walked {
    w.(tlvs := [t] + w.tlvs)
  }

  /** Entries up to a terminator tag, the end of the packet, or an entry that is cut off. */
  function WalkFrom(bytes: seq<byte>): Walked {
    if |bytes| < 4 || Word(bytes[0], bytes[1]) == TERM_TAG then Walked([], false)
    else
      var n := Word(bytes[2], bytes[3]);
      if 4 + n > |bytes| then Walked([], true)
      else Before(TLV(Word(bytes[0], bytes[1]), bytes[4..4 + n]), WalkFrom(bytes[4 + n..]))
  }

  method WalkTLVs(pkt: Packet) returns (tlvs: seq<TLV>, truncated: bool)
    requires |pkt| >= HEADER_LEN
    ensures Walked(tlvs, truncated) == WalkFrom(pkt[HEADER_LEN..])
  {
    hide WalkFrom, Word;
    tlvs := [];
    var off := HEADER_LEN;
    ghost var all := WalkFrom(pkt[HEADER_LEN..]);
    while off + 4 <= |pkt|
      invariant HEADER_LEN <= off <= |pkt|
      invariant all == Walked(tlvs + WalkFrom(pkt[off..]).tlvs, WalkFrom(pkt[off..]).truncated)
      decreases |pkt| - off
    {
      WalkStep(pkt, off);
      var tag := Word(pkt[off], pkt[off + 1]);
      if tag == TERM_TAG {
        break;
      }
      var length := Word(pkt[off + 2], pkt[off + 3]);
      if off + 4 + length > |pkt| {
        return tlvs, true;
      }
      tlvs := tlvs + [TLV(tag, pkt[off + 4..off + 4 + length])];
      off := off + 4 + length;
    }
    WalkStep(pkt, off);
    return tlvs, false;
  }

  /** One step of the walk, by packet offsets. */
  lemma WalkStep(pkt: Packet, off: nat)
    requires off <= |pkt|
    ensures WalkFrom(pkt[off..])
         == if off + 4 > |pkt| || Word(pkt[off], pkt[off + 1]) == TERM_TAG then Walked([], false)
            else if off + 4 + Word(pkt[off + 2], pkt[off + 3]) > |pkt| then Walked([], true)
            else
              var n := Word(pkt[off + 2], pkt[off + 3]);
              Before(TLV(Word(pkt[off], pkt[off + 1]), pkt[off + 4..off + 4 + n]), WalkFrom(pkt[off + 4 + n..]))
  {
    hide Word;
    var rest := pkt[off..];
    Inside(pkt, off, 0, |pkt| - off);
    if |rest| >= 4 && off + 4 + Word(rest[2], rest[3]) <= |pkt| {
      var n: nat := Word(rest[2], rest[3]);
      Inside(pkt, off, 4, 4 + n);
      assert rest[4 + n..] == pkt[off + 4 + n..];
    }
  }

  /** Values whose length fits its field. */
  predicate ShortValues(tlvs: seq<TLV>) {
    forall k :: 0 <= k < |tlvs| ==> |tlvs[k].value| < 0x1_0000
  }

  /** Entries that a walk can tell apart from the terminator and whose length fits its field. */
  predicate Framed(tlvs: seq<TLV>) {
    forall k :: 0 <= k < |tlvs| ==> tlvs[k].tag != TERM_TAG && |tlvs[k].value| < 0x1_0000
  }

  lemma WalkOne(t: TLV, rest: seq<byte>)
    requires t.tag != TERM_TAG && |t.value| < 0x1_0000
    ensures WalkFrom(TLVBytes(t) + rest) == Before(t, WalkFrom(rest))
  {
    WordParts(t.tag);
    WordParts(|t.value|);
    hide Word, High, Low, TLVBytes;
    EntryParts(t, rest);
  }

  lemma EntryParts(t: TLV, rest: seq<byte>)
    requires |t.value| < 0x1_0000
    ensures var bytes := TLVBytes(t) + rest;
            && |bytes| == 4 + |t.value| + |rest|
            && bytes[0] == High(t.tag) && bytes[1] == Low(t.tag)
            && bytes[2] == High(|t.value|) && bytes[3] == Low(|t.value|)
            && bytes[4..4 + |t.value|] == t.value && bytes[4 + |t.value|..] == rest
  {
    hide High, Low;
    var front := [High(t.tag), Low(t.tag)] + LengthBytes(t.value);
    assert TLVBytes(t) + rest == front + t.value + rest;
    Middle(front, t.value, rest);
  }

  lemma Middle<T>(a: seq<T>, b: seq<T>, c: seq<T>)
    ensures (a + b + c)[|a|..|a| + |b|] == b && (a + b + c)[|a| + |b|..] == c
    ensures forall k :: 0 <= k < |a| ==> (a + b + c)[k] == a[k]
  {
  }

  /** The walk over a region and the terminator yields exactly the entries. */
  lemma {:induction false} WalkRegion(tlvs: seq<TLV>, rest: seq<byte>)
    requires Framed(tlvs)
    ensures WalkFrom(Region(tlvs) + rest) == Walked(tlvs + WalkFrom(rest).tlvs, WalkFrom(rest).truncated)
  {
    hide TLVBytes, WalkFrom;
    if tlvs == [] {
      assert Region(tlvs) + rest == rest;
    } else {
      var n := |tlvs| - 1;
      assert Framed(tlvs[..n]);
      WalkRegion(tlvs[..n], TLVBytes(tlvs[n]) + rest);
      WalkOne(tlvs[n], rest);
      assert Region(tlvs) + rest == Region(tlvs[..n]) + (TLVBytes(tlvs[n]) + rest);
      assert tlvs == tlvs[..n] + [tlvs[n]];
    }
  }

  lemma WalkTerminator()
    ensures WalkFrom(TERMINATOR) == Walked([], false)
  {
  }

  /** A request with TLVs walks back to exactly its list. */
  lemma WalkRequest(cmd: byte, manager: Mac, agent: Option<Mac>, seqno: u32, tlvs: seq<TLV>)
    requires tlvs != [] && Framed(tlvs)
    ensures WalkFrom(TLVRequest(cmd, manager, agent, seqno, tlvs)[HEADER_LEN..]) == Walked(tlvs, false)
  {
    hide Header, Region, WalkFrom;
    WalkRegion(tlvs, TERMINATOR);
    WalkTerminator();
    var head := Header(cmd, manager, agent, seqno);
    assert (head + Region(tlvs) + TERMINATOR)[HEADER_LEN..] == Region(tlvs) + TERMINATOR;
  }

  lemma {:induction false} RegionAppend(a: seq<TLV>, b: seq<TLV>)
    ensures Region(a + b) == Region(a) + Region(b)
  {
    hide TLVBytes;
    if b == [] {
      assert a + b == a;
    } else {
      var n := |b| - 1;
      RegionAppend(a, b[..n]);
      assert (a + b)[..|a| + n] == a + b[..n];
    }
  }

  /** Without a TLV the stray byte shifts the terminator: the walk reads a cut-off entry. */
  lemma WalkEmptyRequest(cmd: byte, manager: Mac, agent: Option<Mac>, seqno: u32)
    ensures WalkFrom(TLVRequest(cmd, manager, agent, seqno, [])[HEADER_LEN..]) == Walked([], true)
  {
    hide Header;
    var head := Header(cmd, manager, agent, seqno);
    assert (head + [0] + TERMINATOR)[HEADER_LEN..] == [0, 0xff, 0xff, 0x00, 0x00];
  }

  /** The reply to a request walks back to exactly its list, when it carries no extra payload. */
  lemma WalkReply(req: Packet, status: byte, failing: u16, tlvs: seq<TLV>)
    requires |req| >= HEADER_LEN && Framed(tlvs)
    ensures WalkFrom(ReplyBytes(req, status, failing, [], tlvs)[HEADER_LEN..]) == Walked(tlvs, false)
  {
    hide ReplyHeader, Region, WalkFrom;
    WalkRegion(tlvs, TERMINATOR);
    WalkTerminator();
    var head := ReplyHeader(req, status, failing);
    assert (head + [] + Region(tlvs) + TERMINATOR)[HEADER_LEN..] == Region(tlvs) + TERMINATOR;
  }

  // ---------------------------------------------------------------------
  // Datagrams longer than the buffer
  // ---------------------------------------------------------------------

  function UpTo(bytes: seq<byte>, n: nat): seq<byte> {
    if |bytes| <= n then bytes else bytes[..n]
  }

  /** A datagram as the other end reads it. */
  function Cut(p: Packet): Packet {
    UpTo(p, BUFFER)
  }

  /** What becomes of a reply: the socket refuses one that is longer than a datagram. */
  function Sent(reply: Option<Packet>): Option<Packet> {
    if reply.Some? && |reply.value| > MAX_DATAGRAM then None else reply
  }

  /** What a walk sees of entries when only the first bytes of their region have room. */
  function Seen(tlvs: seq<TLV>, room: nat): Walked {
    if tlvs == [] || room < 4 || tlvs[0].tag == TERM_TAG then Walked([], false)
    else if 4 + |tlvs[0].value| > room then Walked([], true)
    else Before(tlvs[0], Seen(tlvs[1..], room - 4 - |tlvs[0].value|))
  }

  lemma SeenOne(t: TLV, room: nat)
    ensures Seen([t], room)
         == if room < 4 || t.tag == TERM_TAG then Walked([], false)
            else if 4 + |t.value| > room then Walked([], true)
            else Walked([t], false)
  {
    assert [t][1..] == [];
    assert [t] + [] == [t];
  }

  lemma SeenTwo(t: TLV, u: TLV, room: nat)
    ensures Seen([t, u], room)
         == if room < 4 || t.tag == TERM_TAG then Walked([], false)
            else if 4 + |t.value| > room then Walked([], true)
            else Before(t, Seen([u], room - 4 - |t.value|))
    ensures room >= 4 + |t.value| && t.tag != TERM_TAG ==>
              Seen([t, u], room).tlvs == if Seen([u], room - 4 - |t.value|).tlvs == [] then [t] else [t, u]
  {
    assert [t, u][1..] == [u];
    if room >= 4 + |t.value| {
      SeenOne(u, room - 4 - |t.value|);
    }
  }

  lemma RegionFirst(tlvs: seq<TLV>)
    requires tlvs != []
    ensures Region(tlvs) == TLVBytes(tlvs[0]) + Region(tlvs[1..])
  {
    RegionAppend([tlvs[0]], tlvs[1..]);
    RegionSnoc([], tlvs[0]);
    NoRegion();
    hide Region, TLVBytes;
    assert tlvs == [tlvs[0]] + tlvs[1..] && [] + [tlvs[0]] == [tlvs[0]];
  }

  /** A walk over a region that is cut anywhere sees the entries in front of the cut, up to the terminator's tag. */
  lemma {:induction false} WalkSeen(tlvs: seq<TLV>, room: nat)
    requires ShortValues(tlvs)
    ensures WalkFrom(UpTo(Region(tlvs) + TERMINATOR, room)) == Seen(tlvs, room)
  {
    hide Region, TLVBytes, WalkFrom;
    if tlvs == [] {
      NoRegion();
      CutTerminator(room);
    } else {
      var t, rest := tlvs[0], Region(tlvs[1..]) + TERMINATOR;
      RegionFirst(tlvs);
      assert Region(tlvs) + TERMINATOR == TLVBytes(t) + rest;
      EntryParts(t, rest);
      if room < 4 || t.tag == TERM_TAG || 4 + |t.value| > room {
        CutInside(t, rest, room);
      } else {
        assert UpTo(TLVBytes(t) + rest, room) == TLVBytes(t) + UpTo(rest, room - 4 - |t.value|);
        WalkOne(t, UpTo(rest, room - 4 - |t.value|));
        assert forall k :: 0 <= k < |tlvs[1..]| ==> tlvs[1..][k] == tlvs[k + 1];
        WalkSeen(tlvs[1..], room - 4 - |t.value|);
      }
    }
  }

  lemma CutTerminator(room: nat)
    ensures WalkFrom(UpTo([] + TERMINATOR, room)) == Walked([], false)
  {
    assert [] + TERMINATOR == TERMINATOR;
    WalkTerminator();
  }

  lemma CutInside(t: TLV, rest: seq<byte>, room: nat)
    requires |t.value| < 0x1_0000 && |rest| >= 4
    requires room < 4 || t.tag == TERM_TAG || 4 + |t.value| > room
    ensures WalkFrom(UpTo(TLVBytes(t) + rest, room)) == Walked([], room >= 4 && t.tag != TERM_TAG)
  {
    EntryParts(t, rest);
    WordParts(t.tag);
    WordParts(|t.value|);
    hide TLVBytes, High, Low, Word;
  }

  /** A non-empty request, as the agent reads it, walks to the entries that fit and precede a terminator's tag. */
  lemma WalkCutRequest(cmd: byte, manager: Mac, agent: Option<Mac>, seqno: u32, tlvs: seq<TLV>)
    requires tlvs != [] && ShortValues(tlvs)
    ensures var req := Cut(TLVRequest(cmd, manager, agent, seqno, tlvs));
            |req| >= HEADER_LEN && WalkFrom(req[HEADER_LEN..]) == Seen(tlvs, ROOM)
  {
    hide Header, Region, WalkFrom, Seen;
    WalkSeen(tlvs, ROOM);
    BehindHeader(Header(cmd, manager, agent, seqno), Region(tlvs) + TERMINATOR);
    var head := Header(cmd, manager, agent, seqno);
    assert head + Region(tlvs) + TERMINATOR == head + (Region(tlvs) + TERMINATOR);
  }

  lemma BehindHeader(head: Packet, rest: seq<byte>)
    requires |head| == HEADER_LEN
    ensures |Cut(head + rest)| >= HEADER_LEN && Cut(head + rest)[HEADER_LEN..] == UpTo(rest, ROOM)
  {
  }

  /** The fields of a frame survive the cut. */
  lemma CutFields(p: Packet)
    requires |p| >= HEADER_LEN
    ensures var c := Cut(p);
            && |c| >= HEADER_LEN && (|p| >= REPLY_MIN_LEN ==> |c| >= REPLY_MIN_LEN)
            && c[0] == p[0] && c[1] == p[1] && c[2] == p[2] && c[4] == p[4] && c[5] == p[5]
            && c[8..14] == p[8..14] && c[14..20] == p[14..20] && c[20..24] == p[20..24] && c[24..28] == p[24..28]
            && c[HEADER_LEN..] == UpTo(p[HEADER_LEN..], ROOM)
  {
    assert p == p[..HEADER_LEN] + p[HEADER_LEN..];
    BehindHeader(p[..HEADER_LEN], p[HEADER_LEN..]);
  }

  lemma {:induction false} RegionLength(tlvs: seq<TLV>)
    ensures forall k :: 0 <= k < |tlvs| ==> |tlvs[k].value| <= |Region(tlvs)|
  {
    if tlvs != [] {
      RegionLength(tlvs[..|tlvs| - 1]);
    }
  }

  // ---------------------------------------------------------------------
  // What the agent takes a GET for
  // ---------------------------------------------------------------------

  function AttrTLVs(tags: seq<byte>): seq<TLV> {
    if tags == [] then [] else AttrTLVs(tags[..|tags| - 1]) + [TLV(tags[|tags| - 1], [])]
  }

  lemma {:induction false} AttrShift(tags: seq<byte>)
    ensures [0] + AttrEntries(tags) == Region(AttrTLVs(tags)) + [0]
  {
    hide Region, TLVBytes;
    if tags == [] {
      assert Region([]) == [] by { NoRegion(); }
    } else {
      var n := |tags| - 1;
      AttrShift(tags[..n]);
      RegionSnoc(AttrTLVs(tags[..n]), TLV(tags[n], []));
      AttrEntry(tags[n]);
      ShiftEntry(AttrEntries(tags[..n]), Region(AttrTLVs(tags[..n])), tags[n]);
    }
  }

  lemma NoRegion()
    ensures Region([]) == []
  {
  }

  lemma RegionSnoc(tlvs: seq<TLV>, t: TLV)
    ensures Region(tlvs + [t]) == Region(tlvs) + TLVBytes(t)
  {
    hide TLVBytes;
    assert (tlvs + [t])[..|tlvs|] == tlvs;
  }

  lemma AttrEntry(tag: byte)
    ensures TLVBytes(TLV(tag, [])) == [0, tag, 0, 0]
  {
  }

  lemma ShiftEntry(entries: seq<byte>, front: seq<byte>, tag: byte)
    requires [0] + entries == front + [0]
    ensures [0] + (entries + [tag, 0, 0, 0]) == front + [0, tag, 0, 0] + [0]
  {
    assert [0] + (entries + [tag, 0, 0, 0]) == ([0] + entries) + [tag, 0, 0, 0];
    assert front + [0] + [tag, 0, 0, 0] == front + [0, tag, 0, 0] + [0];
  }

  lemma {:induction false} AttrLength(tags: seq<byte>)
    ensures |AttrTLVs(tags)| == |tags| && Framed(AttrTLVs(tags))
    ensures forall k :: 0 <= k < |tags| ==> AttrTLVs(tags)[k] == TLV(tags[k], [])
  {
    if tags != [] {
      AttrLength(tags[..|tags| - 1]);
    }
  }

  /**
   An attribute GET walks cleanly, too: its entries are the requested tags with no
   value, and the trailer's zeros are one more entry with tag 0.
   */
  lemma WalkAttrRequest(manager: Mac, agent: Option<Mac>, seqno: u32, tags: seq<byte>)
    ensures WalkFrom(AttrRequest(manager, agent, seqno, tags)[HEADER_LEN..])
              == Walked(AttrTLVs(tags) + [TLV(0, [])], false)
  {
    hide Header, Region, WalkFrom, TLVBytes;
    var head, tlvs := Header(CMD_GET, manager, agent, seqno), AttrTLVs(tags);
    AttrShift(tags);
    AttrLength(tags);
    var tail := [0] + [0, 0, 0] + TERMINATOR;
    assert AttrRequest(manager, agent, seqno, tags)[HEADER_LEN..]
             == ([0] + AttrEntries(tags)) + ([0, 0, 0] + TERMINATOR);
    assert (Region(tlvs) + [0]) + ([0, 0, 0] + TERMINATOR) == Region(tlvs) + tail;
    WalkRegion(tlvs, tail);
    WalkZeros(tail);
  }

  lemma WalkZeros(tail: seq<byte>)
    requires tail == [0] + [0, 0, 0] + TERMINATOR
    ensures WalkFrom(tail) == Walked([TLV(0, [])], false)
  {
    assert tail[4..4] == [] && tail[4..] == TERMINATOR;
    assert [TLV(0, [])] + [] == [TLV(0, [])];
  }

  /** The agent's test for a block read. */
  predicate IsBlockRead(w: Walked) {
    && !w.truncated && |w.tlvs| >= 2
    && (w.tlvs[0].tag == BLOCK_MARKER_V2 || w.tlvs[0].tag == BLOCK_MARKER_V1)
    && w.tlvs[1].tag / 0x100 != 0 && w.tlvs[1].tag % 0x100 == 0
  }

  function BlockTLVs(block: byte, marker: u16, selector: seq<byte>): seq<TLV> {
    [TLV(marker, []), TLV(Word(block, 0), selector)]
  }

  method EncodeBlockGetRequest(manager: Mac, agent: Option<Mac>, seqno: u32, block: byte, marker: u16,
                               selector: seq<byte>)
    returns (req: Packet)
    ensures req == TLVRequest(CMD_GET, manager, agent, seqno, BlockTLVs(block, marker, selector))
  {
    req := EncodeTLVs(CMD_GET, manager, agent, seqno, [TLV(marker, []), TLV(Word(block, 0), selector)]);
  }

  /** The longest selector that still fits the agent's buffer behind the two entry heads. */
  const MAX_SELECTOR := ROOM - 8

  /** A block GET is taken for one, of its block, exactly when it has a block id and its selector fits the buffer. */
  lemma BlockGetIsBlockRead(manager: Mac, agent: Option<Mac>, seqno: u32, block: byte, marker: u16, selector: seq<byte>)
    requires marker == BLOCK_MARKER_V1 || marker == BLOCK_MARKER_V2
    requires |selector| < 0x1_0000
    ensures var w := WalkFrom(Cut(TLVRequest(CMD_GET, manager, agent, seqno,
                                             BlockTLVs(block, marker, selector)))[HEADER_LEN..]);
            && (IsBlockRead(w) <==> block != 0 && |selector| <= MAX_SELECTOR)
            && w.tlvs == (if |selector| <= MAX_SELECTOR then BlockTLVs(block, marker, selector) else [TLV(marker, [])])
            && (IsBlockRead(w) ==> w.tlvs[1].tag / 0x100 == block)
  {
    WalkCutRequest(CMD_GET, manager, agent, seqno, BlockTLVs(block, marker, selector));
    hide *;
    SeenBlock(block, marker, selector);
  }

  lemma SeenBlock(block: byte, marker: u16, selector: seq<byte>)
    requires marker != TERM_TAG
    ensures Seen(BlockTLVs(block, marker, selector), ROOM)
         == if |selector| <= MAX_SELECTOR then Walked(BlockTLVs(block, marker, selector), false)
            else Walked([TLV(marker, [])], true)
    ensures var w := Seen(BlockTLVs(block, marker, selector), ROOM);
            (marker == BLOCK_MARKER_V1 || marker == BLOCK_MARKER_V2) ==>
              && (IsBlockRead(w) <==> block != 0 && |selector| <= MAX_SELECTOR)
              && (IsBlockRead(w) ==> w.tlvs[1].tag / 0x100 == block)
  {
    hide Seen;
    SeenTwo(TLV(marker, []), TLV(Word(block, 0), selector), ROOM);
    SeenOne(TLV(Word(block, 0), selector), ROOM - 4);
  }

  /** An attribute GET is the request for its tags and for tag 0. */
  lemma AttrIsTLVRequest(manager: Mac, agent: Option<Mac>, seqno: u32, tags: seq<byte>)
    ensures AttrRequest(manager, agent, seqno, tags)
         == TLVRequest(CMD_GET, manager, agent, seqno, AttrTLVs(tags) + [TLV(0, [])])
  {
    hide Header, Region, TLVBytes;
    var head, tlvs := Header(CMD_GET, manager, agent, seqno), AttrTLVs(tags);
    AttrShift(tags);
    RegionSnoc(tlvs, TLV(0, []));
    AttrEntry(0);
    assert head + [0] + AttrEntries(tags) + [0, 0, 0] + TERMINATOR
        == head + (([0] + AttrEntries(tags)) + [0, 0, 0]) + TERMINATOR;
    assert (Region(tlvs) + [0]) + [0, 0, 0] == Region(tlvs) + [0, 0, 0, 0];
  }

  lemma {:induction false} SeenIsPart(tlvs: seq<TLV>, room: nat)
    ensures Seen(tlvs, room).tlvs <= tlvs
  {
    if tlvs != [] && room >= 4 && tlvs[0].tag != TERM_TAG && 4 + |tlvs[0].value| <= room {
      SeenIsPart(tlvs[1..], room - 4 - |tlvs[0].value|);
    }
  }

  /** No attribute GET is ever taken for a block read, whatever tags it asks for and wherever it is cut. */
  lemma AttrGetIsNoBlockRead(manager: Mac, agent: Option<Mac>, seqno: u32, tags: seq<byte>)
    ensures !IsBlockRead(WalkFrom(Cut(AttrRequest(manager, agent, seqno, tags))[HEADER_LEN..]))
  {
    hide AttrRequest, WalkFrom, Seen, TLVRequest;
    AttrIsTLVRequest(manager, agent, seqno, tags);
    AttrLength(tags);
    var tlvs := AttrTLVs(tags) + [TLV(0, [])];
    WalkCutRequest(CMD_GET, manager, agent, seqno, tlvs);
    SeenIsPart(tlvs, ROOM);
  }

  // ---------------------------------------------------------------------
  // Parsing replies
  // ---------------------------------------------------------------------

  datatype Reply = Reply(status: byte, failing: u16, seqno: u32, manager: Mac, agent: Mac, tlvs: seq<TLV>,
                         truncated: bool)

  datatype ReplyError =
    | Malformed
    | Refused(reply: Reply, expectedAuth: Option<seq<byte>>)

  /** The auth value a mismatch reply announces: a length word behind the header, then the bytes. */
  function ExpectedAuth(pkt: Packet): Option<seq<byte>> {
    if |pkt| < HEADER_LEN + 2 then None
    else
      var n := Word(pkt[32], pkt[33]);
      if n == 0 || HEADER_LEN + 2 + n > |pkt| then None else Some(pkt[34..34 + n])
  }

  function SeqOf(pkt: Packet): u32
    requires |pkt| >= HEADER_LEN
  {
    QuadValue(pkt[20..24])
  }

  /** The reply as one exchange expects it; an absent MAC is not checked. */
  function ParseReply(pkt: Packet, expectCmd: byte, wantSeq: u32, manager: Option<Mac>, agent: Option<Mac>)
    : Result<Reply, ReplyError>
  {
    if |pkt| < REPLY_MIN_LEN || pkt[0] != VERSION || pkt[1] != expectCmd || pkt[24..28] != MAGIC
       || SeqOf(pkt) != wantSeq
       || (manager.Some? && pkt[8..14] != manager.value)
       || (agent.Some? && pkt[14..20] != agent.value)
    then Err(Malformed)
    else
      var w := WalkFrom(pkt[HEADER_LEN..]);
      var r := Reply(pkt[2], Word(pkt[4], pkt[5]), SeqOf(pkt), pkt[8..14], pkt[14..20], w.tlvs, w.truncated);
      if r.status == 0 then Ok(r)
      else Err(Refused(r, if r.status == STATUS_AUTH then ExpectedAuth(pkt) else None))
  }

  /** The fields of a request frame. */
  lemma HeaderFields(cmd: byte, manager: Mac, agent: Option<Mac>, seqno: u32, rest: seq<byte>)
    ensures var req := Header(cmd, manager, agent, seqno) + rest;
            && |req| >= HEADER_LEN && req[0] == VERSION && req[1] == cmd && req[24..28] == MAGIC
            && SeqOf(req) == seqno && req[8..14] == manager && req[20..24] == Quad(seqno)
            && (agent.Some? ==> req[14..20] == agent.value)
            && req[HEADER_LEN..] == rest
  {
    QuadParts(seqno);
    var to := if agent.Some? then agent.value else [0, 0, 0, 0, 0, 0];
    hide Quad, QuadValue;
    Chunks([VERSION, cmd, 0, 0, 0, 0, 0, 0], manager, to, Quad(seqno), MAGIC, [0, 0, 0, 0], rest);
  }

  /** A frame cut into its fields. */
  lemma Chunks(a: seq<byte>, b: seq<byte>, c: seq<byte>, d: seq<byte>, e: seq<byte>, f: seq<byte>, g: seq<byte>)
    requires |a| == 8 && |b| == 6 && |c| == 6 && |d| == 4 && |e| == 4 && |f| == 4
    ensures var s := a + b + c + d + e + f + g;
            && |s| == HEADER_LEN + |g| && s[0] == a[0] && s[1] == a[1] && s[2] == a[2] && s[4] == a[4] && s[5] == a[5]
            && s[8..14] == b && s[14..20] == c && s[20..24] == d && s[24..28] == e && s[HEADER_LEN..] == g
  {
    var s := a + b + c + d + e + f + g;
    assert s[8..14] == b;
    assert s[14..20] == c;
    assert s[20..24] == d;
    assert s[24..28] == e;
  }

  /** The fields of a reply frame. */
  lemma ReplyFields(req: Packet, status: byte, failing: u16, payload: seq<byte>, tlvs: seq<TLV>)
    requires |req| >= HEADER_LEN
    ensures var pkt := ReplyBytes(req, status, failing, payload, tlvs);
            && |pkt| >= REPLY_MIN_LEN && pkt[0] == VERSION && pkt[1] == Next(req[1]) && pkt[2] == status
            && pkt[4] == High(failing) && pkt[5] == Low(failing)
            && pkt[8..14] == req[8..14] && pkt[14..20] == req[14..20] && pkt[20..24] == req[20..24]
            && pkt[24..28] == MAGIC && pkt[HEADER_LEN..] == payload + Region(tlvs) + TERMINATOR
  {
    hide Next, High, Low, Region;
    var first := [VERSION, Next(req[1]), status, 0, High(failing), Low(failing), 0, 0];
    var body := payload + Region(tlvs) + TERMINATOR;
    assert Echo(req) == req[8..14] + req[14..20] + req[20..24];
    assert ReplyBytes(req, status, failing, payload, tlvs)
        == first + req[8..14] + req[14..20] + req[20..24] + MAGIC + [0, 0, 0, 0] + body;
    Chunks(first, req[8..14], req[14..20], req[20..24], MAGIC, [0, 0, 0, 0], body);
  }

  /** A request of this exchange: its command, number and MACs. */
  predicate IsRequest(req: Packet, cmd: byte, manager: Mac, agent: Mac, seqno: u32) {
    |req| >= HEADER_LEN && req[1] == cmd && SeqOf(req) == seqno && req[8..14] == manager && req[14..20] == agent
  }

  /**
   A client accepts the reply to its own request, with the status and the tag put in and
   the TLVs that fit its buffer.
   */
  lemma OwnReplyParses(req: Packet, cmd: byte, manager: Mac, agent: Mac, seqno: u32, status: byte, failing: u16,
                       tlvs: seq<TLV>)
    requires IsRequest(req, cmd, manager, agent, seqno) && ShortValues(tlvs)
    ensures var parsed := ParseReply(Cut(ReplyBytes(req, status, failing, [], tlvs)), Next(cmd), seqno,
                                     Some(manager), Some(agent));
            var w := Seen(tlvs, ROOM);
            var r := Reply(status, failing, seqno, manager, agent, w.tlvs, w.truncated);
            if status == 0 then parsed == Ok(r) else parsed.Err? && parsed.error.Refused? && parsed.error.reply == r
  {
    var pkt := ReplyBytes(req, status, failing, [], tlvs);
    ReplyFields(req, status, failing, [], tlvs);
    CutFields(pkt);
    WalkSeen(tlvs, ROOM);
    WordParts(failing);
    hide ReplyBytes, WalkFrom, Region, Quad, QuadValue, High, Low, Word, Next, ExpectedAuth, Seen, Cut, UpTo;
    assert [] + Region(tlvs) + TERMINATOR == Region(tlvs) + TERMINATOR;
  }

  /** A packet of one exchange: its version, command, magic, sequence number and both MACs. */
  predicate IsOfExchange(pkt: Packet, cmd: byte, seqno: u32, manager: Mac, agent: Mac) {
    && |pkt| >= REPLY_MIN_LEN && pkt[0] == 0x01 && pkt[1] == cmd && SeqOf(pkt) == seqno
    && pkt[8..14] == manager && pkt[14..20] == agent && pkt[24..28] == [0x4e, 0x53, 0x44, 0x50]
  }

  /** Only packets of the exchange are taken, and the reply has their fields. */
  lemma AcceptedIsOfExchange(pkt: Packet, cmd: byte, seqno: u32, manager: Mac, agent: Mac)
    ensures var parsed := ParseReply(pkt, cmd, seqno, Some(manager), Some(agent));
            && (parsed != Err(Malformed) <==> IsOfExchange(pkt, cmd, seqno, manager, agent))
            && (parsed.Ok? ==> parsed.value.manager == manager && parsed.value.agent == agent && pkt[2] == 0)
            && (parsed.Err? && parsed.error.Refused? ==> pkt[2] != 0 && parsed.error.reply.status == pkt[2])
  {
    hide WalkFrom, QuadValue, Word, ExpectedAuth;
  }

  /** The fields of what is taken, at their offsets; an auth mismatch announces a token when all of it is there. */
  lemma TakenFields(pkt: Packet, cmd: byte, seqno: u32, manager: Mac, agent: Mac)
    requires IsOfExchange(pkt, cmd, seqno, manager, agent)
    ensures match ParseReply(pkt, cmd, seqno, Some(manager), Some(agent))
            case Ok(reply) => reply.status == 0 && reply.failing == Word(pkt[4], pkt[5]) && reply.seqno == seqno
            case Err(Malformed) => false
            case Err(Refused(reply, token)) =>
              && reply.status == pkt[2] && reply.failing == Word(pkt[4], pkt[5]) && reply.seqno == seqno
              && var n := if |pkt| >= 34 then 256 * pkt[32] as int + pkt[33] as int else 0;
                 token == if pkt[2] == 0x0d && 0 < n <= |pkt| - 34 then Some(pkt[34..34 + n]) else None
  {
    hide WalkFrom, QuadValue;
  }

  /** A block read is a clean walk of a marker and then a block id in the high byte of its tag. */
  lemma BlockReadIs(w: Walked)
    ensures IsBlockRead(w) <==>
              && !w.truncated && |w.tlvs| >= 2 && (w.tlvs[0].tag == 0x0014 || w.tlvs[0].tag == 0x000f)
              && exists block: byte :: block > 0 && w.tlvs[1].tag == Word(block, 0)
  {
    if |w.tlvs| >= 2 {
      var tag := w.tlvs[1].tag;
      if tag % 0x100 == 0 && tag / 0x100 != 0 {
        var block: byte := tag / 0x100;
        assert Word(block, 0) == tag;
      }
    }
  }

  /** A reply to a request with another command, sequence number, manager or agent is dropped. */
  lemma OtherReplyIsDropped(req: Packet, status: byte, failing: u16, payload: seq<byte>, tlvs: seq<TLV>,
                            expectCmd: byte, wantSeq: u32, manager: Option<Mac>, agent: Option<Mac>)
    requires |req| >= HEADER_LEN
    requires || SeqOf(req) != wantSeq || Next(req[1]) != expectCmd
             || (manager.Some? && req[8..14] != manager.value) || (agent.Some? && req[14..20] != agent.value)
    ensures ParseReply(ReplyBytes(req, status, failing, payload, tlvs), expectCmd, wantSeq, manager, agent)
              == Err(Malformed)
  {
    ReplyFields(req, status, failing, payload, tlvs);
    hide ReplyBytes, WalkFrom, Region, QuadValue, High, Low, Word, Next, ExpectedAuth;
  }

  /** The reply to a SET that is not authentic: the expected token stands behind the header. */
  function MismatchReply(req: Packet, failing: u16, token: seq<byte>): Packet
    requires |req| >= HEADER_LEN
  {
    ReplyBytes(req, STATUS_AUTH, failing, LengthBytes(token) + token, [])
  }

  /** An auth-mismatch reply is refused with the token it announces. */
  lemma MismatchAnnouncesToken(req: Packet, cmd: byte, manager: Mac, agent: Mac, seqno: u32, failing: u16,
                               token: seq<byte>)
    requires IsRequest(req, cmd, manager, agent, seqno) && 0 < |token| < 0x1_0000
    ensures Announces(ParseReply(MismatchReply(req, failing, token), Next(cmd), seqno, Some(manager), Some(agent)),
                      failing, token)
  {
    var pkt := MismatchReply(req, failing, token);
    ReplyFields(req, STATUS_AUTH, failing, LengthBytes(token) + token, []);
    WordParts(failing);
    TokenBehindHeader(pkt, token);
    hide ReplyBytes, WalkFrom, Region, QuadValue, High, Low, Word, Next, ExpectedAuth, LengthBytes;
  }

  /** The exchange is refused for a mismatch, with this failing tag and this expected token. */
  predicate Announces(parsed: Result<Reply, ReplyError>, failing: u16, token: seq<byte>) {
    && parsed.Err? && parsed.error.Refused? && parsed.error.expectedAuth == Some(token)
    && parsed.error.reply.status == STATUS_AUTH && parsed.error.reply.failing == failing
  }

  lemma TokenBehindHeader(pkt: Packet, token: seq<byte>)
    requires 0 < |token| < 0x1_0000 && |pkt| >= HEADER_LEN
    requires pkt[HEADER_LEN..] == LengthBytes(token) + token + Region([]) + TERMINATOR
    ensures ExpectedAuth(pkt) == Some(token)
  {
    WordParts(|token|);
    LengthParts(token);
    var front, rest := LengthBytes(token), Region([]) + TERMINATOR;
    hide High, Low, Word, LengthBytes, Region;
    assert pkt[HEADER_LEN..] == front + token + rest;
    Middle(front, token, rest);
    Inside(pkt, HEADER_LEN, 2, 2 + |token|);
  }

  lemma LengthParts(value: seq<byte>)
    requires |value| < 0x1_0000
    ensures LengthBytes(value) == [High(|value|), Low(|value|)]
  {
  }

  lemma Inside<T>(s: seq<T>, from: nat, i: nat, j: nat)
    requires i <= j && from + j <= |s|
    ensures s[from..][i..j] == s[from + i..from + j]
    ensures forall k :: 0 <= k < j ==> s[from..][k] == s[from + k]
  {
  }
}
