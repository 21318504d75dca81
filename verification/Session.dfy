/**
 The NSDP client over a lossy link to an agent: requests can be lost, replies can be
 lost, late or repeated. Every SET that arrives is accepted, although the nonce rolls
 after each one, and no payload is applied twice.
 */
module Session {
  import opened Wrappers
  import opened Bits
  import opened Wire
  import opened Agent

  const MODULUS := 0x1_0000_0000
  const CAPABILITY_ATTEMPTS := 5
  const DEFAULT_ATTEMPTS := 14
  const CAPABILITY_V2: u32 := 0x10

  // ---------------------------------------------------------------------
  // What the agent makes of the client's requests
  // ---------------------------------------------------------------------

  /** The value of the first entry with a tag. */
  function FirstValue(tlvs: seq<TLV>, tag: u16): Option<seq<byte>> {
    if tlvs == [] then None else if tlvs[0].tag == tag then Some(tlvs[0].value) else FirstValue(tlvs[1..], tag)
  }

  // ---------------------------------------------------------------------
  // The link
  // ---------------------------------------------------------------------

  /**
   A packet in a response window: the reply to this request, a reply the agent once sent,
   or anything else on the network.
   */
  datatype Arrival = Own | Old(index: nat) | Stray(packet: Packet)

  /** A packet of another manager or another agent, or none at all. */
  predicate IsStray(p: Packet, manager: Mac, agent: Mac) {
    |p| < REPLY_MIN_LEN || p[8..14] != manager || p[14..20] != agent
  }

  lemma StrayIsDropped(p: Packet, expectCmd: byte, wantSeq: u32, manager: Mac, agent: Mac)
    requires IsStray(p, manager, agent)
    ensures ReadOf(ParseReply(Cut(p), expectCmd, wantSeq, Some(manager), Some(agent))) == NoReply
  {
    if |p| >= REPLY_MIN_LEN {
      CutFields(p);
    }
    hide WalkFrom, QuadValue;
  }

  /** What the link does to one request and to the window that follows it. */
  datatype Fate = Fate(delivered: bool, arrivals: seq<Arrival>)

  /** A request that arrives and whose reply comes back in its window. */
  predicate Clear(fate: Fate) {
    fate.delivered && Own in fate.arrivals
  }

  class Link {
    const agent: FakeAgent
    const fate: nat -> Fate
    var pool: seq<Packet>
    var sent: nat

    constructor (agent: FakeAgent, fate: nat -> Fate)
      ensures this.agent == agent && this.fate == fate && pool == [] && sent == 0
    {
      this.agent, this.fate := agent, fate;
      pool, sent := [], 0;
    }

    /** A request the socket does not take: its number is used up. */
    method Refuse()
      modifies this`sent
      ensures sent == old(sent) + 1
    {
      sent := sent + 1;
    }

    /**
     Sends one request and collects the packets of its response window. The agent reads
     what fits its buffer.
     */
    method Exchange(req: Packet) returns (window: seq<Packet>, ghost reply: Option<Packet>)
      requires agent.Valid()
      modifies this`pool, this`sent
      modifies agent`vlan8021Q, agent`systemName, agent`attrs, agent`log, agent.nonce, agent.pvid
      ensures agent.Valid() && sent == old(sent) + 1
      ensures if fate(old(sent)).delivered
              then var h := HandledBy(agent.token, old(agent.State()), Cut(req));
                   agent.State() == h.state && reply == Sent(h.reply)
              else agent.State() == old(agent.State()) && reply == None
      ensures pool == old(pool) + if reply.Some? then [reply.value] else []
      ensures forall p :: p in window ==> p in old(pool) || reply == Some(p) || Stray(p) in fate(old(sent)).arrivals
      ensures Clear(fate(old(sent))) && reply.Some? ==> reply.value in window
    {
      hide HandledBy;
      var f := fate(sent);
      var own: Option<Packet> := None;
      sent := sent + 1;
      if f.delivered {
        var out := agent.Handle(Cut(req));
        own := Sent(out);
      }
      reply := own;
      window := [];
      for k := 0 to |f.arrivals|
        modifies {}
        invariant forall p :: p in window ==> p in pool || own == Some(p) || Stray(p) in f.arrivals
        invariant own.Some? && Own in f.arrivals[..k] ==> own.value in window
      {
        assert f.arrivals[..k + 1] == f.arrivals[..k] + [f.arrivals[k]];
        match f.arrivals[k] {
          case Own =>
            if own.Some? {
              window := window + [own.value];
            }
          case Old(index) =>
            if index < |pool| {
              window := window + [pool[index]];
            }
          case Stray(p) =>
            window := window + [p];
        }
      }
      assert f.arrivals[..|f.arrivals|] == f.arrivals;
      if own.Some? {
        pool := pool + [own.value];
      }
    }
  }

  // ---------------------------------------------------------------------
  // One exchange
  // ---------------------------------------------------------------------

  /** The client's three kinds of requests. */
  datatype Ask = AttrGet(tag: byte) | BlockGet(block: byte, selector: seq<byte>) | SetValues(tlvs: seq<TLV>)

  function Frame(what: Ask, manager: Mac, agent: Mac, seqno: u32): Packet {
    match what
    case AttrGet(tag) => AttrRequest(manager, Some(agent), seqno, [tag])
    case BlockGet(block, selector) =>
      TLVRequest(CMD_GET, manager, Some(agent), seqno, BlockTLVs(block, BLOCK_MARKER_V2, selector))
    case SetValues(tlvs) => TLVRequest(CMD_SET, manager, Some(agent), seqno, tlvs)
  }

  function Command(what: Ask): byte {
    if what.SetValues? then CMD_SET else CMD_GET
  }

  /** The outcome of a response window. */
  datatype Read = NoReply | Got(reply: Reply) | RefusedBy(reply: Reply)

  function ReadOf(parsed: Result<Reply, ReplyError>): Read {
    match parsed
    case Ok(reply) => Got(reply)
    case Err(Malformed) => NoReply
    case Err(Refused(reply, _)) => RefusedBy(reply)
  }

  /** The requests of this model; a SET carries the token of the agent's nonce. */
  predicate InOrder(what: Ask, token: TokenOf, a: AgentState) {
    match what
    case AttrGet(_) => true
    case BlockGet(_, selector) => |selector| < 0x1_0000
    case SetValues(tlvs) =>
      tlvs != [] && ShortValues(tlvs) && tlvs[0] == TLV(TAG_LOGIN_V2, token(a.nonce)) && |token(a.nonce)| == 8
  }

  /** The entries of a request; the trailer of an attribute GET asks for tag 0, too. */
  function Asked(what: Ask): seq<TLV> {
    match what
    case AttrGet(tag) => [TLV(tag, []), TLV(0, [])]
    case BlockGet(block, selector) => BlockTLVs(block, BLOCK_MARKER_V2, selector)
    case SetValues(tlvs) => tlvs
  }

  /** What the agent reads of a request. */
  function Heard(what: Ask): Walked {
    Seen(Asked(what), ROOM)
  }

  /** The values a SET brings to the agent, behind its token. */
  function Values(what: Ask): seq<TLV> {
    if what.SetValues? && Heard(what).tlvs != [] then Heard(what).tlvs[1..] else []
  }

  /** The state a request leaves behind. */
  function After(what: Ask, a: AgentState): AgentState
    requires |a.tables.pvid| == PORTS
  {
    if what.SetValues? then
      var r := AppliedAll(a.tables, a.log, Values(what));
      AgentState(if r.failing.None? then Rolled(a.nonce) else a.nonce, r.tables, r.log)
    else a
  }

  /** The agent's answer. */
  function AnswerTo(what: Ask, a: AgentState): Option<Answered>
    requires |a.tables.pvid| == PORTS
  {
    if what.SetValues? then
      match AppliedAll(a.tables, a.log, Values(what)).failing
      case None => Some(Answered(0, 0, []))
      case Some(tag) => Some(Answered(STATUS_SET_ERROR, tag, []))
    else GetAnswer(a, Heard(what))
  }

  /** No reply: the block is unknown, or the reply is longer than a datagram. */
  predicate Silent(what: Ask, a: AgentState)
    requires |a.tables.pvid| == PORTS
  {
    var answer := AnswerTo(what, a);
    answer.None? || REPLY_MIN_LEN + |Region(answer.value.tlvs)| > MAX_DATAGRAM
  }

  /** What is read of the answer, when it is heard: the entries that fit the buffer. */
  predicate RightReply(what: Ask, a: AgentState, r: Read)
    requires |a.tables.pvid| == PORTS
  {
    var answer := AnswerTo(what, a);
    && answer.Some?
    && if answer.value.status == 0 then r.Got? && r.reply.tlvs == Seen(answer.value.tlvs, ROOM).tlvs
       else r.RefusedBy? && r.reply.status == answer.value.status && r.reply.failing == answer.value.failing
  }

  // ---------------------------------------------------------------------
  // The answers
  // ---------------------------------------------------------------------

  /** The agent's own value of a small tag. */
  function Known(a: AgentState, tag: byte): Option<seq<byte>> {
    Answer(a.nonce, a.tables, tag)
  }

  function KnownTLV(a: AgentState, tag: byte): seq<TLV> {
    match Known(a, tag)
    case None => []
    case Some(value) => [TLV(tag, value)]
  }

  /** An attribute GET is answered with the values known of its tag and of tag 0, or refused with the tag. */
  lemma AttrAnswered(a: AgentState, tag: byte)
    requires |a.tables.pvid| == PORTS
    ensures var out := KnownTLV(a, tag) + KnownTLV(a, 0);
            AnswerTo(AttrGet(tag), a)
            == Some(if out == [] then Answered(STATUS_BAD_ATTR, tag, []) else Answered(0, 0, out))
  {
    var asked := [TLV(tag, []), TLV(0, [])];
    SeenTwo(asked[0], asked[1], ROOM);
    SeenOne(asked[1], ROOM - 4);
    hide Answer, Seen;
    assert asked[..1] == [TLV(tag, [])] && asked[..1][..0] == [];
    assert Answers(a, []) == [];
    assert Answers(a, asked[..1]) == [] + KnownTLV(a, tag);
    assert Answers(a, asked) == KnownTLV(a, tag) + KnownTLV(a, 0);
  }

  /** The longest value of a reply that fits the client's buffer. */
  const MAX_ANSWER := ROOM - 4

  /** What a client finds of a small tag in the reply. */
  lemma AttrRead(a: AgentState, tag: byte, r: Read)
    requires |a.tables.pvid| == PORTS && RightReply(AttrGet(tag), a, r)
    ensures match Known(a, tag)
            case Some(value) =>
              r.Got? && FirstValue(r.reply.tlvs, tag) == if |value| <= MAX_ANSWER then Some(value) else None
            case None =>
              if Known(a, 0) == None
              then r.RefusedBy? && r.reply.status == STATUS_BAD_ATTR && r.reply.failing == tag
              else r.Got? && FirstValue(r.reply.tlvs, tag) == None
  {
    AttrAnswered(a, tag);
    hide Answer, Seen, AnswerTo;
    var first, second := KnownTLV(a, tag), KnownTLV(a, 0);
    if first != [] && second != [] {
      assert first + second == [first[0], second[0]];
      SeenTwo(first[0], second[0], ROOM);
      assert [first[0], second[0]][1..] == [second[0]];
    } else if first != [] {
      assert first + second == [first[0]];
      SeenOne(first[0], ROOM);
    } else if second != [] {
      assert first + second == [second[0]];
      SeenOne(second[0], ROOM);
      assert [second[0]][1..] == [];
    }
  }

  /** The answer to tag 0, which every attribute reply carries, too, leaves room for the others in a datagram. */
  predicate Audible(a: AgentState) {
    0 in a.tables.attrs ==> REPLY_MIN_LEN + 8 + 4 + |a.tables.attrs[0]| <= MAX_DATAGRAM
  }

  /** Capability and nonce are always answered, and the reply is sent unless the answer to tag 0 is too long. */
  lemma AlwaysKnown(a: AgentState, tag: byte)
    requires |a.tables.pvid| == PORTS && (tag == TAG_CAPABILITY || tag == TAG_NONCE)
    ensures Known(a, tag) == Some(if tag == TAG_CAPABILITY then CAPABILITY else a.nonce)
    ensures Silent(AttrGet(tag), a) <==> !Audible(a)
  {
    AttrAnswered(a, tag);
    hide AnswerTo, Answer, Region;
    var first, second := KnownTLV(a, tag), KnownTLV(a, 0);
    assert |Known(a, tag).value| == 4 by { KnownIs(a, tag); }
    KnownIs(a, 0);
    if second == [] {
      assert first + second == [first[0]];
    } else {
      assert first + second == [first[0], second[0]];
    }
    SmallRegion(first[0], second);
    KnownIs(a, tag);
  }

  lemma KnownIs(a: AgentState, tag: byte)
    ensures tag == TAG_CAPABILITY ==> Known(a, tag) == Some(CAPABILITY)
    ensures tag == TAG_NONCE ==> Known(a, tag) == Some(a.nonce)
    ensures tag == 0 ==> Known(a, tag) == if 0 in a.tables.attrs then Some(a.tables.attrs[0]) else None
  {
  }

  lemma SmallRegion(t: TLV, more: seq<TLV>)
    requires |more| <= 1
    ensures |Region([t] + more)| == 4 + |t.value| + if more == [] then 0 else 4 + |more[0].value|
  {
    RegionSnoc([], t);
    NoRegion();
    assert [] + [t] == [t];
    if more == [] {
      assert [t] + more == [t];
    } else {
      RegionSnoc([t], more[0]);
      assert [t] + more == [t] + [more[0]];
    }
    hide Region;
  }

  /**
   What a block GET is answered with. A selector that is cut leaves only the marker, whose
   tag is the capability's; block id 0 is taken for an attribute GET of the marker and tag 0.
   */
  function BlockAnswers(a: AgentState, block: byte, selector: seq<byte>): Option<seq<TLV>>
    requires |a.tables.pvid| == PORTS
  {
    if |selector| > MAX_SELECTOR then Some([TLV(TAG_CAPABILITY, CAPABILITY)])
    else if block == 0 then Some([TLV(TAG_CAPABILITY, CAPABILITY)] + KnownTLV(a, 0))
    else BlockAnswer(a.tables, Word(block, 0))
  }

  lemma BlockAnswered(a: AgentState, block: byte, selector: seq<byte>)
    requires |a.tables.pvid| == PORTS && |selector| < 0x1_0000
    ensures AnswerTo(BlockGet(block, selector), a)
         == match BlockAnswers(a, block, selector)
            case None => None
            case Some(out) => Some(Answered(0, 0, out))
  {
    SeenBlock(block, BLOCK_MARKER_V2, selector);
    hide Seen, BlockAnswer;
    var tlvs := BlockTLVs(block, BLOCK_MARKER_V2, selector);
    var marker := TLV(BLOCK_MARKER_V2, []);
    assert [marker][..0] == [] && tlvs[..1] == [marker];
    assert Answers(a, []) == [];
    assert Answers(a, [marker]) == [] + [TLV(TAG_CAPABILITY, CAPABILITY)] == [TLV(TAG_CAPABILITY, CAPABILITY)];
    if |selector| <= MAX_SELECTOR && block == 0 {
      assert tlvs[1].tag == 0;
      assert Answers(a, tlvs) == Answers(a, tlvs[..1]) + KnownTLV(a, 0);
    } else if |selector| > MAX_SELECTOR {
      assert Heard(BlockGet(block, selector)) == Walked([marker], true) && Answers(a, [marker]) != [];
    } else {
      assert IsBlockRead(Heard(BlockGet(block, selector)));
    }
  }

  /** The longest value of a SET that fits the agent's buffer behind the token. */
  const MAX_VALUE := ROOM - 12 - 4

  /** A value reaches the agent exactly when it fits the buffer and its tag is not the terminator's. */
  lemma ValueHeard(auth: TLV, payload: TLV)
    requires auth.tag == TAG_LOGIN_V2 && |auth.value| == 8
    ensures Values(SetValues([auth, payload]))
         == if payload.tag != TERM_TAG && |payload.value| <= MAX_VALUE then [payload] else []
    ensures Values(SetValues([auth])) == []
  {
    SeenTwo(auth, payload, ROOM);
    SeenOne(payload, ROOM - 12);
    SeenOne(auth, ROOM);
    hide Seen;
    assert [auth, payload][1..] == [payload] && [auth][1..] == [];
  }

  /** What is read of a SET as the agent's buffer holds it, when the token is right. */
  lemma TokenHeard(what: Ask, token: TokenOf, a: AgentState)
    requires what.SetValues? && InOrder(what, token, a)
    ensures Heard(what).tlvs != [] && Heard(what).tlvs[0] == TLV(TAG_LOGIN_V2, token(a.nonce))
  {
  }

  lemma FourBytes(e: Entry)
    ensures |EntryBytes(e)| == 4
  {
  }

  lemma {:induction false} PVIDBytesLength(pvid: seq<u16>, n: nat)
    requires n <= |pvid| && n < 0x100
    ensures |PVIDBytes(pvid, n)| == 3 * n
  {
    if n > 0 {
      PVIDBytesLength(pvid, n - 1);
    }
  }

  // ---------------------------------------------------------------------
  // The own reply
  // ---------------------------------------------------------------------

  lemma FrameIs(what: Ask, manager: Mac, agent: Mac, seqno: u32)
    ensures Frame(what, manager, agent, seqno)
         == TLVRequest(Command(what), manager, Some(agent), seqno, Asked(what))
  {
    hide TLVRequest, AttrRequest;
    if what.AttrGet? {
      AttrIsTLVRequest(manager, Some(agent), seqno, [what.tag]);
      assert [what.tag][..0] == [];
      assert AttrTLVs([what.tag]) + [TLV(0, [])] == Asked(what);
    }
  }

  /** A request as the agent reads it: its fields, and the entries that fit. */
  lemma RequestHeard(what: Ask, token: TokenOf, a: AgentState, manager: Mac, agent: Mac, seqno: u32)
    requires InOrder(what, token, a)
    ensures var req := Cut(Frame(what, manager, agent, seqno));
            && IsRequest(req, Command(what), manager, agent, seqno) && req[0] == VERSION && req[24..28] == MAGIC
            && WalkFrom(req[HEADER_LEN..]) == Heard(what)
  {
    hide Frame, Header, Region, WalkFrom, Seen, QuadValue, Cut;
    var tlvs := Asked(what);
    FrameIs(what, manager, agent, seqno);
    assert tlvs != [];
    var rest := Region(tlvs) + TERMINATOR;
    HeaderFields(Command(what), manager, Some(agent), seqno, rest);
    var head := Header(Command(what), manager, Some(agent), seqno);
    assert Frame(what, manager, agent, seqno) == head + rest;
    CutFields(head + rest);
    WalkCutRequest(Command(what), manager, Some(agent), seqno, tlvs);
  }

  /** A reply to the request with this number, and not an auth mismatch. */
  predicate IsReplyTo(p: Packet, seqno: u32) {
    |p| >= REPLY_MIN_LEN && SeqOf(p) == seqno && p[2] != STATUS_AUTH
  }

  /** The agent does what the request asks for and replies with its answer. */
  lemma RequestHandled(what: Ask, token: TokenOf, a: AgentState, req: Packet)
    requires |a.tables.pvid| == PORTS && InOrder(what, token, a)
    requires |req| >= HEADER_LEN && req[0] == VERSION && req[1] == Command(what) && req[24..28] == MAGIC
    requires WalkFrom(req[HEADER_LEN..]) == Heard(what)
    ensures HandledBy(token, a, req) == Handled(After(what, a), ReplyOf(req, AnswerTo(what, a)))
  {
    hide WalkFrom, ReplyBytes, Heard, GetAnswer, AppliedAll;
    if what.SetValues? {
      TokenHeard(what, token, a);
    }
  }

  /** A reply that is sent reaches the client with what fits its buffer. */
  lemma AnswerReceived(req: Packet, cmd: byte, manager: Mac, agent: Mac, seqno: u32, x: Answered)
    requires IsRequest(req, cmd, manager, agent, seqno) && x.status != STATUS_AUTH
    ensures var p := Sent(ReplyOf(req, Some(x)));
            && (p.None? <==> REPLY_MIN_LEN + |Region(x.tlvs)| > MAX_DATAGRAM)
            && (p.Some? ==>
                  var w := Seen(x.tlvs, ROOM);
                  var r := Reply(x.status, x.failing, seqno, manager, agent, w.tlvs, w.truncated);
                  && IsReplyTo(p.value, seqno)
                  && ReadOf(ParseReply(Cut(p.value), Next(cmd), seqno, Some(manager), Some(agent)))
                     == if x.status == 0 then Got(r) else RefusedBy(r))
  {
    var pkt := ReplyBytes(req, x.status, x.failing, [], x.tlvs);
    ReplyFields(req, x.status, x.failing, [], x.tlvs);
    CutFields(pkt);
    RegionLength(x.tlvs);
    hide ReplyBytes, Region, Cut, Seen, ParseReply, QuadValue;
    assert |pkt| == HEADER_LEN + |[] + Region(x.tlvs) + TERMINATOR|;
    if |pkt| <= MAX_DATAGRAM {
      OwnReplyParses(req, cmd, manager, agent, seqno, x.status, x.failing, x.tlvs);
    }
  }

  /**
   The reply of the agent, both packets cut to the buffers: right for the request, and
   accepted by the client that asked.
   */
  lemma OwnReply(what: Ask, token: TokenOf, a: AgentState, manager: Mac, agent: Mac, seqno: u32)
    requires |a.tables.pvid| == PORTS && InOrder(what, token, a)
    ensures var h := HandledBy(token, a, Cut(Frame(what, manager, agent, seqno)));
            var p := Sent(h.reply);
            && h.state == After(what, a) && (p.None? <==> Silent(what, a))
            && (p.Some? ==>
                  var read := ReadOf(ParseReply(Cut(p.value), Next(Command(what)), seqno, Some(manager), Some(agent)));
                  IsReplyTo(p.value, seqno) && RightReply(what, a, read))
  {
    hide HandledBy, WalkFrom, ParseReply, Sent, AnswerTo, After, Frame, Region, InOrder, Seen, Cut, Heard, ReplyOf,
         IsReplyTo, SeqOf;
    RequestHeard(what, token, a, manager, agent, seqno);
    var req := Cut(Frame(what, manager, agent, seqno));
    RequestHandled(what, token, a, req);
    NoAnswerNoReply(req);
    if AnswerTo(what, a).Some? {
      AnswerStatus(what, a);
      AnswerReceived(req, Command(what), manager, agent, seqno, AnswerTo(what, a).value);
    }
  }

  lemma NoAnswerNoReply(req: Packet)
    requires |req| >= HEADER_LEN
    ensures Sent(ReplyOf(req, None)) == None
  {
  }

  lemma AnswerStatus(what: Ask, a: AgentState)
    requires |a.tables.pvid| == PORTS && AnswerTo(what, a).Some?
    ensures AnswerTo(what, a).value.status != STATUS_AUTH
  {
    hide AppliedAll, Heard, Answers, BlockAnswer;
  }

  /**
   An authentic SET of one well-formed value is always accepted, and the nonce rolls. The
   value is applied if and only if it fits the agent's buffer and has not the terminator's tag.
   */
  lemma ValueAppliedIff(token: TokenOf, a: AgentState, manager: Mac, agent: Mac, seqno: u32, t: TLV)
    requires |a.tables.pvid| == PORTS && |token(a.nonce)| == 8 && WellFormedSet(t) && |t.value| < 0x1_0000
    ensures var req := Cut(Frame(SetValues([TLV(TAG_LOGIN_V2, token(a.nonce)), t]), manager, agent, seqno));
            && |req| >= HEADER_LEN
            && HandledBy(token, a, req)
               == if t.tag != TERM_TAG && |t.value| <= MAX_VALUE
                  then Handled(AgentState(Rolled(a.nonce), Applied(a.tables, t), a.log + [t]),
                               Some(ReplyBytes(req, 0, 0, [], [])))
                  else Handled(AgentState(Rolled(a.nonce), a.tables, a.log), Some(ReplyBytes(req, 0, 0, [], [])))
  {
    hide *;
    var auth := TLV(TAG_LOGIN_V2, token(a.nonce));
    var what := SetValues([auth, t]);
    ValueEffect(token, a, auth, t);
    RequestHeard(what, token, a, manager, agent, seqno);
    var req := Cut(Frame(what, manager, agent, seqno));
    IsRequestIs(req, Command(what), manager, agent, seqno);
    RequestHandled(what, token, a, req);
    ReplyOfIs(req, Answered(0, 0, []));
  }

  lemma ReplyOfIs(req: Packet, x: Answered)
    requires |req| >= HEADER_LEN
    ensures ReplyOf(req, Some(x)) == Some(ReplyBytes(req, x.status, x.failing, [], x.tlvs))
  {
    hide ReplyBytes;
  }

  lemma IsRequestIs(req: Packet, cmd: byte, manager: Mac, agent: Mac, seqno: u32)
    requires IsRequest(req, cmd, manager, agent, seqno)
    ensures |req| >= HEADER_LEN && req[1] == cmd
  {
  }

  lemma NoValue(a: AgentState)
    requires |a.tables.pvid| == PORTS
    ensures AppliedAll(a.tables, a.log, []) == SetResult(a.tables, a.log, None)
  {
  }

  /** The effect of a SET with one value. */
  lemma OneValue(a: AgentState, t: TLV)
    requires |a.tables.pvid| == PORTS
    ensures AppliedAll(a.tables, a.log, [t])
         == if WellFormedSet(t) then SetResult(Applied(a.tables, t), a.log + [t], None)
            else SetResult(a.tables, a.log, Some(t.tag))
  {
    hide WellFormedSet, Applied;
    assert [t][1..] == [];
  }

  lemma ValueEffect(token: TokenOf, a: AgentState, auth: TLV, t: TLV)
    requires |a.tables.pvid| == PORTS && WellFormedSet(t) && |t.value| < 0x1_0000
    requires auth == TLV(TAG_LOGIN_V2, token(a.nonce)) && |token(a.nonce)| == 8
    ensures InOrder(SetValues([auth, t]), token, a)
    ensures AnswerTo(SetValues([auth, t]), a) == Some(Answered(0, 0, []))
    ensures After(SetValues([auth, t]), a)
         == if t.tag != TERM_TAG && |t.value| <= MAX_VALUE
            then AgentState(Rolled(a.nonce), Applied(a.tables, t), a.log + [t])
            else AgentState(Rolled(a.nonce), a.tables, a.log)
  {
    ValueHeard(auth, t);
    OneValue(a, t);
    NoValue(a);
    hide Values, Rolled, WellFormedSet, Applied, AppliedAll;
  }

  /** A system name of 4049 bytes is acknowledged and dropped. */
  lemma LongNameIsLost(token: TokenOf, a: AgentState, manager: Mac, agent: Mac, seqno: u32)
    requires |a.tables.pvid| == PORTS && |token(a.nonce)| == 8
    ensures var name := TLV(TAG_SYSTEM_NAME, seq(4049, _ => 0x61));
            var req := Cut(Frame(SetValues([TLV(TAG_LOGIN_V2, token(a.nonce)), name]), manager, agent, seqno));
            && |req| >= HEADER_LEN
            && HandledBy(token, a, req)
               == Handled(AgentState(Rolled(a.nonce), a.tables, a.log), Some(ReplyBytes(req, 0, 0, [], [])))
  {
    hide HandledBy, Frame, Cut, ReplyBytes, Rolled, Applied;
    ValueAppliedIff(token, a, manager, agent, seqno, TLV(TAG_SYSTEM_NAME, seq(4049, _ => 0x61)));
  }

  // ---------------------------------------------------------------------
  // Sequence numbers
  // ---------------------------------------------------------------------

  /** The number of the n-th request. */
  function Number(base: u32, n: nat): u32 {
    (base + n) % MODULUS
  }

  lemma NumbersDiffer(base: u32, k: nat, n: nat)
    requires k < n < MODULUS
    ensures Number(base, k) != Number(base, n)
  {
    var q, r := (base + k) / MODULUS, (base + n) / MODULUS;
    assert base + k == q * MODULUS + Number(base, k) && base + n == r * MODULUS + Number(base, n);
  }

  /** A reply to one of the first n requests, and no auth mismatch. */
  ghost predicate FromBefore(p: Packet, base: u32, n: nat) {
    exists k: nat :: k < n && IsReplyTo(p, Number(base, k))
  }

  lemma OldReplyIsDropped(p: Packet, base: u32, n: nat, expectCmd: byte, manager: Option<Mac>, agent: Option<Mac>)
    requires FromBefore(p, base, n) && n < MODULUS
    ensures ReadOf(ParseReply(Cut(p), expectCmd, Number(base, n), manager, agent)) == NoReply
  {
    hide Number, QuadValue, WalkFrom, Cut;
    var k: nat :| k < n && IsReplyTo(p, Number(base, k));
    CutFields(p);
    NumbersDiffer(base, k, n);
  }

  /**
   After 2^32 requests the numbers repeat: a reply to the first of two requests with one number
   is read as the second's.
   */
  lemma WrappedReplyIsRead(cmd: byte, manager: Mac, agent: Mac, rest: seq<byte>, base: u32, k: nat)
    ensures var stale := ReplyBytes(Header(cmd, manager, Some(agent), Number(base, k)) + rest, 0, 0, [], []);
            ParseReply(Cut(stale), Next(cmd), Number(base, k + MODULUS), Some(manager), Some(agent)).Ok?
  {
    assert Number(base, k + MODULUS) == Number(base, k);
    HeaderFields(cmd, manager, Some(agent), Number(base, k), rest);
    hide Header, ReplyBytes, ParseReply, Number, SeqOf, Cut;
    OwnReplyParses(Header(cmd, manager, Some(agent), Number(base, k)) + rest, cmd, manager, agent, Number(base, k),
                   0, 0, []);
  }

  /** A SET without the token of the agent's nonce changes nothing and is answered with a mismatch. */
  lemma MismatchIsAnswered(token: TokenOf, a: AgentState, req: Packet)
    requires |a.tables.pvid| == PORTS && |req| >= HEADER_LEN
    requires req[0] == VERSION && req[1] == CMD_SET && req[24..28] == MAGIC
    requires !Authentic(token, a.nonce, WalkFrom(req[HEADER_LEN..]).tlvs)
    ensures var h := HandledBy(token, a, req);
            h.state == a && h.reply.Some? && |h.reply.value| >= REPLY_MIN_LEN && h.reply.value[2] == STATUS_AUTH
  {
    var expected := token(a.nonce);
    ReplyFields(req, STATUS_AUTH, TAG_LOGIN_V2, LengthBytes(expected) + expected, []);
    hide ReplyBytes, WalkFrom, GetReply, LengthBytes;
  }
}
