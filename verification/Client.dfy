/** The NSDP client: login, the nonce refresh in front of every SET, and the SET itself. */
module Client {
  import opened Wrappers
  import opened Bits
  import opened Wire
  import opened Agent
  import opened Session

  datatype ClientError =
    | NoAnswer
    | Rejected(status: byte, failing: u16)
    | BadReply            // the reply lacks the value that was asked for, or has it in another shape
    | OutOfRange          // the argument does not fit the wire
    | TooLong             // the frame does not fit a datagram

  /** Header, auth entry with its 8-byte token, the head of the value's entry, terminator. */
  const SET_OVERHEAD := HEADER_LEN + 12 + 4 + 4

  /** Header, the marker's entry, the head of the block's entry, terminator. */
  const BLOCK_OVERHEAD := HEADER_LEN + 4 + 4 + 4

  /** The requests of one authenticated SET: two login reads, the login, the refresh, the SET. */
  const CALL_REQUESTS := CAPABILITY_ATTEMPTS + DEFAULT_ATTEMPTS + 1 + DEFAULT_ATTEMPTS + 1

  /** The outcome of a window: the first packet the exchange does not drop, read through the buffer. */
  function ReadIn(window: seq<Packet>, expectCmd: byte, wantSeq: u32, manager: Mac, agent: Mac): Read {
    if window == [] then NoReply
    else
      var r := ReadOf(ParseReply(Cut(window[0]), expectCmd, wantSeq, Some(manager), Some(agent)));
      if r.NoReply? then ReadIn(window[1..], expectCmd, wantSeq, manager, agent) else r
  }

  /** A window holds old replies, stray packets and perhaps the own reply: only the own one is read. */
  lemma {:induction false} OnlyOwnIsRead(window: seq<Packet>, base: u32, n: nat, own: Option<Packet>, expectCmd: byte,
                                         manager: Mac, agent: Mac)
    requires n < MODULUS
    requires forall p :: p in window ==> FromBefore(p, base, n) || IsStray(p, manager, agent) || own == Some(p)
    ensures var r := ReadIn(window, expectCmd, Number(base, n), manager, agent);
            || r == NoReply
            || (own.Some?
                && r == ReadOf(ParseReply(Cut(own.value), expectCmd, Number(base, n), Some(manager), Some(agent))))
    ensures own.Some? && own.value in window ==>
              ReadIn(window, expectCmd, Number(base, n), manager, agent)
              == ReadOf(ParseReply(Cut(own.value), expectCmd, Number(base, n), Some(manager), Some(agent)))
  {
    hide ParseReply, FromBefore, Number, Cut, IsStray;
    if window != [] {
      assert window[0] in window && forall p :: p in window[1..] ==> p in window;
      OnlyOwnIsRead(window[1..], base, n, own, expectCmd, manager, agent);
      if FromBefore(window[0], base, n) {
        OldReplyIsDropped(window[0], base, n, expectCmd, Some(manager), Some(agent));
      } else if IsStray(window[0], manager, agent) {
        StrayIsDropped(window[0], expectCmd, Number(base, n), manager, agent);
      }
      assert window == [window[0]] + window[1..];
    }
  }

  class Client {
    const manager: Mac
    const agentMAC: Mac
    const link: Link
    /** The login token of a capability word and a nonce, under the switch's MAC and the password. */
    const loginToken: (u32, Nonce) -> seq<byte>
    var seqno: u32
    var capability: u32
    var token: seq<byte>
    var loggedIn: bool
    ghost const base: u32

    /** The right password: the client's tokens are the ones the switch derives. */
    ghost predicate Keyed() {
      forall nonce: Nonce ::
        loginToken(CAPABILITY_V2, nonce) == link.agent.token(nonce) && |link.agent.token(nonce)| == 8
    }

    /** Whatever else arrives is of another manager or agent. */
    ghost predicate OthersAreStray() {
      forall n: nat, p: Packet :: Stray(p) in link.fate(n).arrivals ==> IsStray(p, manager, agentMAC)
    }

    /** No reply ever sent was an auth mismatch, and every one carries the number of a past request. */
    ghost predicate Valid()
      reads this, link, link.agent, link.agent.nonce, link.agent.pvid
    {
      && link.agent.Valid() && Keyed() && OthersAreStray()
      && seqno == Number(base, link.sent)
      && (forall p :: p in link.pool ==> FromBefore(p, base, link.sent))
      && (loggedIn ==> capability == CAPABILITY_V2)
    }

    constructor (manager: Mac, agentMAC: Mac, link: Link, loginToken: (u32, Nonce) -> seq<byte>, start: u32)
      requires link.agent.Valid() && link.pool == [] && link.sent == 0
      requires forall n: nat, p: Packet :: Stray(p) in link.fate(n).arrivals ==> IsStray(p, manager, agentMAC)
      requires forall nonce: Nonce ::
                 loginToken(CAPABILITY_V2, nonce) == link.agent.token(nonce) && |link.agent.token(nonce)| == 8
      ensures Valid() && !loggedIn && this.link == link
    {
      this.manager, this.agentMAC, this.link, this.loginToken := manager, agentMAC, link, loginToken;
      seqno, capability, token, loggedIn := start, 0, [], false;
      base := start;
    }

    /** Reads the window up to the first packet that belongs to the exchange. */
    method ReadReply(window: seq<Packet>, wantSeq: u32, expectCmd: byte) returns (r: Read)
      ensures r == ReadIn(window, expectCmd, wantSeq, manager, agentMAC)
      ensures r.NoReply? <==> forall p :: p in window ==> !IsOfExchange(Cut(p), expectCmd, wantSeq, manager, agentMAC)
    {
      hide ParseReply, Cut, IsOfExchange;
      for k := 0 to |window|
        invariant ReadIn(window, expectCmd, wantSeq, manager, agentMAC)
               == ReadIn(window[k..], expectCmd, wantSeq, manager, agentMAC)
        invariant forall p :: p in window[..k] ==> !IsOfExchange(Cut(p), expectCmd, wantSeq, manager, agentMAC)
      {
        assert window[k..][0] == window[k] && window[k..][1..] == window[k + 1..];
        AcceptedIsOfExchange(Cut(window[k]), expectCmd, wantSeq, manager, agentMAC);
        assert window[k] in window;
        r := ReadOf(ParseReply(Cut(window[k]), expectCmd, wantSeq, Some(manager), Some(agentMAC)));
        if !r.NoReply? {
          return;
        }
      }
      assert window[|window|..] == [] && window[..|window|] == window;
      return NoReply;
    }

    method NextSeq() returns (s: u32)
      modifies this`seqno
      ensures s == old(seqno) && seqno == Number(s, 1)
    {
      s := seqno;
      seqno := if seqno == MODULUS - 1 then 0 else seqno + 1;
    }

    method EncodeFrame(what: Ask, s: u32) returns (req: Packet)
      ensures req == Frame(what, manager, agentMAC, s)
    {
      hide AttrRequest, TLVRequest;
      match what {
        case AttrGet(tag) => req := EncodeGetRequest(manager, Some(agentMAC), s, [tag]);
        case BlockGet(block, selector) =>
          req := EncodeBlockGetRequest(manager, Some(agentMAC), s, block, BLOCK_MARKER_V2, selector);
        case SetValues(tlvs) => req := EncodeTLVs(CMD_SET, manager, Some(agentMAC), s, tlvs);
      }
    }

    /**
     One request and its window. The agent does what the request asks for if it
     arrives; the answer, when one is read, is the right one.
     */
    method Transact(what: Ask) returns (r: Read)
      requires Valid() && link.sent < MODULUS
      requires InOrder(what, link.agent.token, link.agent.State())
      modifies this`seqno, link`pool, link`sent
      modifies link.agent`vlan8021Q, link.agent`systemName, link.agent`attrs, link.agent`log, link.agent.nonce,
               link.agent.pvid
      ensures Valid() && link.sent == old(link.sent) + 1
      ensures link.agent.State()
           == if link.fate(old(link.sent)).delivered then After(what, old(link.agent.State()))
              else old(link.agent.State())
      ensures r.NoReply?
           || (link.fate(old(link.sent)).delivered && !Silent(what, old(link.agent.State()))
               && RightReply(what, old(link.agent.State()), r))
      ensures Clear(link.fate(old(link.sent))) && !Silent(what, old(link.agent.State())) ==> !r.NoReply?
    {
      hide HandledBy, RightReply, After, ParseReply, Number, ReadIn, FromBefore, IsReplyTo, Frame,
           InOrder, Cut, Sent, Silent;
      ghost var n, a := link.sent, link.agent.State();
      var s := NextSeq();
      var req := EncodeFrame(what, s);
      var window, reply := link.Exchange(req);
      OwnReply(what, link.agent.token, a, manager, agentMAC, s);
      NextNumber(base, n);
      PoolGrows(old(link.pool), reply, base, n);
      OnlyOwnIsRead(window, base, n, reply, Next(Command(what)), manager, agentMAC);
      r := ReadReply(window, s, Next(Command(what)));
      RightIsHeard(what, a, r);
    }

    /** Nothing is in the way: no request since then can have been lost, and the agent's small answers are sent. */
    ghost predicate AllClear(from: nat)
      reads link, link.agent, link.agent.nonce, link.agent.pvid
      requires link.agent.Valid()
    {
      Audible(link.agent.State()) && forall n: nat :: from <= n < link.sent ==> Clear(link.fate(n))
    }

    /**
     Asks for one small value until an answer is read or the attempts are used up: the
     agent's value, if it fits the buffer, or its refusal of a tag nobody knows.
     */
    method GetAttr(tag: byte) returns (r: Result<seq<byte>, ClientError>)
      requires Valid()
               && link.sent + (if tag == TAG_CAPABILITY then CAPABILITY_ATTEMPTS else DEFAULT_ATTEMPTS) <= MODULUS
      modifies this`seqno, link`pool, link`sent
      modifies link.agent`vlan8021Q, link.agent`systemName, link.agent`attrs, link.agent`log, link.agent.nonce,
               link.agent.pvid
      ensures Valid() && link.agent.State() == old(link.agent.State())
      ensures old(link.sent) < link.sent
              <= old(link.sent) + (if tag == TAG_CAPABILITY then CAPABILITY_ATTEMPTS else DEFAULT_ATTEMPTS)
      ensures match r
              case Ok(value) => Known(link.agent.State(), tag) == Some(value) && |value| <= 4060
              case Err(NoAnswer) =>
                || Silent(AttrGet(tag), link.agent.State())
                || forall n: nat :: old(link.sent) <= n < link.sent ==> !Clear(link.fate(n))
              case Err(Rejected(status, failing)) =>
                && Known(link.agent.State(), tag) == None && Known(link.agent.State(), 0) == None
                && status == STATUS_BAD_ATTR && failing == tag
              case Err(BadReply) =>
                (match Known(link.agent.State(), tag)
                 case Some(value) => |value| > 4060
                 case None => Known(link.agent.State(), 0) != None)
              case Err(_) => false
      ensures r == Err(NoAnswer) ==> link.sent == old(link.sent) + if tag == 0x14 then 5 else 14
    {
      hide Keyed, OthersAreStray, FromBefore, Clear, Number, Known, RightReply, Silent;
      var attempts := if tag == TAG_CAPABILITY then CAPABILITY_ATTEMPTS else DEFAULT_ATTEMPTS;
      ghost var start, a := link.sent, link.agent.State();
      var i := 1;
      while true
        invariant 1 <= i <= attempts && link.sent == start + i - 1
        invariant Valid() && link.agent.Valid() && link.agent.State() == a
        invariant Silent(AttrGet(tag), a) || forall n: nat :: start <= n < link.sent ==> !Clear(link.fate(n))
        decreases attempts - i
      {
        var reply := Transact(AttrGet(tag));
        if reply.NoReply? {
          if i >= attempts {
            return Err(NoAnswer);
          }
          i := i + 1;
          continue;
        }
        AttrRead(a, tag, reply);
        if reply.RefusedBy? {
          return Err(Rejected(reply.reply.status, reply.reply.failing));
        }
        var tlvs := reply.reply.tlvs;
        ghost var all := FirstValue(tlvs, tag);
        for k := 0 to |tlvs|
          modifies {}
          invariant all == FirstValue(tlvs[k..], tag)
        {
          assert tlvs[k..][0] == tlvs[k] && tlvs[k..][1..] == tlvs[k + 1..];
          if tlvs[k].tag == tag {
            return Ok(tlvs[k].value);
          }
        }
        assert tlvs[|tlvs|..] == [];
        return Err(BadReply);
      }
    }

    /**
     The login handshake: capability, nonce, then the token of that nonce. The switch
     is not changed by it, except for the nonce that rolls.
     */
    method Login() returns (err: Option<ClientError>)
      requires Valid() && link.sent + CAPABILITY_ATTEMPTS + DEFAULT_ATTEMPTS + 1 <= MODULUS
      modifies this`seqno, this`capability, this`token, this`loggedIn, link`pool, link`sent
      modifies link.agent`vlan8021Q, link.agent`systemName, link.agent`attrs, link.agent`log, link.agent.nonce,
               link.agent.pvid
      ensures Valid() && SameConfig(link.agent.State(), old(link.agent.State()))
      ensures old(link.sent) < link.sent <= old(link.sent) + CAPABILITY_ATTEMPTS + DEFAULT_ATTEMPTS + 1
      ensures err.None? ==> loggedIn
      ensures err.Some? ==> err.value == NoAnswer && !AllClear(old(link.sent))
    {
      hide OthersAreStray, FromBefore, Clear, Number, AppliedAll, Known, Silent, AnswerTo, Values, Seen;
      AlwaysKnown(link.agent.State(), TAG_CAPABILITY);
      AlwaysKnown(link.agent.State(), TAG_NONCE);
      var cap := GetAttr(TAG_CAPABILITY);
      if cap.Err? {
        LostOrMute(old(link.sent), Silent(AttrGet(TAG_CAPABILITY), link.agent.State()));
        return Some(cap.error);
      }
      if |cap.value| != 4 {
        return Some(BadReply);
      }
      var v := QuadValue(cap.value);
      CapabilityIsV2();
      var needsNonce := HasBit(v, 0x08) || HasBit(v, 0x10);
      ghost var before := link.sent;
      var nonce := GetAttr(TAG_NONCE);
      if nonce.Err? {
        LostOrMute(before, Silent(AttrGet(TAG_NONCE), link.agent.State()));
        return Some(nonce.error);
      }
      var n: Nonce := [0, 0, 0, 0];
      if |nonce.value| != 4 {
        if needsNonce {
          return Some(BadReply);
        }
      } else {
        n := nonce.value;
      }
      var t := loginToken(v, n);
      var auth := [TLV(LoginTagFor(v), t)];
      OnlyAuth(auth);
      ValueHeard(auth[0], auth[0]);
      before := link.sent;
      ghost var state := link.agent.State();
      var reply := Transact(SetValues(auth));
      NothingApplied(state, auth);
      match reply {
        case NoReply =>
          LostLast(before);
          return Some(NoAnswer);
        case RefusedBy(r) => return Some(Rejected(r.status, r.failing));
        case Got(_) =>
      }
      capability, token, loggedIn := v, t, true;
      return None;
    }

    /**
     Reads one block, by the same schedule: of the agent's answer what fits the buffer. An
     unknown block stays without answer.
     */
    method GetBlock(block: byte, selector: seq<byte>) returns (r: Result<seq<TLV>, ClientError>)
      requires Valid() && link.sent + DEFAULT_ATTEMPTS <= MODULUS
      modifies this`seqno, link`pool, link`sent
      modifies link.agent`vlan8021Q, link.agent`systemName, link.agent`attrs, link.agent`log, link.agent.nonce,
               link.agent.pvid
      ensures Valid() && link.agent.State() == old(link.agent.State())
      ensures old(link.sent) < link.sent <= old(link.sent) + DEFAULT_ATTEMPTS
      ensures r == Err(TooLong) <==> BLOCK_OVERHEAD + |selector| > MAX_DATAGRAM
      ensures match r
              case Ok(tlvs) =>
                var answer := BlockAnswers(link.agent.State(), block, selector);
                && answer.Some? && tlvs == Seen(answer.value, ROOM).tlvs
                && REPLY_MIN_LEN + |Region(answer.value)| <= MAX_DATAGRAM
              case Err(TooLong) => true
              case Err(NoAnswer) =>
                BlockSilent(link.agent.State(), block, selector) || !AllClear(old(link.sent))
              case Err(_) => false
      ensures r == Err(NoAnswer) ==> link.sent == old(link.sent) + 14
    {
      hide Keyed, OthersAreStray, FromBefore, Clear, Number, BlockAnswers, AnswerTo, Seen, Region;
      ghost var start, a := link.sent, link.agent.State();
      if HEADER_LEN + 4 + (4 + |selector|) + 4 > MAX_DATAGRAM {
        var unused := NextSeq();
        NextNumber(base, link.sent);
        PoolGrows(link.pool, None, base, link.sent);
        link.Refuse();
        return Err(TooLong);
      }
      BlockAnswered(a, block, selector);
      for i := 1 to DEFAULT_ATTEMPTS + 1
        invariant link.sent == start + i - 1
        invariant Valid() && link.agent.Valid() && link.agent.State() == a
        invariant BlockSilent(a, block, selector) ||
                  forall n: nat :: start <= n < link.sent ==> !Clear(link.fate(n))
      {
        var reply := Transact(BlockGet(block, selector));
        match reply {
          case NoReply =>
          case RefusedBy(refused) => return Err(Rejected(refused.status, refused.failing));
          case Got(got) => return Ok(got.tlvs);
        }
      }
      if !BlockSilent(a, block, selector) {
        LostOne(start);
      }
      return Err(NoAnswer);
    }

    lemma LostOne(from: nat)
      requires link.agent.Valid() && from < link.sent && forall n: nat :: from <= n < link.sent ==> !Clear(link.fate(n))
      ensures forall earlier: nat :: earlier <= from ==> !AllClear(earlier)
    {
      hide Clear;
      assert !Clear(link.fate(from));
    }

    lemma LostOrMute(from: nat, mute: bool)
      requires link.agent.Valid() && from < link.sent && (mute <==> !Audible(link.agent.State()))
      requires mute || forall n: nat :: from <= n < link.sent ==> !Clear(link.fate(n))
      ensures forall earlier: nat :: earlier <= from ==> !AllClear(earlier)
    {
      hide Clear;
      if !mute {
        LostOne(from);
      }
    }

    lemma LostLast(n: nat)
      requires link.agent.Valid() && n < link.sent && !Clear(link.fate(n))
      ensures forall earlier: nat :: earlier <= n ==> !AllClear(earlier)
    {
      hide Clear;
    }

    /** Fetches the nonce again and derives the token from it: the switch rolls it with every SET. */
    method RefreshToken() returns (err: Option<ClientError>)
      requires Valid() && link.sent + DEFAULT_ATTEMPTS <= MODULUS && loggedIn
      modifies this`seqno, this`token, link`pool, link`sent
      modifies link.agent`vlan8021Q, link.agent`systemName, link.agent`attrs, link.agent`log, link.agent.nonce,
               link.agent.pvid
      ensures Valid() && link.agent.State() == old(link.agent.State())
      ensures old(link.sent) < link.sent <= old(link.sent) + DEFAULT_ATTEMPTS
      ensures err.None? ==> token == link.agent.token(link.agent.State().nonce)
      ensures err.Some? ==> err.value == NoAnswer && !AllClear(old(link.sent))
    {
      hide OthersAreStray, FromBefore, Clear, Number, Known, Silent;
      AlwaysKnown(link.agent.State(), TAG_NONCE);
      if !HasBit(capability, 0x08) && !HasBit(capability, 0x10) {
        return None;
      }
      var nonce := GetAttr(TAG_NONCE);
      if nonce.Err? {
        LostOrMute(old(link.sent), Silent(AttrGet(TAG_NONCE), link.agent.State()));
        return Some(nonce.error);
      }
      if |nonce.value| != 4 {
        return Some(BadReply);
      }
      token := loginToken(capability, nonce.value);
      return None;
    }

    /**
     One authenticated SET of one value, of any tag and length. The value is applied at
     most once, and no SET is ever a mismatch. Without an error it was applied exactly
     once, if and only if it fits the agent's buffer and its tag is not the terminator's;
     otherwise it was acknowledged and dropped. The only errors are a value too long for a
     datagram, a value the agent finds malformed, and a loss.
     */
    method SetRaw(tag: u16, value: seq<byte>) returns (err: Option<ClientError>)
      requires Valid() && link.sent + CALL_REQUESTS <= MODULUS
      modifies this`seqno, this`capability, this`token, this`loggedIn, link`pool, link`sent
      modifies link.agent`vlan8021Q, link.agent`systemName, link.agent`attrs, link.agent`log, link.agent.nonce,
               link.agent.pvid
      ensures Valid() && old(link.sent) < link.sent <= old(link.sent) + CALL_REQUESTS
      ensures SameConfig(link.agent.State(), old(link.agent.State()))
           || AppliedOnce(link.agent.State(), old(link.agent.State()), TLV(tag, value))
      ensures err.None? ==>
                SET_OVERHEAD + |value| <= MAX_DATAGRAM
                && (AppliedOnce(link.agent.State(), old(link.agent.State()), TLV(tag, value)) <==>
                      tag != 0xFFFF && |value| <= 4048)
      ensures err.Some? ==>
                match err.value
                case TooLong => SET_OVERHEAD + |value| > MAX_DATAGRAM
                case Rejected(status, failing) =>
                  && status == 0x05 && failing == tag && tag != 0xFFFF
                  && |value| <= 4048 && !WellFormedSet(TLV(tag, value))
                case NoAnswer => !AllClear(old(link.sent))
                case _ => false
    {
      hide OthersAreStray, FromBefore, Clear, Number, WellFormedSet, Applied, Values, Seen;
      if !loggedIn {
        var failed := Login();
        if failed.Some? {
          return failed;
        }
      }
      ghost var before := link.sent;
      var failed := RefreshToken();
      if failed.Some? {
        SentGrows(old(link.sent), before);
        return failed;
      }
      var payload := TLV(tag, value);
      var tlvs := [TLV(LoginTagFor(capability), token), payload];
      if HEADER_LEN + (4 + |token|) + (4 + |value|) + 4 > MAX_DATAGRAM {
        var unused := NextSeq();
        NextNumber(base, link.sent);
        PoolGrows(link.pool, None, base, link.sent);
        link.Refuse();
        return Some(TooLong);
      }
      ValueHeard(tlvs[0], payload);
      OneValue(link.agent.State(), payload);
      NoValue(link.agent.State());
      before := link.sent;
      var reply := Transact(SetValues(tlvs));
      match reply {
        case NoReply =>
          LostLast(before);
          return Some(NoAnswer);
        case RefusedBy(r) => return Some(Rejected(r.status, r.failing));
        case Got(_) =>
      }
      return None;
    }

    lemma SentGrows(from: nat, before: nat)
      requires link.agent.Valid() && from <= before && !AllClear(before)
      ensures !AllClear(from)
    {
      hide Clear;
    }
  }

  function HasBit(v: u32, mask: u32): bool
    requires mask > 0
  {
    v / mask % 2 == 1
  }

  /** The auth tag of a capability word. */
  function LoginTagFor(v: u32): u16 {
    if HasBit(v, 0x10) then TAG_LOGIN_V2 else if HasBit(v, 0x08) then 0x0018 else 0x000a
  }

  /** Bit 0x10 asks for the token under 0x1a, else bit 0x08 under 0x18; without both it is the password under 0x0a. */
  lemma LoginTags()
    ensures LoginTagFor(0x10) == 0x001a && LoginTagFor(0x18) == 0x001a && LoginTagFor(0x08) == 0x0018
    ensures LoginTagFor(0x00) == 0x000a && LoginTagFor(0x07) == 0x000a && LoginTagFor(0xffff_ffe7) == 0x000a
  {
  }

  lemma CapabilityIsV2()
    ensures QuadValue(CAPABILITY) == CAPABILITY_V2 && LoginTagFor(CAPABILITY_V2) == TAG_LOGIN_V2
  {
  }

  /** Nothing but the nonce is different. */
  ghost predicate SameConfig(a: AgentState, was: AgentState) {
    a.tables == was.tables && a.log == was.log
  }

  /** A well-formed value was applied once. */
  ghost predicate AppliedOnce(a: AgentState, was: AgentState, t: TLV) {
    && t.tag != TERM_TAG && WellFormedSet(t) && |was.tables.pvid| == PORTS
    && a.tables == Applied(was.tables, t) && a.log == was.log + [t]
  }

  lemma OnlyAuth(auth: seq<TLV>)
    requires |auth| == 1 && |auth[0].value| < 0x1_0000
    ensures ShortValues(auth)
  {
  }

  lemma NothingApplied(a: AgentState, auth: seq<TLV>)
    requires |a.tables.pvid| == PORTS && Values(SetValues(auth)) == []
    ensures SameConfig(After(SetValues(auth), a), a)
    ensures AnswerTo(SetValues(auth), a) == Some(Answered(0, 0, [])) && !Silent(SetValues(auth), a)
  {
    hide Values;
  }

  /** The block is unknown, or its table is longer than a datagram. */
  predicate BlockSilent(a: AgentState, block: byte, selector: seq<byte>)
    requires |a.tables.pvid| == PORTS
  {
    var answer := BlockAnswers(a, block, selector);
    answer.None? || REPLY_MIN_LEN + |Region(answer.value)| > MAX_DATAGRAM
  }

  lemma RightIsHeard(what: Ask, a: AgentState, r: Read)
    requires |a.tables.pvid| == PORTS
    ensures RightReply(what, a, r) ==> !r.NoReply?
  {
    hide AnswerTo, Seen;
  }

  lemma NextNumber(base: u32, n: nat)
    ensures Number(Number(base, n), 1) == Number(base, n + 1)
  {
  }

  /** The pool after one more request. */
  lemma PoolGrows(pool: seq<Packet>, reply: Option<Packet>, base: u32, n: nat)
    requires forall p :: p in pool ==> FromBefore(p, base, n)
    requires reply.Some? ==> IsReplyTo(reply.value, Number(base, n))
    ensures forall p :: p in pool || reply == Some(p) ==> FromBefore(p, base, n + 1)
  {
    hide Number, IsReplyTo;
    forall p | p in pool
      ensures FromBefore(p, base, n + 1)
    {
      var k: nat :| k < n && IsReplyTo(p, Number(base, k));
    }
  }
}
