/**
 The lockstep block transfer of RFC 1350, sections 2 and 6: what each of the four
 endpoint loops does with the next thing its socket yields.
 */
module Tftp {
  import opened Bits

  const BLOCK_SIZE := 512

  /** Packets that travel between the two transfer ports; a request opens them. */
  datatype Packet =
    | Data(block: u16, payload: seq<byte>)
    | Ack(block: u16)
    | Error(code: u16)
    | Junk

  /** What a receive yields: a packet, or the end of its window. */
  datatype Event = Recv(packet: Packet) | Timeout

  /** block++ */
  function Inc(block: u16): u16 {
    if block == 0xffff then 0 else block + 1
  }

  /** block-1 */
  function Dec(block: u16): u16 {
    if block == 0 then 0xffff else block - 1
  }

  /** The chunk at an offset: 512 bytes, or what is left. */
  function Chunk(data: seq<byte>, offset: nat): seq<byte>
    requires offset <= |data|
  {
    if offset + BLOCK_SIZE < |data| then data[offset..offset + BLOCK_SIZE] else data[offset..]
  }

  /** What a socket yields next; after its script only silence. */
  function At(events: seq<Event>, k: nat): Event {
    if k < |events| then events[k] else Timeout
  }

  // ---------------------------------------------------------------------
  // The sender of an upload: TFTPPut
  // ---------------------------------------------------------------------

  datatype PutClient =
    | Waiting
    | Sending(block: u16, offset: nat, attempt: nat)
    | PutDone
    | PutFailed(sent: nat)    // blocks sent when it gave up

  datatype PutClientMove = PutClientMove(next: PutClient, out: seq<Packet>)

  function PutClientStep(data: seq<byte>, retries: nat, s: PutClient, e: Event): PutClientMove
    requires s.Sending? ==> s.offset <= |data|
  {
    match s
    case Waiting =>
      if e == Recv(Ack(0)) then PutClientMove(Sending(1, 0, 0), [Data(1, Chunk(data, 0))])
      else PutClientMove(PutFailed(0), [])
    case Sending(block, offset, attempt) =>
      var chunk := Chunk(data, offset);
      if e == Recv(Ack(block)) then
        if |chunk| < BLOCK_SIZE then PutClientMove(PutDone, [])
        else PutClientMove(Sending(Inc(block), offset + BLOCK_SIZE, 0),
                           [Data(Inc(block), Chunk(data, offset + BLOCK_SIZE))])
      else if e.Recv? && e.packet.Error? then PutClientMove(PutFailed(offset / BLOCK_SIZE + 1), [])
      else if attempt + 1 < retries then PutClientMove(Sending(block, offset, attempt + 1), [Data(block, chunk)])
      else PutClientMove(PutFailed(offset / BLOCK_SIZE + 1), [])
    case _ => PutClientMove(s, [])
  }

  lemma NextOffset(data: seq<byte>, offset: nat)
    requires offset <= |data| && |Chunk(data, offset)| >= BLOCK_SIZE
    ensures offset + BLOCK_SIZE <= |data|
  {
  }

  // ---------------------------------------------------------------------
  // The receiver of an upload: kindWRQ
  // ---------------------------------------------------------------------

  datatype PutServer =
    | Receiving(block: u16, acc: seq<byte>, attempt: nat)
    | Stored(acc: seq<byte>)
    | Dropped(block: u16, acc: seq<byte>)

  datatype PutServerMove = PutServerMove(next: PutServer, out: seq<Packet>)

  function PutServerStep(retries: nat, s: PutServer, e: Event): PutServerMove {
    match s
    case Receiving(block, acc, attempt) =>
      if e.Timeout? then
        PutServerMove(if attempt + 1 < retries then Receiving(block, acc, attempt + 1) else Dropped(block, acc),
                      [Ack(Dec(block))])
      else if e.packet.Error? then PutServerMove(Dropped(block, acc), [])
      else if e.packet.Data? && e.packet.block == block then
        PutServerMove(if |e.packet.payload| < BLOCK_SIZE then Stored(acc + e.packet.payload)
                      else Receiving(Inc(block), acc + e.packet.payload, 0),
                      [Ack(block)])
      else PutServerMove(Receiving(block, acc, 0), [Ack(Dec(block))])
    case _ => PutServerMove(s, [])
  }

  /** The machine over the first n events: where it is, and what it sent. */
  function PutServerRun(retries: nat, events: seq<Event>, n: nat): PutServerMove {
    if n == 0 then PutServerMove(Receiving(1, [], 0), [Ack(0)])
    else
      var before := PutServerRun(retries, events, n - 1);
      var move := PutServerStep(retries, before.next, At(events, n - 1));
      PutServerMove(move.next, before.out + move.out)
  }

  function PutClientRun(data: seq<byte>, retries: nat, events: seq<Event>, n: nat): (m: PutClientMove)
    ensures m.next.Sending? ==> m.next.offset <= |data|
  {
    if n == 0 then PutClientMove(Waiting, [])
    else
      var before := PutClientRun(data, retries, events, n - 1);
      var move := PutClientStep(data, retries, before.next, At(events, n - 1));
      PutClientMove(move.next, before.out + move.out)
  }

  /** The session loop of a write request, over what its socket yields. */
  method KindWRQ(retries: nat, events: seq<Event>) returns (r: PutServer, sent: seq<Packet>, used: nat)
    requires retries > 0
    ensures PutServerMove(r, sent) == PutServerRun(retries, events, used) && !r.Receiving?
  {
    sent, used := [Ack(0)], 0;
    var block: u16 := 1;
    var acc: seq<byte> := [];
    while true
      invariant PutServerRun(retries, events, used) == PutServerMove(Receiving(block, acc, 0), sent)
      decreases if used < |events| then |events| - used else 0
    {
      var reply: Packet := Junk;
      var ok := false;
      var attempt := 0;
      ghost var first := used;
      while attempt < retries && !ok
        invariant 0 <= attempt <= retries && first <= used
        invariant ok ==>
                    used > first && attempt < retries && used <= |events| && At(events, used - 1) == Recv(reply)
        invariant ok ==> PutServerRun(retries, events, used - 1) == PutServerMove(Receiving(block, acc, attempt), sent)
        invariant !ok ==>
                    (PutServerRun(retries, events, used)
                     == PutServerMove(if attempt < retries then Receiving(block, acc, attempt) else Dropped(block, acc),
                                      sent))
        decreases retries - attempt, !ok
      {
        var e := At(events, used);
        used := used + 1;
        match e {
          case Recv(p) =>
            reply, ok := p, true;
          case Timeout =>
            sent := sent + [Ack(Dec(block))];
            attempt := attempt + 1;
        }
      }
      if !ok {
        return Dropped(block, acc), sent, used;
      }
      if reply.Error? {
        return Dropped(block, acc), sent, used;
      }
      if !reply.Data? || reply.block != block {
        sent := sent + [Ack(Dec(block))];
        continue;
      }
      acc := acc + reply.payload;
      sent := sent + [Ack(block)];
      if |reply.payload| < BLOCK_SIZE {
        break;
      }
      block := Inc(block);
    }
    return Stored(acc), sent, used;
  }

  lemma PutClientRunStep(data: seq<byte>, retries: nat, events: seq<Event>, n: nat)
    ensures PutClientRun(data, retries, events, 0) == PutClientMove(Waiting, [])
    ensures var before := PutClientRun(data, retries, events, n);
            var move := PutClientStep(data, retries, before.next, At(events, n));
            PutClientRun(data, retries, events, n + 1) == PutClientMove(move.next, before.out + move.out)
  {
  }

  /** The upload loop, over what its socket yields. */
  method TFTPPut(data: seq<byte>, retries: nat, events: seq<Event>) returns (r: PutClient, sent: seq<Packet>, used: nat)
    requires retries > 0
    ensures PutClientMove(r, sent) == PutClientRun(data, retries, events, used) && (r.PutDone? || r.PutFailed?)
  {
    hide Chunk, PutClientRun;
    PutClientRunStep(data, retries, events, 0);
    sent, used := [], 1;
    var ack0 := At(events, 0);
    if ack0 != Recv(Ack(0)) {
      return PutFailed(0), sent, used;
    }
    var blockIdx: u16 := 1;
    var offset := 0;
    while true
      invariant offset <= |data| && offset % BLOCK_SIZE == 0 && used > 0
      invariant PutClientRun(data, retries, events, used)
             == PutClientMove(Sending(blockIdx, offset, 0), sent + [Data(blockIdx, Chunk(data, offset))])
      decreases |data| - offset
    {
      var chunk := Chunk(data, offset);
      var accepted := false;
      var attempt := 0;
      while attempt < retries && !accepted
        invariant 0 <= attempt <= retries && used > 0
        invariant !accepted ==>
                    (PutClientRun(data, retries, events, used)
                     == if attempt < retries
                        then PutClientMove(Sending(blockIdx, offset, attempt), sent + [Data(blockIdx, chunk)])
                        else PutClientMove(PutFailed(offset / BLOCK_SIZE + 1), sent))
        invariant accepted ==> attempt < retries && At(events, used - 1) == Recv(Ack(blockIdx))
        invariant accepted ==>
                    PutClientRun(data, retries, events, used - 1)
                    == PutClientMove(Sending(blockIdx, offset, attempt), sent)
        decreases retries - attempt, !accepted
      {
        sent := sent + [Data(blockIdx, chunk)];
        var e := At(events, used);
        PutClientRunStep(data, retries, events, used);
        used := used + 1;
        if e.Recv? && e.packet.Error? {
          return PutFailed(offset / BLOCK_SIZE + 1), sent, used;
        }
        if e == Recv(Ack(blockIdx)) {
          accepted := true;
        } else {
          attempt := attempt + 1;
        }
      }
      if !accepted {
        return PutFailed(offset / BLOCK_SIZE + 1), sent, used;
      }
      PutClientRunStep(data, retries, events, used - 1);
      if |chunk| < BLOCK_SIZE {
        return PutDone, sent, used;
      }
      NextOffset(data, offset);
      blockIdx := Inc(blockIdx);
      offset := offset + BLOCK_SIZE;
    }
  }

  // ---------------------------------------------------------------------
  // The sender of a download: kindRRQ
  // ---------------------------------------------------------------------

  datatype GetServer =
    | Serving(block: u16, offset: nat, attempt: nat)
    | Served
    | GaveUp(sent: nat)    // blocks sent when it gave up

  datatype GetServerMove = GetServerMove(next: GetServer, out: seq<Packet>)

  function GetServerStep(data: seq<byte>, retries: nat, s: GetServer, e: Event): GetServerMove
    requires s.Serving? ==> s.offset <= |data|
  {
    match s
    case Serving(block, offset, attempt) =>
      var chunk := Chunk(data, offset);
      if e == Recv(Ack(block)) then
        if |chunk| < BLOCK_SIZE then GetServerMove(Served, [])
        else GetServerMove(Serving(Inc(block), offset + BLOCK_SIZE, 0),
                           [Data(Inc(block), Chunk(data, offset + BLOCK_SIZE))])
      else if attempt + 1 < retries then GetServerMove(Serving(block, offset, attempt + 1), [Data(block, chunk)])
      else GetServerMove(GaveUp(offset / BLOCK_SIZE + 1), [])
    case _ => GetServerMove(s, [])
  }

  function GetServerRun(data: seq<byte>, retries: nat, events: seq<Event>, n: nat): (m: GetServerMove)
    ensures m.next.Serving? ==> m.next.offset <= |data|
  {
    if n == 0 then GetServerMove(Serving(1, 0, 0), [Data(1, Chunk(data, 0))])
    else
      var before := GetServerRun(data, retries, events, n - 1);
      var move := GetServerStep(data, retries, before.next, At(events, n - 1));
      GetServerMove(move.next, before.out + move.out)
  }

  lemma GetServerRunStep(data: seq<byte>, retries: nat, events: seq<Event>, n: nat)
    ensures GetServerRun(data, retries, events, 0) == GetServerMove(Serving(1, 0, 0), [Data(1, Chunk(data, 0))])
    ensures var before := GetServerRun(data, retries, events, n);
            var move := GetServerStep(data, retries, before.next, At(events, n));
            GetServerRun(data, retries, events, n + 1) == GetServerMove(move.next, before.out + move.out)
  {
  }

  /** The session loop of a read request, over what its socket yields. */
  method KindRRQ(data: seq<byte>, retries: nat, events: seq<Event>) returns (r: GetServer, sent: seq<Packet>, used: nat)
    requires retries > 0
    ensures GetServerMove(r, sent) == GetServerRun(data, retries, events, used) && !r.Serving?
  {
    hide Chunk, GetServerRun;
    GetServerRunStep(data, retries, events, 0);
    used, sent := 0, [];
    var block: u16 := 1;
    var offset := 0;
    assert [] + [Data(block, Chunk(data, offset))] == [Data(1, Chunk(data, 0))];
    while true
      invariant offset <= |data|
      invariant GetServerRun(data, retries, events, used)
             == GetServerMove(Serving(block, offset, 0), sent + [Data(block, Chunk(data, offset))])
      decreases |data| - offset
    {
      var chunk := Chunk(data, offset);
      var acked := false;
      var attempt := 0;
      while attempt < retries && !acked
        invariant 0 <= attempt <= retries
        invariant !acked ==>
                    (GetServerRun(data, retries, events, used)
                     == if attempt < retries
                        then GetServerMove(Serving(block, offset, attempt), sent + [Data(block, chunk)])
                        else GetServerMove(GaveUp(offset / BLOCK_SIZE + 1), sent))
        invariant acked ==> attempt < retries && used > 0 && At(events, used - 1) == Recv(Ack(block))
        invariant acked ==>
                    GetServerRun(data, retries, events, used - 1)
                    == GetServerMove(Serving(block, offset, attempt), sent)
        decreases retries - attempt, !acked
      {
        sent := sent + [Data(block, chunk)];
        var reply := At(events, used);
        GetServerRunStep(data, retries, events, used);
        used := used + 1;
        if reply == Recv(Ack(block)) {
          acked := true;
        } else {
          attempt := attempt + 1;
        }
      }
      if !acked {
        return GaveUp(offset / BLOCK_SIZE + 1), sent, used;
      }
      GetServerRunStep(data, retries, events, used - 1);
      if |chunk| < BLOCK_SIZE {
        break;
      }
      NextOffset(data, offset);
      block := Inc(block);
      offset := offset + BLOCK_SIZE;
    }
    return Served, sent, used;
  }

  // ---------------------------------------------------------------------
  // The receiver of a download: TFTPGet
  // ---------------------------------------------------------------------

  datatype GetClient =
    | Fetching(block: u16, out: seq<byte>)
    | Fetched(out: seq<byte>)
    | GetFailed(block: u16, out: seq<byte>)

  datatype GetClientMove = GetClientMove(next: GetClient, sent: seq<Packet>)

  function GetClientStep(s: GetClient, e: Event): GetClientMove {
    match s
    case Fetching(block, out) =>
      if e.Recv? && e.packet.Data? then
        var payload := e.packet.payload;
        if e.packet.block != block then GetClientMove(s, [Ack(e.packet.block)])
        else if |payload| < BLOCK_SIZE then GetClientMove(Fetched(out + payload), [Ack(block)])
        else GetClientMove(Fetching(Inc(block), out + payload), [Ack(block)])
      else GetClientMove(GetFailed(block, out), [])
    case _ => GetClientMove(s, [])
  }

  function GetClientRun(events: seq<Event>, n: nat): GetClientMove {
    if n == 0 then GetClientMove(Fetching(1, []), [])
    else
      var before := GetClientRun(events, n - 1);
      var move := GetClientStep(before.next, At(events, n - 1));
      GetClientMove(move.next, before.sent + move.sent)
  }

  /** The download loop, over what its socket yields. */
  method TFTPGet(events: seq<Event>) returns (r: GetClient, sent: seq<Packet>, used: nat)
    ensures GetClientMove(r, sent) == GetClientRun(events, used) && !r.Fetching?
  {
    sent, used := [], 0;
    var out: seq<byte> := [];
    var nextBlock: u16 := 1;
    while true
      invariant GetClientRun(events, used) == GetClientMove(Fetching(nextBlock, out), sent)
      decreases if used < |events| then |events| - used else 0
    {
      var e := At(events, used);
      used := used + 1;
      if e.Timeout? {
        return GetFailed(nextBlock, out), sent, used;
      }
      if !e.packet.Data? {
        return GetFailed(nextBlock, out), sent, used;
      }
      var block, payload := e.packet.block, e.packet.payload;
      sent := sent + [Ack(block)];
      if block != nextBlock {
        continue;
      }
      out := out + payload;
      if |payload| < BLOCK_SIZE {
        return Fetched(out), sent, used;
      }
      nextBlock := Inc(nextBlock);
    }
  }
}
