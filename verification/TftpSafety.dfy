/**
 Both ends of a transfer over a channel that loses, repeats and reorders: any packet
 ever sent may arrive at any time, or never. While block numbers do not repeat, the
 two ends stay within one block of each other and the bytes arrive as they are.
 */
module TftpSafety {
  import opened Bits
  import opened Tftp

  // ---------------------------------------------------------------------
  // Blocks
  // ---------------------------------------------------------------------

  /** The number of DATA blocks, the last of them short. */
  function Blocks(data: seq<byte>): nat {
    |data| / BLOCK_SIZE + 1
  }

  /** The payload of block i, counted from 1. */
  function Payload(data: seq<byte>, i: nat): seq<byte>
    requires 1 <= i <= Blocks(data)
  {
    Chunk(data, BLOCK_SIZE * (i - 1))
  }

  /** The bytes of the first k blocks. */
  function Prefix(data: seq<byte>, k: nat): seq<byte>
    requires k <= Blocks(data)
  {
    if BLOCK_SIZE * k <= |data| then data[..BLOCK_SIZE * k] else data
  }

  /** Block numbers that never repeat. */
  predicate Numbered(data: seq<byte>) {
    |data| / BLOCK_SIZE < 0xffff
  }

  lemma PrefixGrows(data: seq<byte>, k: nat)
    requires k < Blocks(data)
    ensures Prefix(data, k + 1) == Prefix(data, k) + Payload(data, k + 1)
    ensures |Payload(data, k + 1)| < BLOCK_SIZE <==> k + 1 == Blocks(data)
    ensures k + 1 < Blocks(data) ==> |Payload(data, k + 1)| == BLOCK_SIZE
    ensures Prefix(data, 0) == [] && Prefix(data, Blocks(data)) == data
  {
  }

  // ---------------------------------------------------------------------
  // Uploads
  // ---------------------------------------------------------------------

  /** Both ends, and every packet ever sent in each direction. */
  datatype PutWorld = PutWorld(client: PutClient, server: PutServer, up: set<Packet>, down: set<Packet>)

  /** One end reads a packet that was sent once, or a window ends. */
  datatype Move = ClientMoves(e: Event) | ServerMoves(e: Event)

  function SetOf(s: seq<Packet>): set<Packet> {
    set p | p in s
  }

  predicate PutEnabled(w: PutWorld, m: Move) {
    match m
    case ClientMoves(e) => e.Recv? ==> e.packet in w.down
    case ServerMoves(e) => e.Recv? ==> e.packet in w.up
  }

  predicate PutInBounds(data: seq<byte>, w: PutWorld) {
    w.client.Sending? ==> w.client.offset <= |data|
  }

  function PutNext(data: seq<byte>, retries: nat, w: PutWorld, m: Move): PutWorld
    requires PutInBounds(data, w)
  {
    match m
    case ClientMoves(e) =>
      var move := PutClientStep(data, retries, w.client, e);
      w.(client := move.next, up := w.up + SetOf(move.out))
    case ServerMoves(e) =>
      var move := PutServerStep(retries, w.server, e);
      w.(server := move.next, down := w.down + SetOf(move.out))
  }

  /** The session has taken the request: its ACK 0 is on the way. */
  const PUT_START := PutWorld(Waiting, Receiving(1, [], 0), {}, {Ack(0)})

  /** A run of the two ends; a packet that was never sent does not arrive. */
  predicate PutRuns(data: seq<byte>, retries: nat, w: PutWorld, moves: seq<Move>)
    decreases |moves|
  {
    PutInBounds(data, w)
    && (moves != [] ==>
          PutEnabled(w, moves[0]) && PutRuns(data, retries, PutNext(data, retries, w, moves[0]), moves[1..]))
  }

  function PutEnd(data: seq<byte>, retries: nat, w: PutWorld, moves: seq<Move>): PutWorld
    requires PutRuns(data, retries, w, moves)
    decreases |moves|
  {
    if moves == [] then w else PutEnd(data, retries, PutNext(data, retries, w, moves[0]), moves[1..])
  }

  /** Blocks the client has sent. */
  function SentBlocks(data: seq<byte>, c: PutClient): nat {
    match c
    case Waiting => 0
    case Sending(_, offset, _) => offset / BLOCK_SIZE + 1
    case PutDone => Blocks(data)
    case PutFailed(sent) => sent
  }

  /** Blocks the server has taken. */
  function TakenBlocks(data: seq<byte>, s: PutServer): nat {
    match s
    case Receiving(block, _, _) => Dec(block)
    case Stored(_) => Blocks(data)
    case Dropped(block, _) => Dec(block)
  }

  predicate ServerHolds(data: seq<byte>, s: PutServer) {
    match s
    case Receiving(block, acc, _) => 1 <= block <= Blocks(data) && acc == Prefix(data, block - 1)
    case Stored(acc) => acc == data
    case Dropped(block, acc) => 1 <= block <= Blocks(data) && acc == Prefix(data, block - 1)
  }

  predicate ClientHolds(data: seq<byte>, c: PutClient) {
    match c
    case Sending(block, offset, _) =>
      1 <= block <= Blocks(data) && offset == BLOCK_SIZE * (block - 1) && offset <= |data|
    case PutFailed(sent) => sent <= Blocks(data)
    case _ => true
  }

  ghost predicate DataUpTo(data: seq<byte>, sent: set<Packet>, k: nat) {
    forall p :: p in sent ==>
      p.Data? && 1 <= p.block <= k && p.block <= Blocks(data) && p.payload == Payload(data, p.block)
  }

  ghost predicate AcksUpTo(sent: set<Packet>, k: nat) {
    forall p :: p in sent ==> p.Ack? && p.block <= k
  }

  /**
   The two counters differ by at most one while the client is sending, each side holds
   whole blocks, and nothing is on the channel that the senders have not reached.
   */
  ghost predicate PutInvariant(data: seq<byte>, w: PutWorld) {
    && ServerHolds(data, w.server) && ClientHolds(data, w.client)
    && (w.client.Sending? ==>
          SentBlocks(data, w.client) - 1 <= TakenBlocks(data, w.server) <= SentBlocks(data, w.client))
    && (w.client.PutDone? ==> TakenBlocks(data, w.server) == Blocks(data))
    && TakenBlocks(data, w.server) <= SentBlocks(data, w.client)
    && DataUpTo(data, w.up, SentBlocks(data, w.client))
    && AcksUpTo(w.down, TakenBlocks(data, w.server))
  }

  lemma PutStartHolds(data: seq<byte>)
    ensures PutInvariant(data, PUT_START)
  {
    PrefixGrows(data, 0);
  }

  lemma ClientKeeps(data: seq<byte>, retries: nat, w: PutWorld, e: Event)
    requires Numbered(data) && PutInvariant(data, w) && PutEnabled(w, ClientMoves(e))
    ensures PutInBounds(data, w) && PutInvariant(data, PutNext(data, retries, w, ClientMoves(e)))
  {
    hide Chunk, Prefix, AcksUpTo, ServerHolds;
    var next := PutNext(data, retries, w, ClientMoves(e));
    if e.Recv? {
      AckIsTaken(w.down, TakenBlocks(data, w.server), e.packet);
    }
    match w.client {
      case Waiting =>
        PrefixGrows(data, 0);
      case Sending(block, offset, _) =>
        PrefixGrows(data, block - 1);
        if next.client.Sending? && next.client.block != block {
          PrefixGrows(data, block);
        }
      case _ =>
    }
  }

  lemma AckIsTaken(sent: set<Packet>, k: nat, p: Packet)
    requires AcksUpTo(sent, k) && p in sent
    ensures p.Ack? && p.block <= k
  {
  }

  lemma DataIsSent(data: seq<byte>, sent: set<Packet>, k: nat, p: Packet)
    requires DataUpTo(data, sent, k) && p in sent
    ensures p.Data? && 1 <= p.block <= k && p.block <= Blocks(data) && p.payload == Payload(data, p.block)
  {
  }

  lemma ServerKeeps(data: seq<byte>, retries: nat, w: PutWorld, e: Event)
    requires Numbered(data) && PutInvariant(data, w) && PutEnabled(w, ServerMoves(e))
    ensures PutInBounds(data, w) && PutInvariant(data, PutNext(data, retries, w, ServerMoves(e)))
  {
    hide Chunk, Prefix, DataUpTo, Payload;
    if e.Recv? {
      DataIsSent(data, w.up, SentBlocks(data, w.client), e.packet);
    }
    match w.server {
      case Receiving(block, acc, _) =>
        PrefixGrows(data, block - 1);
      case _ =>
    }
  }

  /** The invariant at the end of every run, whatever the channel does. */
  lemma {:induction false} PutRunKeeps(data: seq<byte>, retries: nat, w: PutWorld, moves: seq<Move>)
    requires Numbered(data) && PutInvariant(data, w) && PutRuns(data, retries, w, moves)
    ensures PutInvariant(data, PutEnd(data, retries, w, moves))
    decreases |moves|
  {
    hide PutNext, PutInvariant, PutEnabled, Numbered;
    if moves != [] {
      match moves[0] {
        case ClientMoves(e) => ClientKeeps(data, retries, w, e);
        case ServerMoves(e) => ServerKeeps(data, retries, w, e);
      }
      PutRunKeeps(data, retries, PutNext(data, retries, w, moves[0]), moves[1..]);
    }
  }

  /** What every run of an upload promises: no nil before the server has it all, nothing but the data is stored. */
  ghost predicate PutIsExact(data: seq<byte>, w: PutWorld) {
    && (w.client.PutDone? ==> w.server == Stored(data))
    && (w.server.Stored? ==> w.server.acc == data)
  }

  lemma InvariantIsExact(data: seq<byte>, w: PutWorld)
    requires Numbered(data) && PutInvariant(data, w)
    ensures PutIsExact(data, w)
  {
    hide DataUpTo, AcksUpTo, Prefix;
  }

  // ---------------------------------------------------------------------
  // Uploads whose block numbers repeat
  // ---------------------------------------------------------------------

  ghost predicate PutReached(data: seq<byte>, retries: nat, w: PutWorld) {
    exists moves :: PutRuns(data, retries, PUT_START, moves) && PutEnd(data, retries, PUT_START, moves) == w
  }

  lemma {:induction false} RunLonger(data: seq<byte>, retries: nat, w: PutWorld, moves: seq<Move>, m: Move)
    requires PutRuns(data, retries, w, moves)
    requires var end := PutEnd(data, retries, w, moves);
             PutEnabled(end, m) && PutInBounds(data, end) && PutInBounds(data, PutNext(data, retries, end, m))
    ensures PutRuns(data, retries, w, moves + [m])
    ensures PutEnd(data, retries, w, moves + [m]) == PutNext(data, retries, PutEnd(data, retries, w, moves), m)
    decreases |moves|
  {
    hide PutNext, PutEnabled, PutInBounds;
    if moves == [] {
      assert [] + [m] == [m] && [m][1..] == [];
    } else {
      assert (moves + [m])[0] == moves[0] && (moves + [m])[1..] == moves[1..] + [m];
      RunLonger(data, retries, PutNext(data, retries, w, moves[0]), moves[1..], m);
    }
  }

  lemma ReachedNext(data: seq<byte>, retries: nat, w: PutWorld, m: Move)
    requires PutReached(data, retries, w) && PutEnabled(w, m) && PutInBounds(data, w)
    requires PutInBounds(data, PutNext(data, retries, w, m))
    ensures PutReached(data, retries, PutNext(data, retries, w, m))
  {
    hide PutNext, PutEnabled, PutInBounds, PutRuns, PutEnd;
    var moves :| PutRuns(data, retries, PUT_START, moves) && PutEnd(data, retries, PUT_START, moves) == w;
    RunLonger(data, retries, PUT_START, moves, m);
  }

  lemma StartReached(data: seq<byte>, retries: nat)
    ensures PutReached(data, retries, PUT_START)
  {
    assert PutRuns(data, retries, PUT_START, []) && PutEnd(data, retries, PUT_START, []) == PUT_START;
  }

  /** The number of block i on the wire. */
  function BlockNumber(i: nat): u16 {
    i % 0x1_0000
  }

  lemma NextBlockNumber(i: nat)
    ensures Inc(BlockNumber(i)) == BlockNumber(i + 1)
  {
  }

  /** Both ends are at block k + 1, and every acknowledgement so far was sent. */
  ghost predicate InStep(data: seq<byte>, w: PutWorld, k: nat)
    requires k < Blocks(data)
  {
    && w.client == Sending(BlockNumber(k + 1), BLOCK_SIZE * k, 0)
    && w.server == Receiving(BlockNumber(k + 1), Prefix(data, k), 0)
    && Data(BlockNumber(k + 1), Payload(data, k + 1)) in w.up
    && forall j: u16 :: j <= k ==> Ack(j) in w.down
  }

  lemma {:induction false} Lockstep(data: seq<byte>, retries: nat, k: nat) returns (w: PutWorld)
    requires k <= 0xffff && k < Blocks(data)
    ensures PutReached(data, retries, w) && InStep(data, w, k)
  {
    hide PutReached, Chunk, Prefix;
    if k == 0 {
      StartReached(data, retries);
      PrefixGrows(data, 0);
      w := PutNext(data, retries, PUT_START, ClientMoves(Recv(Ack(0))));
      ReachedNext(data, retries, PUT_START, ClientMoves(Recv(Ack(0))));
    } else {
      var v := Lockstep(data, retries, k - 1);
      w := OneBlock(data, retries, v, k);
    }
  }

  /** The server takes block k and acknowledges it, and the client goes on to the next. */
  lemma OneBlock(data: seq<byte>, retries: nat, v: PutWorld, k: nat) returns (w: PutWorld)
    requires 1 <= k <= 0xffff && k < Blocks(data)
    requires PutReached(data, retries, v) && InStep(data, v, k - 1)
    ensures PutReached(data, retries, w) && InStep(data, w, k)
  {
    hide PutReached, Chunk, Prefix;
    PrefixGrows(data, k - 1);
    NextBlockNumber(k);
    var take := ServerMoves(Recv(Data(BlockNumber(k), Payload(data, k))));
    var u := PutNext(data, retries, v, take);
    ReachedNext(data, retries, v, take);
    var go := ClientMoves(Recv(Ack(BlockNumber(k))));
    assert Ack(BlockNumber(k)) in u.down;
    w := PutNext(data, retries, u, go);
    ReachedNext(data, retries, u, go);
    assert Data(BlockNumber(k + 1), Payload(data, k + 1)) in SetOf([Data(BlockNumber(k + 1), Payload(data, k + 1))]);
  }

  /** With every number acknowledged once, stale acknowledgements carry the client to its end. */
  lemma {:induction false} ClientRunsAhead(data: seq<byte>, retries: nat, v: PutWorld) returns (w: PutWorld)
    requires PutReached(data, retries, v) && v.client.Sending? && v.client.offset <= |data|
    requires forall j: u16 :: Ack(j) in v.down
    ensures PutReached(data, retries, w) && w.client == PutDone && w.server == v.server
    decreases |data| - v.client.offset
  {
    hide PutReached;
    var m := ClientMoves(Recv(Ack(v.client.block)));
    var u := PutNext(data, retries, v, m);
    ReachedNext(data, retries, v, m);
    if u.client.PutDone? {
      w := u;
    } else {
      w := ClientRunsAhead(data, retries, u);
    }
  }

  /** A file of 65535 full blocks or more: the client can finish while the server still waits. */
  lemma StaleAcksEndPut(data: seq<byte>, retries: nat) returns (w: PutWorld)
    requires !Numbered(data)
    ensures PutReached(data, retries, w) && w.client == PutDone && w.server.Receiving? && !PutIsExact(data, w)
  {
    hide PutReached, Chunk, Prefix;
    var v := Lockstep(data, retries, 0xffff);
    w := ClientRunsAhead(data, retries, v);
  }

  /** Uploads are exact on every run exactly when the file has fewer than 65535 full blocks. */
  lemma PutIsExactIff(data: seq<byte>, retries: nat)
    ensures (forall moves :: PutRuns(data, retries, PUT_START, moves) ==>
                               PutIsExact(data, PutEnd(data, retries, PUT_START, moves)))
       <==> Numbered(data)
  {
    hide PutRuns, PutEnd, PutIsExact, PutInvariant, Numbered;
    if Numbered(data) {
      forall moves | PutRuns(data, retries, PUT_START, moves)
        ensures PutIsExact(data, PutEnd(data, retries, PUT_START, moves))
      {
        PutStartHolds(data);
        PutRunKeeps(data, retries, PUT_START, moves);
        InvariantIsExact(data, PutEnd(data, retries, PUT_START, moves));
      }
    } else {
      var w := StaleAcksEndPut(data, retries);
      var moves :| PutRuns(data, retries, PUT_START, moves) && PutEnd(data, retries, PUT_START, moves) == w;
      assert !PutIsExact(data, PutEnd(data, retries, PUT_START, moves));
    }
  }

  // ---------------------------------------------------------------------
  // The two loops in a run
  // ---------------------------------------------------------------------

  /** What one end's socket yields in a run. */
  function ClientEvents(moves: seq<Move>): seq<Event> {
    if moves == [] then []
    else ClientEvents(moves[..|moves| - 1])
         + match moves[|moves| - 1]
           case ClientMoves(e) => [e]
           case ServerMoves(_) => []
  }

  function ServerEvents(moves: seq<Move>): seq<Event> {
    if moves == [] then []
    else ServerEvents(moves[..|moves| - 1])
         + match moves[|moves| - 1]
           case ClientMoves(_) => []
           case ServerMoves(e) => [e]
  }

  /** A run without its last move is a run, and the last move leads from its end. */
  lemma {:induction false} RunShorter(data: seq<byte>, retries: nat, w: PutWorld, moves: seq<Move>)
    requires PutRuns(data, retries, w, moves) && moves != []
    ensures var front, last := moves[..|moves| - 1], moves[|moves| - 1];
            && PutRuns(data, retries, w, front) && PutInBounds(data, PutEnd(data, retries, w, front))
            && PutEnabled(PutEnd(data, retries, w, front), last)
            && PutEnd(data, retries, w, moves) == PutNext(data, retries, PutEnd(data, retries, w, front), last)
    decreases |moves|
  {
    hide PutNext, PutEnabled, PutInBounds;
    if |moves| > 1 {
      var rest := moves[1..];
      RunShorter(data, retries, PutNext(data, retries, w, moves[0]), rest);
      assert moves[..|moves| - 1][1..] == rest[..|rest| - 1] && rest[|rest| - 1] == moves[|moves| - 1];
    } else {
      assert moves[1..] == [];
    }
  }

  /** A run of a loop does not depend on what its socket yields later. */
  lemma {:induction false} ServerRunOfFront(retries: nat, a: seq<Event>, b: seq<Event>, n: nat)
    requires n <= |a|
    ensures PutServerRun(retries, a + b, n) == PutServerRun(retries, a, n)
  {
    hide PutServerStep;
    if n > 0 {
      ServerRunOfFront(retries, a, b, n - 1);
    }
  }

  lemma {:induction false} ClientRunOfFront(data: seq<byte>, retries: nat, a: seq<Event>, b: seq<Event>, n: nat)
    requires n <= |a|
    ensures PutClientRun(data, retries, a + b, n) == PutClientRun(data, retries, a, n)
  {
    hide PutClientStep;
    if n > 0 {
      ClientRunOfFront(data, retries, a, b, n - 1);
    }
  }

  lemma SetOfConcat(a: seq<Packet>, b: seq<Packet>)
    ensures SetOf(a + b) == SetOf(a) + SetOf(b)
  {
  }

  /**
   In every run each end is where its own loop is after the events its socket yielded, and
   what was ever sent is what the two loops sent.
   */
  lemma {:induction false} PutRunIsTwoLoops(data: seq<byte>, retries: nat, moves: seq<Move>)
    requires PutRuns(data, retries, PUT_START, moves)
    ensures var w := PutEnd(data, retries, PUT_START, moves);
            var c, s := ClientEvents(moves), ServerEvents(moves);
            && w.client == PutClientRun(data, retries, c, |c|).next
            && w.up == SetOf(PutClientRun(data, retries, c, |c|).out)
            && w.server == PutServerRun(retries, s, |s|).next && w.down == SetOf(PutServerRun(retries, s, |s|).out)
  {
    hide PutRuns, PutEnd, PutClientStep, PutServerStep, PutEnabled;
    if moves == [] {
      NoMoves(data, retries);
    } else {
      var front, last := moves[..|moves| - 1], moves[|moves| - 1];
      RunShorter(data, retries, PUT_START, moves);
      PutRunIsTwoLoops(data, retries, front);
      var c, s := ClientEvents(front), ServerEvents(front);
      match last {
        case ClientMoves(e) =>
          ClientRunOfFront(data, retries, c, [e], |c|);
          assert At(c + [e], |c|) == e;
          SetOfConcat(PutClientRun(data, retries, c, |c|).out,
                      PutClientStep(data, retries, PutClientRun(data, retries, c, |c|).next, e).out);
          assert s + [] == s;
        case ServerMoves(e) =>
          ServerRunOfFront(retries, s, [e], |s|);
          assert At(s + [e], |s|) == e;
          SetOfConcat(PutServerRun(retries, s, |s|).out,
                      PutServerStep(retries, PutServerRun(retries, s, |s|).next, e).out);
          assert c + [] == c;
      }
    }
  }

  lemma NoMoves(data: seq<byte>, retries: nat)
    ensures PutEnd(data, retries, PUT_START, []) == PUT_START
    ensures SetOf(PutServerRun(retries, [], 0).out) == {Ack(0)} && SetOf(PutClientRun(data, retries, [], 0).out) == {}
  {
  }
}
