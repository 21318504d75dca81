/** Downloads over the same channel: exact, as long as no two blocks of the file have one number. */
module TftpGet {
  import opened Bits
  import opened Tftp
  import opened TftpSafety

  datatype GetWorld = GetWorld(client: GetClient, server: GetServer, up: set<Packet>, down: set<Packet>)

  predicate GetEnabled(w: GetWorld, m: Move) {
    match m
    case ClientMoves(e) => e.Recv? ==> e.packet in w.down
    case ServerMoves(e) => e.Recv? ==> e.packet in w.up
  }

  predicate GetInBounds(data: seq<byte>, w: GetWorld) {
    w.server.Serving? ==> w.server.offset <= |data|
  }

  function GetNext(data: seq<byte>, retries: nat, w: GetWorld, m: Move): GetWorld
    requires GetInBounds(data, w)
  {
    match m
    case ClientMoves(e) =>
      var move := GetClientStep(w.client, e);
      w.(client := move.next, up := w.up + SetOf(move.sent))
    case ServerMoves(e) =>
      var move := GetServerStep(data, retries, w.server, e);
      w.(server := move.next, down := w.down + SetOf(move.out))
  }

  /** The session has taken the request: its first block is on the way. */
  function GetStart(data: seq<byte>): GetWorld {
    GetWorld(Fetching(1, []), Serving(1, 0, 0), {}, {Data(1, Chunk(data, 0))})
  }

  predicate GetRuns(data: seq<byte>, retries: nat, w: GetWorld, moves: seq<Move>)
    decreases |moves|
  {
    GetInBounds(data, w)
    && (moves != [] ==>
          GetEnabled(w, moves[0]) && GetRuns(data, retries, GetNext(data, retries, w, moves[0]), moves[1..]))
  }

  function GetEnd(data: seq<byte>, retries: nat, w: GetWorld, moves: seq<Move>): GetWorld
    requires GetRuns(data, retries, w, moves)
    decreases |moves|
  {
    if moves == [] then w else GetEnd(data, retries, GetNext(data, retries, w, moves[0]), moves[1..])
  }

  // ---------------------------------------------------------------------
  // Safety
  // ---------------------------------------------------------------------

  /** No two blocks of the file have one number. */
  predicate Distinguished(data: seq<byte>) {
    |data| / BLOCK_SIZE < 0x1_0000
  }

  /** The block a number stands for, when each stands for one. */
  function BlockIndex(number: u16): nat {
    if number == 0 then 0x1_0000 else number
  }

  lemma IndexOfNumber(i: nat)
    requires 1 <= i <= 0x1_0000
    ensures BlockIndex(BlockNumber(i)) == i
  {
  }

  lemma NumberOfIndex(number: u16)
    ensures BlockNumber(BlockIndex(number)) == number && 1 <= BlockIndex(number) <= 0x1_0000
    ensures number != 0 ==> BlockIndex(Inc(number)) == BlockIndex(number) + 1
  {
  }

  /** Blocks the server has sent. */
  function ServedBlocks(data: seq<byte>, s: GetServer): nat {
    match s
    case Serving(_, offset, _) => offset / BLOCK_SIZE + 1
    case Served => Blocks(data)
    case GaveUp(sent) => sent
  }

  /** Blocks the client has taken. */
  function FetchedBlocks(data: seq<byte>, c: GetClient): nat {
    match c
    case Fetching(block, _) => BlockIndex(block) - 1
    case Fetched(_) => Blocks(data)
    case GetFailed(block, _) => BlockIndex(block) - 1
  }

  predicate GetServerHolds(data: seq<byte>, s: GetServer) {
    match s
    case Serving(block, offset, _) =>
      1 <= BlockIndex(block) <= Blocks(data) && offset == BLOCK_SIZE * (BlockIndex(block) - 1) && offset <= |data|
    case GaveUp(sent) => sent <= Blocks(data)
    case Served => true
  }

  predicate GetClientHolds(data: seq<byte>, c: GetClient) {
    match c
    case Fetching(block, out) => BlockIndex(block) <= Blocks(data) && out == Prefix(data, BlockIndex(block) - 1)
    case Fetched(out) => out == data
    case GetFailed(block, out) => BlockIndex(block) <= Blocks(data) && out == Prefix(data, BlockIndex(block) - 1)
  }

  ghost predicate BlocksUpTo(data: seq<byte>, sent: set<Packet>, k: nat) {
    forall p :: p in sent ==>
      p.Data? && BlockIndex(p.block) <= k && BlockIndex(p.block) <= Blocks(data)
      && p.payload == Payload(data, BlockIndex(p.block))
  }

  ghost predicate TakenUpTo(sent: set<Packet>, k: nat) {
    forall p :: p in sent ==> p.Ack? && BlockIndex(p.block) <= k
  }

  ghost predicate GetInvariant(data: seq<byte>, w: GetWorld) {
    && GetServerHolds(data, w.server) && GetClientHolds(data, w.client)
    && (w.server.Serving? ==> ServedBlocks(data, w.server) - 1 <= FetchedBlocks(data, w.client))
    && (w.server.Served? ==> FetchedBlocks(data, w.client) == Blocks(data))
    && FetchedBlocks(data, w.client) <= ServedBlocks(data, w.server)
    && (w.client.Fetching? ==> ServedBlocks(data, w.server) <= FetchedBlocks(data, w.client) + 1)
    && BlocksUpTo(data, w.down, ServedBlocks(data, w.server))
    && TakenUpTo(w.up, FetchedBlocks(data, w.client))
  }

  lemma GetStartHolds(data: seq<byte>)
    ensures GetInvariant(data, GetStart(data))
  {
    PrefixGrows(data, 0);
    hide Chunk, Prefix;
  }

  lemma BlockIsSent(data: seq<byte>, sent: set<Packet>, k: nat, p: Packet)
    requires BlocksUpTo(data, sent, k) && p in sent
    ensures p.Data? && BlockIndex(p.block) <= k && BlockIndex(p.block) <= Blocks(data)
    ensures 1 <= BlockIndex(p.block) && p.payload == Payload(data, BlockIndex(p.block))
  {
  }

  lemma BlockIsTaken(sent: set<Packet>, k: nat, p: Packet)
    requires TakenUpTo(sent, k) && p in sent
    ensures p.Ack? && BlockIndex(p.block) <= k
  {
  }

  lemma GetClientKeeps(data: seq<byte>, retries: nat, w: GetWorld, e: Event)
    requires Distinguished(data) && GetInvariant(data, w) && GetEnabled(w, ClientMoves(e))
    ensures GetInBounds(data, w) && GetInvariant(data, GetNext(data, retries, w, ClientMoves(e)))
  {
    hide Chunk, Prefix, BlocksUpTo, Payload;
    if e.Recv? {
      BlockIsSent(data, w.down, ServedBlocks(data, w.server), e.packet);
    }
    match w.client {
      case Fetching(block, out) =>
        PrefixGrows(data, BlockIndex(block) - 1);
        NumberOfIndex(block);
      case _ =>
    }
  }

  lemma GetServerKeeps(data: seq<byte>, retries: nat, w: GetWorld, e: Event)
    requires Distinguished(data) && GetInvariant(data, w) && GetEnabled(w, ServerMoves(e))
    ensures GetInBounds(data, w) && GetInvariant(data, GetNext(data, retries, w, ServerMoves(e)))
  {
    hide Chunk, Prefix, TakenUpTo, GetClientHolds;
    var next := GetNext(data, retries, w, ServerMoves(e));
    if e.Recv? {
      BlockIsTaken(w.up, FetchedBlocks(data, w.client), e.packet);
    }
    FetchedBound(data, w.client);
    match w.server {
      case Serving(block, offset, _) =>
        PrefixGrows(data, BlockIndex(block) - 1);
        NumberOfIndex(block);
        if next.server.Serving? && next.server.block != block {
          PrefixGrows(data, BlockIndex(block));
        }
      case _ =>
    }
  }

  lemma FetchedBound(data: seq<byte>, c: GetClient)
    requires GetClientHolds(data, c)
    ensures FetchedBlocks(data, c) <= Blocks(data)
  {
    hide Prefix;
  }

  lemma {:induction false} GetRunKeeps(data: seq<byte>, retries: nat, w: GetWorld, moves: seq<Move>)
    requires Distinguished(data) && GetInvariant(data, w) && GetRuns(data, retries, w, moves)
    ensures GetInvariant(data, GetEnd(data, retries, w, moves))
    decreases |moves|
  {
    hide GetNext, GetInvariant, GetEnabled, Distinguished;
    if moves != [] {
      match moves[0] {
        case ClientMoves(e) => GetClientKeeps(data, retries, w, e);
        case ServerMoves(e) => GetServerKeeps(data, retries, w, e);
      }
      GetRunKeeps(data, retries, GetNext(data, retries, w, moves[0]), moves[1..]);
    }
  }

  /** What every run of a download promises: the bytes as served, and no completed transfer the client does not have. */
  ghost predicate GetIsExact(data: seq<byte>, w: GetWorld) {
    && (w.client.Fetched? ==> w.client.out == data)
    && (w.server.Served? ==> w.client == Fetched(data))
  }

  lemma GetInvariantIsExact(data: seq<byte>, w: GetWorld)
    requires Distinguished(data) && GetInvariant(data, w)
    ensures GetIsExact(data, w)
  {
    hide BlocksUpTo, TakenUpTo, Prefix;
  }

  // ---------------------------------------------------------------------
  // Downloads whose block numbers repeat
  // ---------------------------------------------------------------------

  ghost predicate GetReached(data: seq<byte>, retries: nat, w: GetWorld) {
    exists moves :: GetRuns(data, retries, GetStart(data), moves) && GetEnd(data, retries, GetStart(data), moves) == w
  }

  lemma {:induction false} GetRunLonger(data: seq<byte>, retries: nat, w: GetWorld, moves: seq<Move>, m: Move)
    requires GetRuns(data, retries, w, moves)
    requires var end := GetEnd(data, retries, w, moves);
             GetEnabled(end, m) && GetInBounds(data, end) && GetInBounds(data, GetNext(data, retries, end, m))
    ensures GetRuns(data, retries, w, moves + [m])
    ensures GetEnd(data, retries, w, moves + [m]) == GetNext(data, retries, GetEnd(data, retries, w, moves), m)
    decreases |moves|
  {
    hide GetNext, GetEnabled, GetInBounds;
    if moves == [] {
      assert [] + [m] == [m] && [m][1..] == [];
    } else {
      assert (moves + [m])[0] == moves[0] && (moves + [m])[1..] == moves[1..] + [m];
      GetRunLonger(data, retries, GetNext(data, retries, w, moves[0]), moves[1..], m);
    }
  }

  lemma GetReachedNext(data: seq<byte>, retries: nat, w: GetWorld, m: Move)
    requires GetReached(data, retries, w) && GetEnabled(w, m) && GetInBounds(data, w)
    requires GetInBounds(data, GetNext(data, retries, w, m))
    ensures GetReached(data, retries, GetNext(data, retries, w, m))
  {
    hide GetNext, GetEnabled, GetInBounds, GetRuns, GetEnd, GetStart;
    var moves :| GetRuns(data, retries, GetStart(data), moves) && GetEnd(data, retries, GetStart(data), moves) == w;
    GetRunLonger(data, retries, GetStart(data), moves, m);
  }

  lemma GetStartReached(data: seq<byte>, retries: nat)
    ensures GetReached(data, retries, GetStart(data))
  {
    hide Chunk;
    assert GetRuns(data, retries, GetStart(data), []) && GetEnd(data, retries, GetStart(data), []) == GetStart(data);
  }

  /** Both ends are at block k + 1, and every block before it was acknowledged. */
  ghost predicate GetInStep(data: seq<byte>, w: GetWorld, k: nat)
    requires k < Blocks(data)
  {
    && w.server == Serving(BlockNumber(k + 1), BLOCK_SIZE * k, 0)
    && w.client == Fetching(BlockNumber(k + 1), Prefix(data, k))
    && Data(BlockNumber(k + 1), Payload(data, k + 1)) in w.down
    && forall j: u16 :: 1 <= BlockIndex(j) <= k ==> Ack(j) in w.up
  }

  lemma {:induction false} GetLockstep(data: seq<byte>, retries: nat, k: nat) returns (w: GetWorld)
    requires k <= 0x1_0000 && k < Blocks(data)
    ensures GetReached(data, retries, w) && GetInStep(data, w, k)
  {
    hide GetReached, Chunk, Prefix;
    if k == 0 {
      GetStartReached(data, retries);
      PrefixGrows(data, 0);
      w := GetStart(data);
    } else {
      var v := GetLockstep(data, retries, k - 1);
      w := GetOneBlock(data, retries, v, k);
    }
  }

  lemma GetOneBlock(data: seq<byte>, retries: nat, v: GetWorld, k: nat) returns (w: GetWorld)
    requires 1 <= k <= 0x1_0000 && k < Blocks(data)
    requires GetReached(data, retries, v) && GetInStep(data, v, k - 1)
    ensures GetReached(data, retries, w) && GetInStep(data, w, k)
  {
    hide GetReached, Chunk, Prefix;
    PrefixGrows(data, k - 1);
    NextBlockNumber(k);
    IndexOfNumber(k);
    var take := ClientMoves(Recv(Data(BlockNumber(k), Payload(data, k))));
    var u := GetNext(data, retries, v, take);
    GetReachedNext(data, retries, v, take);
    var go := ServerMoves(Recv(Ack(BlockNumber(k))));
    assert Ack(BlockNumber(k)) in SetOf([Ack(BlockNumber(k))]);
    assert Ack(BlockNumber(k)) in u.up;
    w := GetNext(data, retries, u, go);
    GetReachedNext(data, retries, u, go);
    assert Data(BlockNumber(k + 1), Payload(data, k + 1)) in SetOf([Data(BlockNumber(k + 1), Payload(data, k + 1))]);
    forall j: u16 | 1 <= BlockIndex(j) <= k
      ensures Ack(j) in w.up
    {
      NumberOfIndex(j);
    }
  }

  lemma {:induction false} ServerRunsAhead(data: seq<byte>, retries: nat, v: GetWorld) returns (w: GetWorld)
    requires GetReached(data, retries, v) && v.server.Serving? && v.server.offset <= |data|
    requires forall j: u16 :: Ack(j) in v.up
    ensures GetReached(data, retries, w) && w.server == Served && w.client == v.client
    decreases |data| - v.server.offset
  {
    hide GetReached;
    var m := ServerMoves(Recv(Ack(v.server.block)));
    var u := GetNext(data, retries, v, m);
    GetReachedNext(data, retries, v, m);
    if u.server.Served? {
      w := u;
    } else {
      w := ServerRunsAhead(data, retries, u);
    }
  }

  /** A file of 65536 full blocks or more: the server can report the transfer complete while the client still waits. */
  lemma StaleAcksEndGet(data: seq<byte>, retries: nat) returns (w: GetWorld)
    requires !Distinguished(data)
    ensures GetReached(data, retries, w) && w.server == Served && w.client.Fetching? && !GetIsExact(data, w)
  {
    hide GetReached, Chunk, Prefix;
    var v := GetLockstep(data, retries, 0x1_0000);
    forall j: u16
      ensures Ack(j) in v.up
    {
      NumberOfIndex(j);
    }
    w := ServerRunsAhead(data, retries, v);
  }

  /** Downloads are exact on every run exactly when the file has fewer than 65536 full blocks. */
  lemma GetIsExactIff(data: seq<byte>, retries: nat)
    ensures (forall moves :: GetRuns(data, retries, GetStart(data), moves) ==>
                               GetIsExact(data, GetEnd(data, retries, GetStart(data), moves)))
       <==> Distinguished(data)
  {
    hide GetRuns, GetEnd, GetIsExact, GetInvariant, Distinguished, GetStart;
    if Distinguished(data) {
      forall moves | GetRuns(data, retries, GetStart(data), moves)
        ensures GetIsExact(data, GetEnd(data, retries, GetStart(data), moves))
      {
        GetStartHolds(data);
        GetRunKeeps(data, retries, GetStart(data), moves);
        GetInvariantIsExact(data, GetEnd(data, retries, GetStart(data), moves));
      }
    } else {
      var w := StaleAcksEndGet(data, retries);
      var moves :| GetRuns(data, retries, GetStart(data), moves) && GetEnd(data, retries, GetStart(data), moves) == w;
      assert !GetIsExact(data, GetEnd(data, retries, GetStart(data), moves));
    }
  }

  // ---------------------------------------------------------------------
  // The two loops in a run
  // ---------------------------------------------------------------------

  lemma {:induction false} GetRunShorter(data: seq<byte>, retries: nat, w: GetWorld, moves: seq<Move>)
    requires GetRuns(data, retries, w, moves) && moves != []
    ensures var front, last := moves[..|moves| - 1], moves[|moves| - 1];
            && GetRuns(data, retries, w, front) && GetInBounds(data, GetEnd(data, retries, w, front))
            && GetEnabled(GetEnd(data, retries, w, front), last)
            && GetEnd(data, retries, w, moves) == GetNext(data, retries, GetEnd(data, retries, w, front), last)
    decreases |moves|
  {
    hide GetNext, GetEnabled, GetInBounds;
    if |moves| > 1 {
      var rest := moves[1..];
      GetRunShorter(data, retries, GetNext(data, retries, w, moves[0]), rest);
      assert moves[..|moves| - 1][1..] == rest[..|rest| - 1] && rest[|rest| - 1] == moves[|moves| - 1];
    } else {
      assert moves[1..] == [];
    }
  }

  lemma {:induction false} GetServerOfFront(data: seq<byte>, retries: nat, a: seq<Event>, b: seq<Event>, n: nat)
    requires n <= |a|
    ensures GetServerRun(data, retries, a + b, n) == GetServerRun(data, retries, a, n)
  {
    hide GetServerStep, Chunk;
    if n > 0 {
      GetServerOfFront(data, retries, a, b, n - 1);
    }
  }

  lemma {:induction false} GetClientOfFront(a: seq<Event>, b: seq<Event>, n: nat)
    requires n <= |a|
    ensures GetClientRun(a + b, n) == GetClientRun(a, n)
  {
    hide GetClientStep;
    if n > 0 {
      GetClientOfFront(a, b, n - 1);
    }
  }

  /** The same for downloads: a run is one run of each loop, over the events its socket yielded. */
  lemma {:induction false} GetRunIsTwoLoops(data: seq<byte>, retries: nat, moves: seq<Move>)
    requires GetRuns(data, retries, GetStart(data), moves)
    ensures var w := GetEnd(data, retries, GetStart(data), moves);
            var c, s := ClientEvents(moves), ServerEvents(moves);
            && w.client == GetClientRun(c, |c|).next && w.up == SetOf(GetClientRun(c, |c|).sent)
            && w.server == GetServerRun(data, retries, s, |s|).next
            && w.down == SetOf(GetServerRun(data, retries, s, |s|).out)
  {
    hide GetRuns, GetEnd, GetClientStep, GetServerStep, GetEnabled, GetStart, Chunk;
    if moves == [] {
      NoGetMoves(data, retries);
    } else {
      var front, last := moves[..|moves| - 1], moves[|moves| - 1];
      GetRunShorter(data, retries, GetStart(data), moves);
      GetRunIsTwoLoops(data, retries, front);
      var c, s := ClientEvents(front), ServerEvents(front);
      match last {
        case ClientMoves(e) =>
          GetClientOfFront(c, [e], |c|);
          assert At(c + [e], |c|) == e;
          SetOfConcat(GetClientRun(c, |c|).sent, GetClientStep(GetClientRun(c, |c|).next, e).sent);
          assert s + [] == s;
        case ServerMoves(e) =>
          GetServerOfFront(data, retries, s, [e], |s|);
          assert At(s + [e], |s|) == e;
          SetOfConcat(GetServerRun(data, retries, s, |s|).out,
                      GetServerStep(data, retries, GetServerRun(data, retries, s, |s|).next, e).out);
          assert c + [] == c;
      }
    }
  }

  lemma NoGetMoves(data: seq<byte>, retries: nat)
    ensures GetEnd(data, retries, GetStart(data), []) == GetStart(data)
    ensures SetOf(GetServerRun(data, retries, [], 0).out) == {Data(1, Chunk(data, 0))}
            && SetOf(GetClientRun([], 0).sent) == {}
    ensures GetStart(data) == GetWorld(Fetching(1, []), Serving(1, 0, 0), {}, {Data(1, Chunk(data, 0))})
  {
    hide Chunk;
  }
}
