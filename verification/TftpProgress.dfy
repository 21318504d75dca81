/**
 What the four loops send, window by window, and that transfers end: every window of a
 sender is preceded by a copy of its current block, and when each block and its
 acknowledgement get through before the retries are used up, both ends finish.
 */
module TftpProgress {
  import opened Bits
  import opened Tftp
  import opened TftpSafety

  // ---------------------------------------------------------------------
  // One packet for each window
  // ---------------------------------------------------------------------

  /** Before each window of an upload the client sends the block it is at, once more each time. */
  lemma {:induction false} PutWindows(data: seq<byte>, retries: nat, events: seq<Event>, n: nat)
    requires n >= 1 && PutClientRun(data, retries, events, n).next.Sending?
    ensures var m := PutClientRun(data, retries, events, n);
            && |m.out| == n && m.out[n - 1] == Data(m.next.block, Chunk(data, m.next.offset))
            && m.next.offset % BLOCK_SIZE == 0 && m.next.block == BlockNumber(m.next.offset / BLOCK_SIZE + 1)
            && (n > 1 ==>
                  var before := PutClientRun(data, retries, events, n - 1);
                  before.next.Sending? && m.out[..n - 1] == before.out)
  {
    hide Chunk, PutClientRun;
    PutClientRunStep(data, retries, events, n - 1);
    if n > 1 {
      NoLongerWaits(data, retries, events, n - 1);
      WindowStep(data, retries, PutClientRun(data, retries, events, n - 1).next, At(events, n - 1));
      PutWindows(data, retries, events, n - 1);
    }
  }

  lemma {:induction false} NoLongerWaits(data: seq<byte>, retries: nat, events: seq<Event>, n: nat)
    requires n >= 1
    ensures !PutClientRun(data, retries, events, n).next.Waiting?
  {
    hide Chunk, PutClientRun;
    PutClientRunStep(data, retries, events, n - 1);
    if n > 1 {
      NoLongerWaits(data, retries, events, n - 1);
    }
  }

  /** While a sender goes on it sends exactly its current block, under that block's number. */
  lemma WindowStep(data: seq<byte>, retries: nat, s: PutClient, e: Event)
    requires (s.Sending? ==> s.offset <= |data|) && PutClientStep(data, retries, s, e).next.Sending?
    ensures var m := PutClientStep(data, retries, s, e);
            && m.out == [Data(m.next.block, Chunk(data, m.next.offset))]
            && (s.Sending? && s.offset % BLOCK_SIZE == 0 && s.block == BlockNumber(s.offset / BLOCK_SIZE + 1) ==>
                  m.next.offset % BLOCK_SIZE == 0 && m.next.block == BlockNumber(m.next.offset / BLOCK_SIZE + 1))
            && (s.Sending? || m.next == Sending(1, 0, 0))
  {
    if s.Sending? {
      NextBlockNumber(s.offset / BLOCK_SIZE + 1);
      assert (s.offset + BLOCK_SIZE) / BLOCK_SIZE == s.offset / BLOCK_SIZE + 1;
    }
    hide Chunk;
  }

  /** And before each window of a download the server does. */
  lemma {:induction false} GetWindows(data: seq<byte>, retries: nat, events: seq<Event>, n: nat)
    requires GetServerRun(data, retries, events, n).next.Serving?
    ensures var m := GetServerRun(data, retries, events, n);
            && |m.out| == n + 1 && m.out[n] == Data(m.next.block, Chunk(data, m.next.offset))
            && m.next.offset % BLOCK_SIZE == 0 && m.next.block == BlockNumber(m.next.offset / BLOCK_SIZE + 1)
            && (n > 0 ==>
                  var before := GetServerRun(data, retries, events, n - 1);
                  before.next.Serving? && m.out[..n] == before.out)
  {
    hide Chunk, GetServerRun;
    GetServerRunStep(data, retries, events, if n > 0 then n - 1 else 0);
    if n > 0 {
      ServeStep(data, retries, GetServerRun(data, retries, events, n - 1).next, At(events, n - 1));
      GetWindows(data, retries, events, n - 1);
    }
  }

  lemma ServeStep(data: seq<byte>, retries: nat, s: GetServer, e: Event)
    requires (s.Serving? ==> s.offset <= |data|) && GetServerStep(data, retries, s, e).next.Serving?
    ensures var m := GetServerStep(data, retries, s, e);
            && s.Serving? && m.out == [Data(m.next.block, Chunk(data, m.next.offset))]
            && (s.offset % BLOCK_SIZE == 0 && s.block == BlockNumber(s.offset / BLOCK_SIZE + 1) ==>
                  m.next.offset % BLOCK_SIZE == 0 && m.next.block == BlockNumber(m.next.offset / BLOCK_SIZE + 1))
  {
    NextBlockNumber(s.offset / BLOCK_SIZE + 1);
    assert (s.offset + BLOCK_SIZE) / BLOCK_SIZE == s.offset / BLOCK_SIZE + 1;
    hide Chunk;
  }

  /** The receiver of an upload answers each window with the acknowledgement of the last block it took. */
  lemma {:induction false} PutAcks(retries: nat, events: seq<Event>, n: nat)
    requires PutServerRun(retries, events, n).next.Receiving?
    ensures var m := PutServerRun(retries, events, n);
            && |m.out| == n + 1 && m.out[n] == Ack(Dec(m.next.block))
            && (n > 0 ==>
                  var before := PutServerRun(retries, events, n - 1);
                  && before.next.Receiving? && m.out[..n] == before.out
                  && (m.next.block != before.next.block ==>
                        At(events, n - 1) == Recv(Data(before.next.block, m.next.acc[|before.next.acc|..]))
                        && before.next.acc <= m.next.acc))
  {
    if n > 0 {
      PutAcks(retries, events, n - 1);
    }
  }

  /** The receiver of a download acknowledges each packet with its own number. */
  lemma {:induction false} GetAcks(events: seq<Event>, n: nat)
    requires GetClientRun(events, n).next.Fetching?
    ensures var m := GetClientRun(events, n);
            && |m.sent| == n
            && (n > 0 ==>
                  var before, e := GetClientRun(events, n - 1), At(events, n - 1);
                  && before.next.Fetching? && e.Recv? && e.packet.Data?
                  && m.sent == before.sent + [Ack(e.packet.block)]
                  && m.next.out
                     == before.next.out + if e.packet.block == before.next.block then e.packet.payload else [])
  {
    if n > 0 {
      GetAcks(events, n - 1);
    }
  }

  /** Blocks of 512 bytes; the last one is shorter, and may be empty. */
  lemma BlocksAre(data: seq<byte>, k: nat)
    requires 1 <= k <= Blocks(data)
    ensures Blocks(data) == |data| / 512 + 1
    ensures Payload(data, k) == data[512 * (k - 1)..if k < Blocks(data) then 512 * k else |data|]
    ensures |Payload(data, k)| == 512 <==> k < Blocks(data)
  {
  }

  /** An error packet ends every loop but the sender of a download, which takes it for a miss. */
  lemma ErrorEnds(data: seq<byte>, retries: nat, block: u16, offset: nat, attempt: nat, acc: seq<byte>, code: u16)
    requires offset <= |data|
    ensures var e := Recv(Error(code));
            && PutServerStep(retries, Receiving(block, acc, attempt), e) == PutServerMove(Dropped(block, acc), [])
            && GetClientStep(Fetching(block, acc), e) == GetClientMove(GetFailed(block, acc), [])
            && PutClientStep(data, retries, Sending(block, offset, attempt), e)
               == PutClientMove(PutFailed(offset / 512 + 1), [])
            && GetServerStep(data, retries, Serving(block, offset, attempt), e)
               == GetServerStep(data, retries, Serving(block, offset, attempt), Timeout)
  {
    hide Chunk;
  }

  /** An upload starts with ACK 0 and with nothing else, and a download goes on with data and with nothing else. */
  lemma OtherAnswersEnd(data: seq<byte>, retries: nat, block: u16, acc: seq<byte>, e: Event)
    ensures e != Recv(Ack(0)) ==> PutClientStep(data, retries, Waiting, e) == PutClientMove(PutFailed(0), [])
    ensures e.Timeout? || !e.packet.Data? ==>
              GetClientStep(Fetching(block, acc), e) == GetClientMove(GetFailed(block, acc), [])
  {
    hide Chunk;
  }

  /** The last window of a block without its acknowledgement ends a sender. */
  lemma LastWindowEnds(data: seq<byte>, retries: nat, block: u16, offset: nat, attempt: nat, e: Event)
    requires offset <= |data| && attempt + 1 >= retries && e != Recv(Ack(block))
    ensures PutClientStep(data, retries, Sending(block, offset, attempt), e)
         == PutClientMove(PutFailed(offset / 512 + 1), [])
    ensures GetServerStep(data, retries, Serving(block, offset, attempt), e)
         == GetServerMove(GaveUp(offset / 512 + 1), [])
  {
    hide Chunk;
  }

  /** The receiver of an upload repeats its acknowledgement after every silent window, and drops it after the last. */
  lemma {:induction false} SilentWait(retries: nat, events: seq<Event>, n: nat, k: nat)
    requires PutServerRun(retries, events, n).next.Receiving? && PutServerRun(retries, events, n).next.attempt == 0
    requires k <= retries && forall i :: n <= i < n + k ==> At(events, i) == Timeout
    ensures var before, m := PutServerRun(retries, events, n), PutServerRun(retries, events, n + k);
            && m.out == before.out + Copies(Ack(Dec(before.next.block)), k)
            && m.next == if k < retries || k == 0 then before.next.(attempt := k)
                         else Dropped(before.next.block, before.next.acc)
  {
    var before := PutServerRun(retries, events, n);
    if k == 0 {
      assert Copies(Ack(Dec(before.next.block)), 0) == [];
    } else {
      SilentWait(retries, events, n, k - 1);
      CopiesGrow(Ack(Dec(before.next.block)), k - 1);
    }
  }

  /** Every packet that is no error gives it all its windows back. */
  lemma PacketsReset(retries: nat, block: u16, acc: seq<byte>, attempt: nat, p: Packet)
    ensures var next := PutServerStep(retries, Receiving(block, acc, attempt), Recv(p)).next;
            next.Receiving? ==> next.attempt == 0
    ensures !p.Error? && !(p.Data? && p.block == block) ==>
              PutServerStep(retries, Receiving(block, acc, attempt), Recv(p)).next == Receiving(block, acc, 0)
  {
  }

  // ---------------------------------------------------------------------
  // A transfer as its sender sees it
  // ---------------------------------------------------------------------

  function Copies(p: Packet, n: nat): seq<Packet> {
    seq(n, _ => p)
  }

  /** A window without the awaited acknowledgement: silence, a stale acknowledgement, or junk. */
  predicate IsMiss(e: Event, block: u16) {
    e != Recv(Ack(block)) && !(e.Recv? && e.packet.Error?)
  }

  predicate AreMisses(misses: seq<Event>, block: u16) {
    forall k :: 0 <= k < |misses| ==> IsMiss(misses[k], block)
  }

  /** For each block its misses and then its acknowledgement. */
  function AckEvents(misses: seq<seq<Event>>): seq<Event> {
    if misses == [] then []
    else AckEvents(misses[..|misses| - 1]) + misses[|misses| - 1] + [Recv(Ack(BlockNumber(|misses|)))]
  }

  /** For each block one copy for each miss, and one that is acknowledged. */
  function SentFor(data: seq<byte>, misses: seq<seq<Event>>): seq<Packet>
    requires |misses| <= Blocks(data)
  {
    if misses == [] then []
    else
      var n := |misses|;
      SentFor(data, misses[..n - 1]) + Copies(Data(BlockNumber(n), Payload(data, n)), |misses[n - 1]| + 1)
  }

  /** Fewer misses than retries for each block. */
  predicate WithinRetries(retries: nat, misses: seq<seq<Event>>) {
    forall k :: 0 <= k < |misses| ==> |misses[k]| < retries && AreMisses(misses[k], BlockNumber(k + 1))
  }

  lemma CopiesGrow(p: Packet, n: nat)
    ensures Copies(p, n + 1) == Copies(p, n) + [p] && Copies(p, 1) == [p]
  {
  }

  /** Some misses in a row: a copy for each. */
  lemma {:induction false} MissesRun(data: seq<byte>, retries: nat, events: seq<Event>, base: nat, k: nat,
                                     block: u16, offset: nat, sent: seq<Packet>)
    requires offset <= |data| && k < retries && base + k <= |events| && AreMisses(events[base..base + k], block)
    requires PutClientRun(data, retries, events, base)
          == PutClientMove(Sending(block, offset, 0), sent + [Data(block, Chunk(data, offset))])
    ensures PutClientRun(data, retries, events, base + k)
         == PutClientMove(Sending(block, offset, k), sent + Copies(Data(block, Chunk(data, offset)), k + 1))
  {
    hide Chunk, PutClientRun;
    CopiesGrow(Data(block, Chunk(data, offset)), k);
    if k > 0 {
      assert events[base..base + k][..k - 1] == events[base..base + k - 1];
      assert events[base..base + k][k - 1] == events[base + k - 1];
      MissesRun(data, retries, events, base, k - 1, block, offset, sent);
      PutClientRunStep(data, retries, events, base + k - 1);
    }
  }

  /** After k blocks the client has sent their copies and the first one of the next block. */
  lemma {:induction false} BlocksRun(data: seq<byte>, retries: nat, misses: seq<seq<Event>>)
    requires |misses| <= Blocks(data) && WithinRetries(retries, misses)
    ensures var events, k := [Recv(Ack(0))] + AckEvents(misses), |misses|;
            PutClientRun(data, retries, events, |events|)
            == if k == Blocks(data) then PutClientMove(PutDone, SentFor(data, misses))
               else PutClientMove(Sending(BlockNumber(k + 1), BLOCK_SIZE * k, 0),
                                  SentFor(data, misses) + [Data(BlockNumber(k + 1), Payload(data, k + 1))])
  {
    hide Chunk, PutClientRun;
    var events, k := [Recv(Ack(0))] + AckEvents(misses), |misses|;
    if k == 0 {
      assert events == [Recv(Ack(0))];
      PutClientRunStep(data, retries, events, 0);
    } else {
      var front, mine := misses[..k - 1], misses[k - 1];
      assert WithinRetries(retries, front) by {
        assert forall i :: 0 <= i < k - 1 ==> front[i] == misses[i];
      }
      BlocksRun(data, retries, front);
      var before := [Recv(Ack(0))] + AckEvents(front);
      assert events == before + (mine + [Recv(Ack(BlockNumber(k)))]);
      BlockRun(data, retries, before, mine, k, SentFor(data, front));
    }
  }

  /** One more block: its misses and its acknowledgement. */
  lemma BlockRun(data: seq<byte>, retries: nat, before: seq<Event>, mine: seq<Event>, k: nat, sent: seq<Packet>)
    requires 1 <= k <= Blocks(data) && |mine| < retries && AreMisses(mine, BlockNumber(k))
    requires PutClientRun(data, retries, before, |before|)
          == PutClientMove(Sending(BlockNumber(k), BLOCK_SIZE * (k - 1), 0),
                           sent + [Data(BlockNumber(k), Payload(data, k))])
    ensures var events := before + (mine + [Recv(Ack(BlockNumber(k)))]);
            var out := sent + Copies(Data(BlockNumber(k), Payload(data, k)), |mine| + 1);
            PutClientRun(data, retries, events, |events|)
            == if k == Blocks(data) then PutClientMove(PutDone, out)
               else PutClientMove(Sending(BlockNumber(k + 1), BLOCK_SIZE * k, 0),
                                  out + [Data(BlockNumber(k + 1), Payload(data, k + 1))])
  {
    hide Chunk, PutClientRun, Copies;
    var ack := Recv(Ack(BlockNumber(k)));
    var events := before + (mine + [ack]);
    ClientRunOfFront(data, retries, before, mine + [ack], |before|);
    var base, n := |before|, |before| + |mine|;
    assert events[base..n] == mine && events[n] == ack;
    PayloadFits(data, k);
    MissesRun(data, retries, events, base, |mine|, BlockNumber(k), BLOCK_SIZE * (k - 1), sent);
    PutClientRunStep(data, retries, events, n);
    AckedStep(data, retries, k, |mine|);
    hide PutClientStep, BlockNumber, Payload;
  }

  /** The acknowledgement of block k ends the upload, or brings up the next block. */
  lemma AckedStep(data: seq<byte>, retries: nat, k: nat, attempt: nat)
    requires 1 <= k <= Blocks(data)
    ensures BLOCK_SIZE * (k - 1) <= |data|
    ensures PutClientStep(data, retries, Sending(BlockNumber(k), BLOCK_SIZE * (k - 1), attempt),
                          Recv(Ack(BlockNumber(k))))
         == if k == Blocks(data) then PutClientMove(PutDone, [])
            else PutClientMove(Sending(BlockNumber(k + 1), BLOCK_SIZE * k, 0),
                               [Data(BlockNumber(k + 1), Payload(data, k + 1))])
  {
    hide Chunk;
    PayloadFits(data, k);
    PrefixGrows(data, k - 1);
    NextBlockNumber(k);
    if k < Blocks(data) {
      PayloadFits(data, k + 1);
    }
  }

  lemma PayloadFits(data: seq<byte>, k: nat)
    requires 1 <= k <= Blocks(data)
    ensures BLOCK_SIZE * (k - 1) <= |data| && Payload(data, k) == Chunk(data, BLOCK_SIZE * (k - 1))
  {
  }

  /**
   An upload in which every block is acknowledged before the retries are used up succeeds;
   it has sent each block once for each window it opened for it.
   */
  lemma UploadSucceeds(data: seq<byte>, retries: nat, misses: seq<seq<Event>>)
    requires |misses| == Blocks(data) && WithinRetries(retries, misses)
    ensures var events := [Recv(Ack(0))] + AckEvents(misses);
            PutClientRun(data, retries, events, |events|) == PutClientMove(PutDone, SentFor(data, misses))
  {
    hide Chunk, PutClientRun;
    BlocksRun(data, retries, misses);
  }

  /** With as many misses as retries for one block it gives up, and names that block. */
  lemma UploadGivesUp(data: seq<byte>, retries: nat, misses: seq<seq<Event>>, last: seq<Event>)
    requires |misses| < Blocks(data) && WithinRetries(retries, misses)
    requires |last| == retries > 0 && AreMisses(last, BlockNumber(|misses| + 1))
    ensures var events, k := [Recv(Ack(0))] + AckEvents(misses) + last, |misses| + 1;
            PutClientRun(data, retries, events, |events|)
            == PutClientMove(PutFailed(k),
                             SentFor(data, misses) + Copies(Data(BlockNumber(k), Payload(data, k)), retries))
  {
    hide Chunk, PutClientRun;
    var before, k := [Recv(Ack(0))] + AckEvents(misses), |misses| + 1;
    var events := before + last;
    BlocksRun(data, retries, misses);
    ClientRunOfFront(data, retries, before, last, |before|);
    var base, n := |before|, |before| + retries - 1;
    assert events[base..n] == last[..retries - 1] && events[n] == last[retries - 1];
    PayloadFits(data, k);
    MissesRun(data, retries, events, base, retries - 1, BlockNumber(k), BLOCK_SIZE * (k - 1), SentFor(data, misses));
    PutClientRunStep(data, retries, events, n);
  }

  // ---------------------------------------------------------------------
  // Both ends of an upload over a link that loses packets
  // ---------------------------------------------------------------------

  /** Both ends, and the packets on their way: each copy arrives once, or is lost. */
  datatype PutLink =
    PutLink(client: PutClient, server: PutServer, up: multiset<Packet>, down: multiset<Packet>)

  datatype LinkMove = ClientReads(e: Event) | ServerReads(e: Event) | UpLost(p: Packet) | DownLost(p: Packet)

  function Taken(sent: multiset<Packet>, e: Event): multiset<Packet> {
    if e.Recv? then sent - multiset{e.packet} else sent
  }

  predicate CanMove(w: PutLink, m: LinkMove) {
    match m
    case ClientReads(e) => e.Recv? ==> e.packet in w.down
    case ServerReads(e) => e.Recv? ==> e.packet in w.up
    case UpLost(p) => p in w.up
    case DownLost(p) => p in w.down
  }

  predicate LinkInBounds(data: seq<byte>, w: PutLink) {
    w.client.Sending? ==> w.client.offset <= |data|
  }

  function Moved(data: seq<byte>, retries: nat, w: PutLink, m: LinkMove): PutLink
    requires LinkInBounds(data, w)
  {
    match m
    case ClientReads(e) =>
      var move := PutClientStep(data, retries, w.client, e);
      w.(client := move.next, up := w.up + multiset(move.out), down := Taken(w.down, e))
    case ServerReads(e) =>
      var move := PutServerStep(retries, w.server, e);
      w.(server := move.next, down := w.down + multiset(move.out), up := Taken(w.up, e))
    case UpLost(p) => w.(up := w.up - multiset{p})
    case DownLost(p) => w.(down := w.down - multiset{p})
  }

  const LINK_START := PutLink(Waiting, Receiving(1, [], 0), multiset{}, multiset{Ack(0)})

  /** The link gets from one state to another by these moves. */
  ghost predicate Leads(data: seq<byte>, retries: nat, w: PutLink, moves: seq<LinkMove>, end: PutLink)
    decreases |moves|
  {
    if moves == [] then w == end
    else LinkInBounds(data, w) && CanMove(w, moves[0])
         && Leads(data, retries, Moved(data, retries, w, moves[0]), moves[1..], end)
  }

  lemma {:induction false} LeadsOn(data: seq<byte>, retries: nat, w: PutLink, a: seq<LinkMove>, mid: PutLink,
                                   b: seq<LinkMove>, end: PutLink)
    requires Leads(data, retries, w, a, mid) && Leads(data, retries, mid, b, end)
    ensures Leads(data, retries, w, a + b, end)
    decreases |a|
  {
    hide Moved, CanMove, LinkInBounds;
    if a == [] {
      assert a + b == b;
    } else {
      assert (a + b)[0] == a[0] && (a + b)[1..] == a[1..] + b;
      LeadsOn(data, retries, Moved(data, retries, w, a[0]), a[1..], mid, b, end);
    }
  }

  /** What goes wrong in one window: the block is lost, or its acknowledgement. */
  datatype Loss = DataLost | AckLost

  function LossMoves(d: Packet, ack: Packet, loss: Loss): seq<LinkMove> {
    match loss
    case DataLost => [UpLost(d), ClientReads(Timeout), ServerReads(Timeout)]
    case AckLost => [ServerReads(Recv(d)), DownLost(ack), ClientReads(Timeout)]
  }

  function ThroughMoves(d: Packet, ack: Packet): seq<LinkMove> {
    [ServerReads(Recv(d)), ClientReads(Recv(ack))]
  }

  function RoundMoves(d: Packet, ack: Packet, losses: seq<Loss>): seq<LinkMove> {
    if losses == [] then []
    else RoundMoves(d, ack, losses[..|losses| - 1]) + LossMoves(d, ack, losses[|losses| - 1])
  }

  /** Each block with its losses, until it and its acknowledgement get through. */
  function UploadMoves(data: seq<byte>, losses: seq<seq<Loss>>): seq<LinkMove>
    requires |losses| <= Blocks(data)
  {
    if losses == [] then [ClientReads(Recv(Ack(0)))]
    else
      var n := |losses|;
      var d, ack := Data(BlockNumber(n), Payload(data, n)), Ack(BlockNumber(n));
      UploadMoves(data, losses[..n - 1]) + RoundMoves(d, ack, losses[n - 1]) + ThroughMoves(d, ack)
  }

  /** The client is at block i for the j-th time; the server has taken it already, or not. */
  ghost predicate AtBlock(data: seq<byte>, w: PutLink, i: nat, j: nat, taken: bool)
    requires 1 <= i <= Blocks(data)
  {
    && w.client == Sending(BlockNumber(i), BLOCK_SIZE * (i - 1), j)
    && Data(BlockNumber(i), Payload(data, i)) in w.up
    && w.server.Receiving? && w.server.attempt <= j && (taken ==> i < Blocks(data))
    && (if taken then w.server.block == BlockNumber(i + 1) && w.server.acc == Prefix(data, i)
        else w.server.block == BlockNumber(i) && w.server.acc == Prefix(data, i - 1))
  }

  lemma BlockNumbers(i: nat)
    ensures BlockNumber(i) != BlockNumber(i + 1) && Dec(BlockNumber(i + 1)) == BlockNumber(i)
  {
  }

  lemma OneMove(data: seq<byte>, retries: nat, w: PutLink, m: LinkMove)
    requires LinkInBounds(data, w) && CanMove(w, m)
    ensures Leads(data, retries, w, [m], Moved(data, retries, w, m))
  {
    hide Moved, CanMove, LinkInBounds;
    assert [m][1..] == [];
  }

  lemma ThreeMoves(data: seq<byte>, retries: nat, w: PutLink, a: LinkMove, b: LinkMove, c: LinkMove)
    returns (end: PutLink)
    requires LinkInBounds(data, w) && CanMove(w, a)
    requires var u := Moved(data, retries, w, a);
             LinkInBounds(data, u) && CanMove(u, b)
             && LinkInBounds(data, Moved(data, retries, u, b)) && CanMove(Moved(data, retries, u, b), c)
    ensures end == Moved(data, retries, Moved(data, retries, Moved(data, retries, w, a), b), c)
    ensures Leads(data, retries, w, [a, b, c], end)
  {
    hide Moved, CanMove, LinkInBounds;
    var u := Moved(data, retries, w, a);
    var v := Moved(data, retries, u, b);
    end := Moved(data, retries, v, c);
    OneMove(data, retries, w, a);
    OneMove(data, retries, u, b);
    OneMove(data, retries, v, c);
    LeadsOn(data, retries, w, [a], u, [b], v);
    LeadsOn(data, retries, w, [a] + [b], v, [c], end);
    assert [a] + [b] + [c] == [a, b, c];
  }

  /** One window goes wrong, and another one is left. */
  lemma OneLoss(data: seq<byte>, retries: nat, w: PutLink, i: nat, j: nat, taken: bool, loss: Loss)
    returns (end: PutLink)
    requires 1 <= i <= Blocks(data) && AtBlock(data, w, i, j, taken) && j + 1 < retries
    requires loss.AckLost? ==> i < Blocks(data)
    ensures AtBlock(data, end, i, j + 1, taken || loss.AckLost?)
    ensures Leads(data, retries, w, LossMoves(Data(BlockNumber(i), Payload(data, i)), Ack(BlockNumber(i)), loss), end)
  {
    hide *;
    match loss {
      case DataLost => end := LosesData(data, retries, w, i, j, taken);
      case AckLost => end := LosesAck(data, retries, w, i, j, taken);
    }
  }

  lemma LosesData(data: seq<byte>, retries: nat, w: PutLink, i: nat, j: nat, taken: bool) returns (end: PutLink)
    requires 1 <= i <= Blocks(data) && AtBlock(data, w, i, j, taken) && j + 1 < retries
    ensures AtBlock(data, end, i, j + 1, taken)
    ensures Leads(data, retries, w,
                  LossMoves(Data(BlockNumber(i), Payload(data, i)), Ack(BlockNumber(i)), DataLost), end)
  {
    hide Chunk, Prefix, Leads, BlockNumber;
    var d := Data(BlockNumber(i), Payload(data, i));
    PayloadFits(data, i);
    end := ThreeMoves(data, retries, w, UpLost(d), ClientReads(Timeout), ServerReads(Timeout));
  }

  /** The server reads a copy of block i: it has taken it now, and acknowledges it. */
  lemma ServerGets(data: seq<byte>, retries: nat, w: PutLink, i: nat, j: nat, taken: bool) returns (u: PutLink)
    requires 1 <= i <= Blocks(data) && AtBlock(data, w, i, j, taken)
    ensures LinkInBounds(data, w) && CanMove(w, ServerReads(Recv(Data(BlockNumber(i), Payload(data, i)))))
    ensures u == Moved(data, retries, w, ServerReads(Recv(Data(BlockNumber(i), Payload(data, i)))))
    ensures u.client == w.client && Ack(BlockNumber(i)) in u.down
    ensures u.server == if i < Blocks(data) then Receiving(BlockNumber(i + 1), Prefix(data, i), 0) else Stored(data)
  {
    hide Chunk, Prefix;
    PayloadFits(data, i);
    BlockNumbers(i);
    NextBlockNumber(i);
    PrefixGrows(data, i - 1);
    hide BlockNumber, Payload;
    var d := Data(BlockNumber(i), Payload(data, i));
    u := Moved(data, retries, w, ServerReads(Recv(d)));
  }

  lemma LosesAck(data: seq<byte>, retries: nat, w: PutLink, i: nat, j: nat, taken: bool) returns (end: PutLink)
    requires 1 <= i < Blocks(data) && AtBlock(data, w, i, j, taken) && j + 1 < retries
    ensures AtBlock(data, end, i, j + 1, true)
    ensures Leads(data, retries, w,
                  LossMoves(Data(BlockNumber(i), Payload(data, i)), Ack(BlockNumber(i)), AckLost), end)
  {
    hide Chunk, Prefix, Leads, PutServerStep;
    var d, ack := Data(BlockNumber(i), Payload(data, i)), Ack(BlockNumber(i));
    var u := ServerGets(data, retries, w, i, j, taken);
    PayloadFits(data, i);
    hide BlockNumber, Payload;
    end := ThreeMoves(data, retries, w, ServerReads(Recv(d)), DownLost(ack), ClientReads(Timeout));
  }

  lemma {:induction false} Losses(data: seq<byte>, retries: nat, w: PutLink, i: nat, losses: seq<Loss>)
    returns (end: PutLink, taken: bool)
    requires 1 <= i <= Blocks(data) && AtBlock(data, w, i, 0, false) && |losses| < retries
    requires i == Blocks(data) ==> AckLost !in losses
    ensures AtBlock(data, end, i, |losses|, taken)
    ensures Leads(data, retries, w, RoundMoves(Data(BlockNumber(i), Payload(data, i)), Ack(BlockNumber(i)), losses),
                  end)
  {
    hide Leads, AtBlock, LossMoves, Payload;
    if losses == [] {
      end, taken := w, false;
      Nowhere(data, retries, w);
    } else {
      var n := |losses| - 1;
      assert losses[n] in losses && forall l :: l in losses[..n] ==> l in losses;
      var mid, before := Losses(data, retries, w, i, losses[..n]);
      end := OneLoss(data, retries, mid, i, n, before, losses[n]);
      taken := before || losses[n].AckLost?;
      var d, ack := Data(BlockNumber(i), Payload(data, i)), Ack(BlockNumber(i));
      LeadsOn(data, retries, w, RoundMoves(d, ack, losses[..n]), mid, LossMoves(d, ack, losses[n]), end);
    }
  }

  lemma Nowhere(data: seq<byte>, retries: nat, w: PutLink)
    ensures Leads(data, retries, w, [], w)
  {
  }

  /** The client reads the acknowledgement of block i. */
  lemma ClientGets(data: seq<byte>, retries: nat, u: PutLink, i: nat, j: nat) returns (end: PutLink)
    requires 1 <= i <= Blocks(data) && u.client == Sending(BlockNumber(i), BLOCK_SIZE * (i - 1), j)
    requires Ack(BlockNumber(i)) in u.down
    ensures LinkInBounds(data, u) && CanMove(u, ClientReads(Recv(Ack(BlockNumber(i)))))
    ensures end == Moved(data, retries, u, ClientReads(Recv(Ack(BlockNumber(i))))) && end.server == u.server
    ensures if i == Blocks(data) then end.client == PutDone
            else end.client == Sending(BlockNumber(i + 1), BLOCK_SIZE * i, 0)
                 && Data(BlockNumber(i + 1), Payload(data, i + 1)) in end.up
  {
    hide Chunk, Prefix;
    PayloadFits(data, i);
    NextBlockNumber(i);
    PrefixGrows(data, i - 1);
    if i < Blocks(data) {
      PayloadFits(data, i + 1);
    }
    hide BlockNumber, Payload;
    end := Moved(data, retries, u, ClientReads(Recv(Ack(BlockNumber(i)))));
  }

  /** The block and its acknowledgement get through. */
  lemma Through(data: seq<byte>, retries: nat, w: PutLink, i: nat, j: nat, taken: bool) returns (end: PutLink)
    requires 1 <= i <= Blocks(data) && AtBlock(data, w, i, j, taken)
    ensures if i < Blocks(data) then AtBlock(data, end, i + 1, 0, false)
            else end.client == PutDone && end.server == Stored(data)
    ensures Leads(data, retries, w, ThroughMoves(Data(BlockNumber(i), Payload(data, i)), Ack(BlockNumber(i))), end)
  {
    hide Chunk, Prefix, Leads, PutServerStep, PutClientStep, Moved, CanMove, LinkInBounds;
    var d, ack := Data(BlockNumber(i), Payload(data, i)), Ack(BlockNumber(i));
    var u := ServerGets(data, retries, w, i, j, taken);
    end := ClientGets(data, retries, u, i, j);
    OneMove(data, retries, w, ServerReads(Recv(d)));
    OneMove(data, retries, u, ClientReads(Recv(ack)));
    LeadsOn(data, retries, w, [ServerReads(Recv(d))], u, [ClientReads(Recv(ack))], end);
    assert [ServerReads(Recv(d))] + [ClientReads(Recv(ack))] == ThroughMoves(d, ack);
  }

  /** Fewer losses than retries for each block, and the last acknowledgement, which nobody repeats, is not lost. */
  predicate Bearable(data: seq<byte>, retries: nat, losses: seq<seq<Loss>>) {
    && |losses| <= Blocks(data) && (forall k :: 0 <= k < |losses| ==> |losses[k]| < retries)
    && (|losses| == Blocks(data) ==> AckLost !in losses[|losses| - 1])
  }

  lemma {:induction false} UploadGoesOn(data: seq<byte>, retries: nat, losses: seq<seq<Loss>>) returns (end: PutLink)
    requires Bearable(data, retries, losses)
    ensures Leads(data, retries, LINK_START, UploadMoves(data, losses), end)
    ensures if |losses| < Blocks(data) then AtBlock(data, end, |losses| + 1, 0, false)
            else end.client == PutDone && end.server == Stored(data)
  {
    hide Leads, Moved, CanMove, AtBlock, RoundMoves, ThroughMoves, Chunk, Prefix, Payload;
    var n := |losses|;
    if n == 0 {
      end := FirstAck(data, retries);
    } else {
      var front := losses[..n - 1];
      assert forall k :: 0 <= k < n - 1 ==> front[k] == losses[k];
      var mid := UploadGoesOn(data, retries, front);
      var late, taken := Losses(data, retries, mid, n, losses[n - 1]);
      end := Through(data, retries, late, n, |losses[n - 1]|, taken);
      var d, ack := Data(BlockNumber(n), Payload(data, n)), Ack(BlockNumber(n));
      LeadsOn(data, retries, LINK_START, UploadMoves(data, front), mid, RoundMoves(d, ack, losses[n - 1]), late);
      LeadsOn(data, retries, LINK_START, UploadMoves(data, front) + RoundMoves(d, ack, losses[n - 1]), late,
              ThroughMoves(d, ack), end);
    }
  }

  lemma FirstAck(data: seq<byte>, retries: nat) returns (end: PutLink)
    ensures Leads(data, retries, LINK_START, [ClientReads(Recv(Ack(0)))], end) && AtBlock(data, end, 1, 0, false)
  {
    hide Chunk, Prefix, Leads;
    PrefixGrows(data, 0);
    PayloadFits(data, 1);
    end := Moved(data, retries, LINK_START, ClientReads(Recv(Ack(0))));
    OneMove(data, retries, LINK_START, ClientReads(Recv(Ack(0))));
  }

  /**
   An upload of any length ends well for both sides when for each block fewer windows than
   retries are lost, whatever of the two packets is lost in each, and the server stores the
   data. Only the last acknowledgement has one chance.
   */
  lemma UploadEnds(data: seq<byte>, retries: nat, losses: seq<seq<Loss>>) returns (end: PutLink)
    requires |losses| == Blocks(data) && Bearable(data, retries, losses)
    ensures Leads(data, retries, LINK_START, UploadMoves(data, losses), end)
    ensures end.client == PutDone && end.server == Stored(data)
  {
    hide Leads, AtBlock, UploadMoves;
    end := UploadGoesOn(data, retries, losses);
  }

  /** A client that hears nothing more gives up after its last window. */
  lemma {:induction false} SilentWindows(data: seq<byte>, retries: nat, w: PutLink, i: nat, j: nat)
    returns (moves: seq<LinkMove>, end: PutLink)
    requires 1 <= i <= Blocks(data) && j < retries
    requires w.client == Sending(BlockNumber(i), BLOCK_SIZE * (i - 1), j)
    ensures Leads(data, retries, w, moves, end) && end.client == PutFailed(i) && end.server == w.server
    decreases retries - j
  {
    hide Chunk, Leads, BlockNumber;
    PayloadFits(data, i);
    var u := Moved(data, retries, w, ClientReads(Timeout));
    OneMove(data, retries, w, ClientReads(Timeout));
    if j + 1 < retries {
      var rest;
      rest, end := SilentWindows(data, retries, u, i, j + 1);
      LeadsOn(data, retries, w, [ClientReads(Timeout)], u, rest, end);
      moves := [ClientReads(Timeout)] + rest;
    } else {
      moves, end := [ClientReads(Timeout)], u;
    }
  }

  /** Why the last acknowledgement is special: when it is lost the client fails, although the server stored the data. */
  lemma LastAckLost(data: seq<byte>, retries: nat) returns (moves: seq<LinkMove>, end: PutLink)
    requires retries > 0
    ensures Leads(data, retries, LINK_START, moves, end)
    ensures end.client == PutFailed(Blocks(data)) && end.server == Stored(data)
  {
    hide Leads, Moved, CanMove, LinkInBounds, UploadMoves, BlockNumber, Payload;
    var n := Blocks(data);
    var losses: seq<seq<Loss>> := seq(n - 1, _ => []);
    var late := UploadGoesOn(data, retries, losses);
    var d, ack := Data(BlockNumber(n), Payload(data, n)), Ack(BlockNumber(n));
    var u := ServerGets(data, retries, late, n, 0, false);
    OneMove(data, retries, late, ServerReads(Recv(d)));
    AckGoes(data, retries, u, ack);
    var v := Moved(data, retries, u, DownLost(ack));
    OneMove(data, retries, u, DownLost(ack));
    var rest;
    rest, end := SilentWindows(data, retries, v, n, 0);
    LeadsOn(data, retries, LINK_START, UploadMoves(data, losses), late, [ServerReads(Recv(d))], u);
    LeadsOn(data, retries, LINK_START, UploadMoves(data, losses) + [ServerReads(Recv(d))], u, [DownLost(ack)], v);
    moves := UploadMoves(data, losses) + [ServerReads(Recv(d))] + [DownLost(ack)];
    LeadsOn(data, retries, LINK_START, moves, v, rest, end);
    moves := moves + rest;
  }

  lemma AckGoes(data: seq<byte>, retries: nat, u: PutLink, ack: Packet)
    requires ack in u.down && (u.client.Sending? ==> u.client.offset <= |data|)
    ensures LinkInBounds(data, u) && CanMove(u, DownLost(ack))
    ensures var v := Moved(data, retries, u, DownLost(ack)); v.client == u.client && v.server == u.server
  {
  }
}
