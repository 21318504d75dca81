/** The same for downloads: the sender is the server, and the client waits for as long as the server goes on. */
module TftpGetProgress {
  import opened Bits
  import opened Tftp
  import opened TftpSafety
  import opened TftpGet
  import opened TftpProgress

  // ---------------------------------------------------------------------
  // A download as its sender sees it
  // ---------------------------------------------------------------------

  /** Any other event than the awaited acknowledgement uses up one window; an error packet is no exception. */
  predicate AreWindows(misses: seq<Event>, block: u16) {
    forall k :: 0 <= k < |misses| ==> misses[k] != Recv(Ack(block))
  }

  predicate WithinWindows(retries: nat, misses: seq<seq<Event>>) {
    forall k :: 0 <= k < |misses| ==> |misses[k]| < retries && AreWindows(misses[k], BlockNumber(k + 1))
  }

  lemma {:induction false} WindowsRun(data: seq<byte>, retries: nat, events: seq<Event>, base: nat, k: nat,
                                      block: u16, offset: nat, sent: seq<Packet>)
    requires offset <= |data| && k < retries && base + k <= |events| && AreWindows(events[base..base + k], block)
    requires GetServerRun(data, retries, events, base)
          == GetServerMove(Serving(block, offset, 0), sent + [Data(block, Chunk(data, offset))])
    ensures GetServerRun(data, retries, events, base + k)
         == GetServerMove(Serving(block, offset, k), sent + Copies(Data(block, Chunk(data, offset)), k + 1))
  {
    hide Chunk, GetServerRun;
    CopiesGrow(Data(block, Chunk(data, offset)), k);
    if k > 0 {
      assert events[base..base + k][..k - 1] == events[base..base + k - 1];
      assert events[base..base + k][k - 1] == events[base + k - 1];
      WindowsRun(data, retries, events, base, k - 1, block, offset, sent);
      GetServerRunStep(data, retries, events, base + k - 1);
    }
  }

  /** The acknowledgement of block k ends the session, or brings up the next block. */
  lemma ServedStep(data: seq<byte>, retries: nat, k: nat, attempt: nat)
    requires 1 <= k <= Blocks(data)
    ensures BLOCK_SIZE * (k - 1) <= |data|
    ensures GetServerStep(data, retries, Serving(BlockNumber(k), BLOCK_SIZE * (k - 1), attempt),
                          Recv(Ack(BlockNumber(k))))
         == if k == Blocks(data) then GetServerMove(Served, [])
            else GetServerMove(Serving(BlockNumber(k + 1), BLOCK_SIZE * k, 0),
                               [Data(BlockNumber(k + 1), Payload(data, k + 1))])
  {
    hide Chunk;
    PayloadFits(data, k);
    PrefixGrows(data, k - 1);
    NextBlockNumber(k);
    if k < Blocks(data) {
      PayloadFits(data, k + 1);
    }
  }

  lemma ServedBlock(data: seq<byte>, retries: nat, before: seq<Event>, mine: seq<Event>, k: nat, sent: seq<Packet>)
    requires 1 <= k <= Blocks(data) && |mine| < retries && AreWindows(mine, BlockNumber(k))
    requires GetServerRun(data, retries, before, |before|)
          == GetServerMove(Serving(BlockNumber(k), BLOCK_SIZE * (k - 1), 0),
                           sent + [Data(BlockNumber(k), Payload(data, k))])
    ensures var events := before + (mine + [Recv(Ack(BlockNumber(k)))]);
            var out := sent + Copies(Data(BlockNumber(k), Payload(data, k)), |mine| + 1);
            GetServerRun(data, retries, events, |events|)
            == if k == Blocks(data) then GetServerMove(Served, out)
               else GetServerMove(Serving(BlockNumber(k + 1), BLOCK_SIZE * k, 0),
                                  out + [Data(BlockNumber(k + 1), Payload(data, k + 1))])
  {
    hide Chunk, GetServerRun, Copies;
    var ack := Recv(Ack(BlockNumber(k)));
    var events := before + (mine + [ack]);
    GetServerOfFront(data, retries, before, mine + [ack], |before|);
    var base, n := |before|, |before| + |mine|;
    assert events[base..n] == mine && events[n] == ack;
    PayloadFits(data, k);
    WindowsRun(data, retries, events, base, |mine|, BlockNumber(k), BLOCK_SIZE * (k - 1), sent);
    GetServerRunStep(data, retries, events, n);
    ServedStep(data, retries, k, |mine|);
    hide GetServerStep, BlockNumber, Payload;
  }

  /** After k blocks the server has sent their copies and the first one of the next block. */
  lemma {:induction false} ServedBlocks(data: seq<byte>, retries: nat, misses: seq<seq<Event>>)
    requires |misses| <= Blocks(data) && WithinWindows(retries, misses)
    ensures var events, k := AckEvents(misses), |misses|;
            GetServerRun(data, retries, events, |events|)
            == if k == Blocks(data) then GetServerMove(Served, SentFor(data, misses))
               else GetServerMove(Serving(BlockNumber(k + 1), BLOCK_SIZE * k, 0),
                                  SentFor(data, misses) + [Data(BlockNumber(k + 1), Payload(data, k + 1))])
  {
    hide Chunk, GetServerRun, Copies;
    var events, k := AckEvents(misses), |misses|;
    if k == 0 {
      GetServerRunStep(data, retries, events, 0);
    } else {
      var front, mine := misses[..k - 1], misses[k - 1];
      assert WithinWindows(retries, front) by {
        assert forall i :: 0 <= i < k - 1 ==> front[i] == misses[i];
      }
      ServedBlocks(data, retries, front);
      assert events == AckEvents(front) + (mine + [Recv(Ack(BlockNumber(k)))]);
      ServedBlock(data, retries, AckEvents(front), mine, k, SentFor(data, front));
    }
  }

  /** A download in which every block is acknowledged within the retries is served, one copy for each window. */
  lemma DownloadServed(data: seq<byte>, retries: nat, misses: seq<seq<Event>>)
    requires |misses| == Blocks(data) && WithinWindows(retries, misses)
    ensures GetServerRun(data, retries, AckEvents(misses), |AckEvents(misses)|)
         == GetServerMove(Served, SentFor(data, misses))
  {
    hide Chunk, GetServerRun;
    ServedBlocks(data, retries, misses);
  }

  // ---------------------------------------------------------------------
  // Both ends of a download over a link that loses packets
  // ---------------------------------------------------------------------

  datatype GetLink = GetLink(client: GetClient, server: GetServer, up: multiset<Packet>, down: multiset<Packet>)

  predicate GetCanMove(w: GetLink, m: LinkMove) {
    match m
    case ClientReads(e) => e.Recv? ==> e.packet in w.down
    case ServerReads(e) => e.Recv? ==> e.packet in w.up
    case UpLost(p) => p in w.up
    case DownLost(p) => p in w.down
  }

  predicate GetLinkInBounds(data: seq<byte>, w: GetLink) {
    w.server.Serving? ==> w.server.offset <= |data|
  }

  function GetMoved(data: seq<byte>, retries: nat, w: GetLink, m: LinkMove): GetLink
    requires GetLinkInBounds(data, w)
  {
    match m
    case ClientReads(e) =>
      var move := GetClientStep(w.client, e);
      w.(client := move.next, up := w.up + multiset(move.sent), down := Taken(w.down, e))
    case ServerReads(e) =>
      var move := GetServerStep(data, retries, w.server, e);
      w.(server := move.next, down := w.down + multiset(move.out), up := Taken(w.up, e))
    case UpLost(p) => w.(up := w.up - multiset{p})
    case DownLost(p) => w.(down := w.down - multiset{p})
  }

  /** The session has sent its first block. */
  function GetLinkStart(data: seq<byte>): GetLink {
    GetLink(Fetching(1, []), Serving(1, 0, 0), multiset{}, multiset{Data(1, Chunk(data, 0))})
  }

  ghost predicate GetLeads(data: seq<byte>, retries: nat, w: GetLink, moves: seq<LinkMove>, end: GetLink)
    decreases |moves|
  {
    if moves == [] then w == end
    else GetLinkInBounds(data, w) && GetCanMove(w, moves[0])
         && GetLeads(data, retries, GetMoved(data, retries, w, moves[0]), moves[1..], end)
  }

  lemma {:induction false} GetLeadsOn(data: seq<byte>, retries: nat, w: GetLink, a: seq<LinkMove>, mid: GetLink,
                                      b: seq<LinkMove>, end: GetLink)
    requires GetLeads(data, retries, w, a, mid) && GetLeads(data, retries, mid, b, end)
    ensures GetLeads(data, retries, w, a + b, end)
    decreases |a|
  {
    hide GetMoved, GetCanMove, GetLinkInBounds;
    if a == [] {
      assert a + b == b;
    } else {
      assert (a + b)[0] == a[0] && (a + b)[1..] == a[1..] + b;
      GetLeadsOn(data, retries, GetMoved(data, retries, w, a[0]), a[1..], mid, b, end);
    }
  }

  lemma GetOneMove(data: seq<byte>, retries: nat, w: GetLink, m: LinkMove)
    requires GetLinkInBounds(data, w) && GetCanMove(w, m)
    ensures GetLeads(data, retries, w, [m], GetMoved(data, retries, w, m))
  {
    hide GetMoved, GetCanMove, GetLinkInBounds;
    assert [m][1..] == [];
  }

  function GetLossMoves(d: Packet, ack: Packet, loss: Loss): seq<LinkMove> {
    match loss
    case DataLost => [DownLost(d), ServerReads(Timeout)]
    case AckLost => [ClientReads(Recv(d)), UpLost(ack), ServerReads(Timeout)]
  }

  function GetThroughMoves(d: Packet, ack: Packet): seq<LinkMove> {
    [ClientReads(Recv(d)), ServerReads(Recv(ack))]
  }

  function GetRoundMoves(d: Packet, ack: Packet, losses: seq<Loss>): seq<LinkMove> {
    if losses == [] then []
    else GetRoundMoves(d, ack, losses[..|losses| - 1]) + GetLossMoves(d, ack, losses[|losses| - 1])
  }

  function DownloadMoves(data: seq<byte>, losses: seq<seq<Loss>>): seq<LinkMove>
    requires |losses| <= Blocks(data)
  {
    if losses == [] then []
    else
      var n := |losses|;
      var d, ack := Data(BlockNumber(n), Payload(data, n)), Ack(BlockNumber(n));
      DownloadMoves(data, losses[..n - 1]) + GetRoundMoves(d, ack, losses[n - 1]) + GetThroughMoves(d, ack)
  }

  /** The server is at block i for the j-th time; the client has taken it already, or not. */
  ghost predicate GetAtBlock(data: seq<byte>, w: GetLink, i: nat, j: nat, taken: bool)
    requires 1 <= i <= Blocks(data)
  {
    && w.server == Serving(BlockNumber(i), BLOCK_SIZE * (i - 1), j)
    && Data(BlockNumber(i), Payload(data, i)) in w.down && (taken ==> i < Blocks(data))
    && w.client == if taken then Fetching(BlockNumber(i + 1), Prefix(data, i))
                   else Fetching(BlockNumber(i), Prefix(data, i - 1))
  }

  /** The client reads a copy of block i: it has taken it now, and acknowledges it. */
  lemma FetcherGets(data: seq<byte>, retries: nat, w: GetLink, i: nat, j: nat, taken: bool) returns (u: GetLink)
    requires 1 <= i <= Blocks(data) && GetAtBlock(data, w, i, j, taken)
    ensures GetLinkInBounds(data, w) && GetCanMove(w, ClientReads(Recv(Data(BlockNumber(i), Payload(data, i)))))
    ensures u == GetMoved(data, retries, w, ClientReads(Recv(Data(BlockNumber(i), Payload(data, i)))))
    ensures u.server == w.server && Ack(BlockNumber(i)) in u.up
    ensures u.client == if i < Blocks(data) then Fetching(BlockNumber(i + 1), Prefix(data, i)) else Fetched(data)
  {
    hide Chunk, Prefix;
    PayloadFits(data, i);
    BlockNumbers(i);
    NextBlockNumber(i);
    PrefixGrows(data, i - 1);
    hide BlockNumber, Payload;
    u := GetMoved(data, retries, w, ClientReads(Recv(Data(BlockNumber(i), Payload(data, i)))));
  }

  /** The server reads the acknowledgement of block i. */
  lemma ServerHears(data: seq<byte>, retries: nat, u: GetLink, i: nat, j: nat) returns (end: GetLink)
    requires 1 <= i <= Blocks(data) && u.server == Serving(BlockNumber(i), BLOCK_SIZE * (i - 1), j)
    requires Ack(BlockNumber(i)) in u.up
    ensures GetLinkInBounds(data, u) && GetCanMove(u, ServerReads(Recv(Ack(BlockNumber(i)))))
    ensures end == GetMoved(data, retries, u, ServerReads(Recv(Ack(BlockNumber(i))))) && end.client == u.client
    ensures if i == Blocks(data) then end.server == Served
            else end.server == Serving(BlockNumber(i + 1), BLOCK_SIZE * i, 0)
                 && Data(BlockNumber(i + 1), Payload(data, i + 1)) in end.down
  {
    ServedStep(data, retries, i, j);
    hide GetServerStep, BlockNumber, Payload;
    end := GetMoved(data, retries, u, ServerReads(Recv(Ack(BlockNumber(i)))));
  }

  /** The server's window ends without an acknowledgement, and another one is left. */
  lemma ServerRepeats(data: seq<byte>, retries: nat, u: GetLink, i: nat, j: nat) returns (end: GetLink)
    requires 1 <= i <= Blocks(data) && u.server == Serving(BlockNumber(i), BLOCK_SIZE * (i - 1), j) && j + 1 < retries
    ensures GetLinkInBounds(data, u) && end == GetMoved(data, retries, u, ServerReads(Timeout))
    ensures end.client == u.client && end.server == Serving(BlockNumber(i), BLOCK_SIZE * (i - 1), j + 1)
    ensures Data(BlockNumber(i), Payload(data, i)) in end.down
  {
    hide Chunk, BlockNumber;
    PayloadFits(data, i);
    end := GetMoved(data, retries, u, ServerReads(Timeout));
  }

  lemma GetOneLoss(data: seq<byte>, retries: nat, w: GetLink, i: nat, j: nat, taken: bool, loss: Loss)
    returns (end: GetLink)
    requires 1 <= i <= Blocks(data) && GetAtBlock(data, w, i, j, taken) && j + 1 < retries
    requires loss.AckLost? ==> i < Blocks(data)
    ensures GetAtBlock(data, end, i, j + 1, taken || loss.AckLost?)
    ensures GetLeads(data, retries, w,
                     GetLossMoves(Data(BlockNumber(i), Payload(data, i)), Ack(BlockNumber(i)), loss), end)
  {
    hide Chunk, Prefix, GetLeads, GetServerStep, GetClientStep, BlockNumber, Payload;
    var d, ack := Data(BlockNumber(i), Payload(data, i)), Ack(BlockNumber(i));
    PayloadFits(data, i);
    match loss {
      case DataLost =>
        var u := GetMoved(data, retries, w, DownLost(d));
        end := ServerRepeats(data, retries, u, i, j);
        GetOneMove(data, retries, w, DownLost(d));
        GetOneMove(data, retries, u, ServerReads(Timeout));
        GetLeadsOn(data, retries, w, [DownLost(d)], u, [ServerReads(Timeout)], end);
        assert [DownLost(d)] + [ServerReads(Timeout)] == GetLossMoves(d, ack, loss);
      case AckLost =>
        var u := FetcherGets(data, retries, w, i, j, taken);
        var v := GetMoved(data, retries, u, UpLost(ack));
        end := ServerRepeats(data, retries, v, i, j);
        GetOneMove(data, retries, w, ClientReads(Recv(d)));
        GetOneMove(data, retries, u, UpLost(ack));
        GetOneMove(data, retries, v, ServerReads(Timeout));
        GetLeadsOn(data, retries, w, [ClientReads(Recv(d))], u, [UpLost(ack)], v);
        GetLeadsOn(data, retries, w, [ClientReads(Recv(d))] + [UpLost(ack)], v, [ServerReads(Timeout)], end);
        assert [ClientReads(Recv(d))] + [UpLost(ack)] + [ServerReads(Timeout)] == GetLossMoves(d, ack, loss);
    }
  }

  lemma {:induction false} GetLosses(data: seq<byte>, retries: nat, w: GetLink, i: nat, losses: seq<Loss>)
    returns (end: GetLink, taken: bool)
    requires 1 <= i <= Blocks(data) && GetAtBlock(data, w, i, 0, false) && |losses| < retries
    requires i == Blocks(data) ==> AckLost !in losses
    ensures GetAtBlock(data, end, i, |losses|, taken)
    ensures GetLeads(data, retries, w,
                     GetRoundMoves(Data(BlockNumber(i), Payload(data, i)), Ack(BlockNumber(i)), losses), end)
  {
    hide GetLeads, GetAtBlock, GetLossMoves, Payload;
    if losses == [] {
      end, taken := w, false;
      GetNowhere(data, retries, w);
    } else {
      var n := |losses| - 1;
      assert losses[n] in losses && forall l :: l in losses[..n] ==> l in losses;
      var mid, before := GetLosses(data, retries, w, i, losses[..n]);
      end := GetOneLoss(data, retries, mid, i, n, before, losses[n]);
      taken := before || losses[n].AckLost?;
      var d, ack := Data(BlockNumber(i), Payload(data, i)), Ack(BlockNumber(i));
      GetLeadsOn(data, retries, w, GetRoundMoves(d, ack, losses[..n]), mid, GetLossMoves(d, ack, losses[n]), end);
    }
  }

  lemma GetNowhere(data: seq<byte>, retries: nat, w: GetLink)
    ensures GetLeads(data, retries, w, [], w)
  {
  }

  lemma GetThrough(data: seq<byte>, retries: nat, w: GetLink, i: nat, j: nat, taken: bool) returns (end: GetLink)
    requires 1 <= i <= Blocks(data) && GetAtBlock(data, w, i, j, taken)
    ensures if i < Blocks(data) then GetAtBlock(data, end, i + 1, 0, false)
            else end.client == Fetched(data) && end.server == Served
    ensures GetLeads(data, retries, w,
                     GetThroughMoves(Data(BlockNumber(i), Payload(data, i)), Ack(BlockNumber(i))), end)
  {
    hide Chunk, Prefix, GetLeads, GetServerStep, GetClientStep, GetMoved, GetCanMove, GetLinkInBounds;
    var d, ack := Data(BlockNumber(i), Payload(data, i)), Ack(BlockNumber(i));
    var u := FetcherGets(data, retries, w, i, j, taken);
    end := ServerHears(data, retries, u, i, j);
    GetOneMove(data, retries, w, ClientReads(Recv(d)));
    GetOneMove(data, retries, u, ServerReads(Recv(ack)));
    GetLeadsOn(data, retries, w, [ClientReads(Recv(d))], u, [ServerReads(Recv(ack))], end);
    assert [ClientReads(Recv(d))] + [ServerReads(Recv(ack))] == GetThroughMoves(d, ack);
  }

  lemma {:induction false} DownloadGoesOn(data: seq<byte>, retries: nat, losses: seq<seq<Loss>>)
    returns (end: GetLink)
    requires Bearable(data, retries, losses)
    ensures GetLeads(data, retries, GetLinkStart(data), DownloadMoves(data, losses), end)
    ensures if |losses| < Blocks(data) then GetAtBlock(data, end, |losses| + 1, 0, false)
            else end.client == Fetched(data) && end.server == Served
  {
    hide GetLeads, GetMoved, GetCanMove, GetRoundMoves, GetThroughMoves, Chunk, Prefix, Payload;
    var n := |losses|;
    if n == 0 {
      end := GetLinkStart(data);
      GetNowhere(data, retries, end);
      PrefixGrows(data, 0);
      PayloadFits(data, 1);
    } else {
      hide GetAtBlock;
      var front := losses[..n - 1];
      assert forall k :: 0 <= k < n - 1 ==> front[k] == losses[k];
      var mid := DownloadGoesOn(data, retries, front);
      var late, taken := GetLosses(data, retries, mid, n, losses[n - 1]);
      end := GetThrough(data, retries, late, n, |losses[n - 1]|, taken);
      var d, ack := Data(BlockNumber(n), Payload(data, n)), Ack(BlockNumber(n));
      var begin := GetLinkStart(data);
      GetLeadsOn(data, retries, begin, DownloadMoves(data, front), mid, GetRoundMoves(d, ack, losses[n - 1]), late);
      GetLeadsOn(data, retries, begin, DownloadMoves(data, front) + GetRoundMoves(d, ack, losses[n - 1]), late,
                 GetThroughMoves(d, ack), end);
    }
  }

  /**
   A download of any length ends well for both sides under the same condition, while the
   client's own window is longer than the server's silence; it has no retries.
   */
  lemma DownloadEnds(data: seq<byte>, retries: nat, losses: seq<seq<Loss>>) returns (end: GetLink)
    requires |losses| == Blocks(data) && Bearable(data, retries, losses)
    ensures GetLeads(data, retries, GetLinkStart(data), DownloadMoves(data, losses), end)
    ensures end.client == Fetched(data) && end.server == Served
  {
    hide GetLeads, GetAtBlock, DownloadMoves, GetLinkStart;
    end := DownloadGoesOn(data, retries, losses);
  }

  /** A single silent window ends a download: the client does not ask again. */
  lemma SilenceEndsGet(block: u16, out: seq<byte>)
    ensures GetClientStep(Fetching(block, out), Timeout) == GetClientMove(GetFailed(block, out), [])
  {
  }
}
