/** Reading the VLAN tables of a live switch over NSDP. */
module SwitchRead {
  import opened Wrappers
  import opened Bits
  import opened Wire
  import opened Agent
  import opened Session
  import opened Client
  import opened VlanState
  import opened VlanTables

  datatype PVIDEntry = PVIDEntry(port: byte, vid: u16)

  datatype ReadError =
    | Unread(error: ClientError)
    | BadLength
    | VlanTwice(vid: int)
    | PortInBothBitmaps(vid: int, port: int)
    | PVIDCountWrong
    | PVIDPortWrong(port: int)
    | PVIDPortTwice(port: int)

  // ---------------------------------------------------------------------
  // Decoding table values
  // ---------------------------------------------------------------------

  /** The 4-byte entries of a value. */
  function Entries(v: seq<byte>): seq<Entry>
    requires |v| % 4 == 0
  {
    if v == [] then [] else Entries(v[..|v| - 4]) + [EntryOf(v[|v| - 4..])]
  }

  /** The 3-byte entries of a value. */
  function PVIDs(v: seq<byte>): seq<PVIDEntry>
    requires |v| % 3 == 0
  {
    if v == [] then [] else PVIDs(v[..|v| - 3]) + [PVIDEntry(v[|v| - 3], Word(v[|v| - 2], v[|v| - 1]))]
  }

  method DecodeEntries(v: seq<byte>) returns (out: seq<Entry>)
    requires |v| % 4 == 0
    ensures out == Entries(v)
  {
    hide EntryOf, Entries;
    out := [];
    NoEntries();
    var off := 0;
    while off + 4 <= |v|
      invariant 0 <= off <= |v| && off % 4 == 0
      invariant out == Entries(v[..off])
    {
      EntriesStep(v, off);
      out := out + [EntryOf(v[off..off + 4])];
      off := off + 4;
    }
    assert v[..off] == v;
  }

  lemma NoEntries()
    ensures Entries([]) == []
  {
  }

  /** One more entry. */
  lemma EntriesStep(v: seq<byte>, off: nat)
    requires off + 4 <= |v| && off % 4 == 0
    ensures Entries(v[..off + 4]) == Entries(v[..off]) + [EntryOf(v[off..off + 4])]
  {
    hide EntryOf;
    var front := v[..off + 4];
    assert |front| == off + 4 && front != [];
    assert front[..off] == v[..off];
    assert front[off..] == v[off..off + 4];
  }

  method DecodePVIDs(v: seq<byte>) returns (out: seq<PVIDEntry>)
    requires |v| % 3 == 0
    ensures out == PVIDs(v)
  {
    hide Word;
    out := [];
    for i := 0 to |v| / 3
      invariant out == PVIDs(v[..3 * i])
    {
      assert v[..3 * i + 3][..3 * i] == v[..3 * i];
      out := out + [PVIDEntry(v[3 * i], Word(v[3 * i + 1], v[3 * i + 2]))];
    }
    assert v[..3 * (|v| / 3)] == v;
  }

  /** An entry after a trip over the wire: untagged is what is a member and not tagged. */
  function ReadBack(e: Entry): Entry {
    EntryOf(EntryBytes(e))
  }

  function AllReadBack(vlans: seq<Entry>): seq<Entry> {
    if vlans == [] then [] else AllReadBack(vlans[..|vlans| - 1]) + [ReadBack(vlans[|vlans| - 1])]
  }

  lemma {:induction false} AllReadBackAt(vlans: seq<Entry>)
    ensures |AllReadBack(vlans)| == |vlans|
    ensures forall k :: 0 <= k < |vlans| ==> AllReadBack(vlans)[k] == ReadBack(vlans[k])
  {
    hide ReadBack;
    if vlans != [] {
      AllReadBackAt(vlans[..|vlans| - 1]);
    }
  }

  /** The trip keeps the id and every port's membership, and leaves no port in both sets. */
  lemma ReadBackRow(e: Entry)
    ensures ReadBack(e).vid == e.vid && EntryRow(ReadBack(e)) == EntryRow(e)
    ensures forall port :: InRange(port) ==> !(Bit(ReadBack(e).tagged, port) && Bit(ReadBack(e).untagged, port))
  {
    WordParts(e.vid);
    hide Bit, Or, And, AndNot, High, Low, Word;
    var back, member := ReadBack(e), Or(e.tagged, e.untagged);
    var l, r := EntryRow(back), EntryRow(e);
    forall port
      ensures port in l <==> port in r
      ensures port in l ==> l[port] == r[port]
      ensures InRange(port) ==> !(Bit(back.tagged, port) && Bit(back.untagged, port))
    {
      if InRange(port) {
        OrBits(e.tagged, e.untagged, port);
        AndBits(e.tagged, member, port);
        AndNotBits(member, e.tagged, port);
      }
    }
    assert l == r;
  }

  /** The concatenated entries of the TLVs with the table's tag. */
  function EntriesOf(tlvs: seq<TLV>): Option<seq<Entry>> {
    if tlvs == [] then Some([])
    else
      match EntriesOf(tlvs[..|tlvs| - 1])
      case None => None
      case Some(front) =>
        var t := tlvs[|tlvs| - 1];
        if t.tag != TAG_8021Q then Some(front)
        else if |t.value| == 0 || |t.value| % 4 != 0 then None
        else Some(front + Entries(t.value))
  }

  /** A table value that is empty or no multiple of 4 bytes fails the whole list; other tags do not matter. */
  lemma {:induction false} EntriesReadIff(tlvs: seq<TLV>)
    ensures EntriesOf(tlvs).Some? <==>
              forall k :: 0 <= k < |tlvs| && tlvs[k].tag == 0x2800 ==> |tlvs[k].value| > 0 && |tlvs[k].value| % 4 == 0
  {
    hide Entries;
    if tlvs != [] {
      EntriesReadIff(tlvs[..|tlvs| - 1]);
    }
  }

  lemma {:induction false} EntriesOfTable(vlans: seq<Entry>)
    ensures EntriesOf(EntryTLVs(vlans)) == Some(AllReadBack(vlans))
  {
    hide EntryBytes, EntryOf;
    if vlans != [] {
      var n := |vlans| - 1;
      EntriesOfTable(vlans[..n]);
      FourBytes(vlans[n]);
      OneEntry(EntryBytes(vlans[n]));
      assert EntryTLVs(vlans)[..|EntryTLVs(vlans)| - 1] == EntryTLVs(vlans[..n]);
    }
  }

  lemma OneEntry(v: seq<byte>)
    requires |v| == 4
    ensures Entries(v) == [EntryOf(v)]
  {
    hide EntryOf;
    assert v[..0] == [] && v[0..] == v;
    assert Entries([]) == [];
  }

  // ---------------------------------------------------------------------
  // Tables longer than the buffer
  // ---------------------------------------------------------------------

  /** An entry takes 8 bytes: the 802.1Q entries that fit the client's buffer, and those that fit a datagram. */
  const MAX_ENTRIES := ROOM / 8
  const MAX_SENT := (MAX_DATAGRAM - REPLY_MIN_LEN) / 8

  /** The entries a client gets to see. */
  function FirstEntries(vlans: seq<Entry>): seq<Entry> {
    if |vlans| <= MAX_ENTRIES then vlans else vlans[..MAX_ENTRIES]
  }

  /** The tables a client gets to see. */
  function ReadTables(t: Tables): Tables {
    t.(vlans := FirstEntries(t.vlans))
  }

  predicate EightBytes(tlvs: seq<TLV>) {
    forall k :: 0 <= k < |tlvs| ==> tlvs[k].tag != TERM_TAG && |tlvs[k].value| == 4
  }

  lemma {:induction false} SeenEight(tlvs: seq<TLV>, room: nat)
    requires EightBytes(tlvs)
    ensures Seen(tlvs, room).tlvs == if |tlvs| <= room / 8 then tlvs else tlvs[..room / 8]
  {
    if tlvs != [] && room >= 8 {
      assert EightBytes(tlvs[1..]);
      SeenEight(tlvs[1..], room - 8);
      assert (room - 8) / 8 == room / 8 - 1;
      assert tlvs == [tlvs[0]] + tlvs[1..];
    }
  }

  lemma {:induction false} RegionEight(tlvs: seq<TLV>)
    requires EightBytes(tlvs)
    ensures |Region(tlvs)| == 8 * |tlvs|
  {
    if tlvs != [] {
      assert EightBytes(tlvs[..|tlvs| - 1]);
      RegionEight(tlvs[..|tlvs| - 1]);
    }
  }

  lemma {:induction false} EntryTLVsAt(vlans: seq<Entry>)
    ensures |EntryTLVs(vlans)| == |vlans|
    ensures forall k :: 0 <= k < |vlans| ==> EntryTLVs(vlans)[k] == TLV(TAG_8021Q, EntryBytes(vlans[k]))
  {
    hide EntryBytes;
    if vlans != [] {
      EntryTLVsAt(vlans[..|vlans| - 1]);
    }
  }

  /** Of the table's reply a client sees the first 508 entries; beyond 8183 there is no reply. */
  lemma TableSeen(vlans: seq<Entry>)
    ensures Seen(EntryTLVs(vlans), ROOM).tlvs == EntryTLVs(FirstEntries(vlans))
    ensures 36 + |Region(EntryTLVs(vlans))| <= 65507 <==> |vlans| <= 8183
  {
    hide EntryTLVs, EntryBytes, Seen, Region;
    EntryTLVsAt(vlans);
    EntryTLVsAt(FirstEntries(vlans));
    forall k | 0 <= k < |vlans|
      ensures |EntryTLVs(vlans)[k].value| == 4
    {
      FourBytes(vlans[k]);
    }
    SeenEight(EntryTLVs(vlans), ROOM);
    RegionEight(EntryTLVs(vlans));
    assert Seen(EntryTLVs(vlans), ROOM).tlvs == EntryTLVs(FirstEntries(vlans));
  }

  /** The PVID table always fits. */
  lemma PVIDsSeen(pvid: seq<u16>)
    requires |pvid| == PORTS
    ensures var tlvs := [TLV(TAG_PVID, PVIDBytes(pvid, PORTS))];
            Seen(tlvs, ROOM).tlvs == tlvs && REPLY_MIN_LEN + |Region(tlvs)| <= MAX_DATAGRAM
  {
    PVIDsOfTable(pvid, PORTS);
    hide PVIDBytes, PVIDs, PVIDTable;
    SeenOne(TLV(TAG_PVID, PVIDBytes(pvid, PORTS)), ROOM);
    SmallRegion(TLV(TAG_PVID, PVIDBytes(pvid, PORTS)), []);
    assert [TLV(TAG_PVID, PVIDBytes(pvid, PORTS))] + [] == [TLV(TAG_PVID, PVIDBytes(pvid, PORTS))];
  }

  /** With unique ids the state read is the whole state if and only if the table has at most 508 entries. */
  lemma ReadIsWholeIff(t: Tables)
    requires Sound(t)
    ensures Sound(ReadTables(t))
    ensures Decode(ReadTables(t)) == Decode(t) <==> |t.vlans| <= 508
  {
    hide RowOf;
    if |t.vlans| > MAX_ENTRIES {
      var vid := t.vlans[MAX_ENTRIES].vid;
      assert vid in Decode(t).vlans;
      assert vid !in IDs(ReadTables(t).vlans);
    }
  }

  method Get8021QVLANs(client: Client) returns (r: Result<seq<Entry>, ReadError>)
    requires client.Valid() && client.link.sent + DEFAULT_ATTEMPTS <= MODULUS
    modifies client, client.link, client.link.agent, client.link.agent.nonce, client.link.agent.pvid
    ensures client.Valid() && client.link.agent.State() == old(client.link.agent.State())
    ensures old(client.link.sent) <= client.link.sent <= old(client.link.sent) + DEFAULT_ATTEMPTS
    ensures match r
            case Ok(list) =>
              && list == AllReadBack(FirstEntries(client.link.agent.State().tables.vlans))
              && |client.link.agent.State().tables.vlans| <= MAX_SENT
            case Err(e) =>
              && e == Unread(NoAnswer)
              && (!client.AllClear(old(client.link.sent)) || |client.link.agent.State().tables.vlans| > MAX_SENT)
  {
    hide FromBefore, Clear, Number, Entries, AllReadBack, EntryTLVs, FirstEntries, Seen, Region;
    TableSeen(client.link.agent.State().tables.vlans);
    ghost var vlans := FirstEntries(client.link.agent.State().tables.vlans);
    assert Word(0x28, 0) == TAG_8021Q;
    var attrs := client.GetBlock(0x28, []);
    if attrs.Err? {
      return Err(Unread(attrs.error));
    }
    var tlvs := attrs.value;
    assert tlvs == EntryTLVs(vlans);
    EntriesOfTable(vlans);
    var out: seq<Entry> := [];
    for k := 0 to |tlvs|
      modifies {}
      invariant EntriesOf(tlvs[..k]) == Some(out)
    {
      assert tlvs[..k + 1][..k] == tlvs[..k];
      EntriesFail(tlvs, k + 1);
      if tlvs[k].tag != TAG_8021Q {
        continue;
      }
      var v := tlvs[k].value;
      if |v| == 0 || |v| % 4 != 0 {
        return Err(BadLength);
      }
      var more := DecodeEntries(v);
      out := out + more;
    }
    assert tlvs[..|tlvs|] == tlvs;
    return Ok(out);
  }

  /** A malformed value fails the whole list. */
  lemma {:induction false} EntriesFail(tlvs: seq<TLV>, k: nat)
    requires k <= |tlvs| && EntriesOf(tlvs).Some?
    ensures EntriesOf(tlvs[..k]).Some?
  {
    hide Entries;
    if k < |tlvs| {
      EntriesFail(tlvs[..|tlvs| - 1], k);
      assert tlvs[..|tlvs| - 1][..k] == tlvs[..k];
    } else {
      assert tlvs[..k] == tlvs;
    }
  }

  /** The PVID entries of a table. */
  function PVIDTable(pvid: seq<u16>, n: nat): seq<PVIDEntry>
    requires n <= |pvid| && n < 0x100
  {
    if n == 0 then [] else PVIDTable(pvid, n - 1) + [PVIDEntry(n, pvid[n - 1])]
  }

  lemma {:induction false} PVIDTableAt(pvid: seq<u16>, n: nat)
    requires n <= |pvid| && n < 0x100
    ensures |PVIDTable(pvid, n)| == n
    ensures forall k :: 0 <= k < n ==> PVIDTable(pvid, n)[k] == PVIDEntry(k + 1, pvid[k])
  {
    if n > 0 {
      PVIDTableAt(pvid, n - 1);
    }
  }

  lemma {:induction false} PVIDsOfTable(pvid: seq<u16>, n: nat)
    requires n <= |pvid| && n < 0x100
    ensures |PVIDBytes(pvid, n)| == 3 * n
    ensures PVIDs(PVIDBytes(pvid, n)) == PVIDTable(pvid, n)
  {
    hide Word, High, Low;
    if n > 0 {
      PVIDsOfTable(pvid, n - 1);
      WordParts(pvid[n - 1]);
      var v := PVIDBytes(pvid, n);
      assert v[..|v| - 3] == PVIDBytes(pvid, n - 1);
    }
  }

  method GetPVIDs(client: Client) returns (r: Result<seq<PVIDEntry>, ReadError>)
    requires client.Valid() && client.link.sent + DEFAULT_ATTEMPTS <= MODULUS
    modifies client, client.link, client.link.agent, client.link.agent.nonce, client.link.agent.pvid
    ensures client.Valid() && client.link.agent.State() == old(client.link.agent.State())
    ensures old(client.link.sent) <= client.link.sent <= old(client.link.sent) + DEFAULT_ATTEMPTS
    ensures match r
            case Ok(list) =>
              |client.link.agent.State().tables.pvid| == PORTS
              && list == PVIDTable(client.link.agent.State().tables.pvid, PORTS)
            case Err(e) => e == Unread(NoAnswer) && !client.AllClear(old(client.link.sent))
  {
    hide FromBefore, Clear, Number, PVIDs, PVIDBytes, EntryTLVs, PVIDTable, Seen, Region;
    ghost var pvid := client.link.agent.State().tables.pvid;
    PVIDsSeen(pvid);
    assert Word(0x30, 0) == TAG_PVID;
    var attrs := client.GetBlock(0x30, []);
    if attrs.Err? {
      return Err(Unread(attrs.error));
    }
    var tlvs := attrs.value;
    assert tlvs == [TLV(TAG_PVID, PVIDBytes(pvid, PORTS))];
    PVIDsOfTable(pvid, PORTS);
    var out: seq<PVIDEntry> := [];
    for k := 0 to |tlvs|
      modifies {}
      invariant out == if k == 0 then [] else PVIDTable(pvid, PORTS)
    {
      if tlvs[k].tag != TAG_PVID {
        continue;
      }
      var v := tlvs[k].value;
      if |v| == 0 || |v| % 3 != 0 {
        return Err(BadLength);
      }
      var more := DecodePVIDs(v);
      out := out + more;
    }
    return Ok(out);
  }

  // ---------------------------------------------------------------------
  // The state
  // ---------------------------------------------------------------------

  /** The ports of one entry; a port in both bitmaps is an error. */
  method EntryPorts(e: Entry) returns (r: Result<map<int, PortMembership>, int>)
    ensures match r
            case Ok(ports) => NormalizedPorts(ports, PORTS) == EntryRow(e)
            case Err(port) => InRange(port) && Bit(e.tagged, port) && Bit(e.untagged, port)
  {
    hide Bit;
    var tagged := PortsFromBitmap(e.tagged);
    var untagged := PortsFromBitmap(e.untagged);
    var ports: map<int, PortMembership> := map[];
    for k := 0 to |tagged|
      invariant forall p :: p in ports <==> p in tagged[..k]
      invariant forall p :: p in ports ==> ports[p] == Tagged
    {
      assert tagged[..k + 1] == tagged[..k] + [tagged[k]];
      ports := ports[tagged[k] := Tagged];
    }
    assert tagged[..|tagged|] == tagged;
    for k := 0 to |untagged|
      invariant forall p :: p in ports <==> p in tagged || p in untagged[..k]
      invariant forall p :: p in ports ==> ports[p] == if p in tagged then Tagged else Untagged
    {
      assert untagged[..k + 1] == untagged[..k] + [untagged[k]];
      assert untagged[k] in untagged;
      assert untagged[k] !in untagged[..k] by { Earlier(untagged, k); }
      if untagged[k] in ports {
        return Err(untagged[k]);
      }
      ports := ports[untagged[k] := Untagged];
    }
    assert untagged[..|untagged|] == untagged;
    var l, row := NormalizedPorts(ports, PORTS), EntryRow(e);
    forall p
      ensures p in l <==> p in row
      ensures p in l ==> l[p] == row[p]
    {
    }
    assert l == row;
    return Ok(ports);
  }

  lemma Earlier(ports: seq<int>, k: nat)
    requires k < |ports| && forall i, j :: 0 <= i < j < |ports| ==> ports[i] < ports[j]
    ensures ports[k] !in ports[..k]
  {
  }

  /** The VLANs of the first k entries. */
  ghost predicate VlansRead(vlans: map<int, Vlan>, list: seq<Entry>, k: nat)
    requires k <= |list|
  {
    && vlans.Keys == IDs(list[..k]) && Unique(list[..k])
    && forall i :: 0 <= i < k ==>
         list[i].vid in vlans && vlans[list[i].vid].id == list[i].vid
         && NormalizedPorts(vlans[list[i].vid].ports, PORTS) == EntryRow(list[i])
  }

  lemma VlansReadStep(vlans: map<int, Vlan>, list: seq<Entry>, k: nat, ports: map<int, PortMembership>)
    requires k < |list| && VlansRead(vlans, list, k) && list[k].vid !in vlans
    requires NormalizedPorts(ports, PORTS) == EntryRow(list[k])
    ensures VlansRead(vlans[list[k].vid := Vlan(list[k].vid, ports)], list, k + 1)
  {
    hide EntryRow, NormalizedPorts;
    var vid := list[k].vid;
    assert list[..k + 1] == list[..k] + [list[k]];
    IDsSnoc(list, k);
    forall i | 0 <= i < k
      ensures list[i].vid != vid
    {
      assert list[..k][i] == list[i];
      assert list[i].vid in IDs(list[..k]);
    }
  }

  lemma IDsSnoc(list: seq<Entry>, k: nat)
    requires k < |list|
    ensures IDs(list[..k + 1]) == IDs(list[..k]) + {list[k].vid}
  {
    assert forall i :: 0 <= i < k ==> list[..k + 1][i] == list[..k][i];
    assert list[..k + 1][k] == list[k];
    forall vid
      ensures vid in IDs(list[..k + 1]) <==> vid in IDs(list[..k]) || vid == list[k].vid
    {
      if vid in IDs(list[..k]) {
        var i :| 0 <= i < k && list[..k][i].vid == vid;
        assert list[..k + 1][i].vid == vid;
      }
    }
  }

  /** Entries read back name the same VLANs. */
  lemma SameIDs(vlans: seq<Entry>, list: seq<Entry>)
    requires |vlans| == |list| && forall k :: 0 <= k < |list| ==> list[k].vid == vlans[k].vid
    ensures IDs(list) == IDs(vlans) && (Unique(list) <==> Unique(vlans))
  {
    forall vid
      ensures vid in IDs(list) <==> vid in IDs(vlans)
    {
      if vid in IDs(list) {
        var k :| 0 <= k < |list| && list[k].vid == vid;
        assert vlans[k].vid == vid;
      }
      if vid in IDs(vlans) {
        var k :| 0 <= k < |vlans| && vlans[k].vid == vid;
        assert list[k].vid == vid;
      }
    }
  }

  /** All VLANs read, normalized, are the decoded ones. */
  lemma VlansReadAll(vlans: map<int, Vlan>, list: seq<Entry>, t: Tables, pvids: map<int, int>)
    requires |t.pvid| == PORTS && list == AllReadBack(t.vlans) && VlansRead(vlans, list, |list|)
    requires pvids == Decode(t).pvids
    ensures Sound(t) && Normalized(VLANState(PORTS, vlans, pvids)) == Decode(t)
  {
    hide EntryRow, NormalizedPorts, RowOf, ReadBack, VlansRead, Unique, IDs;
    AllReadBackAt(t.vlans);
    VlansReadNames(vlans, list);
    forall k | 0 <= k < |list|
      ensures list[k].vid == t.vlans[k].vid
    {
      ReadBackRow(t.vlans[k]);
    }
    SameIDs(t.vlans, list);
    var l, r := Normalized(VLANState(PORTS, vlans, pvids)).vlans, Decode(t).vlans;
    forall vid
      ensures vid in l <==> vid in r
      ensures vid in l ==> l[vid] == r[vid]
    {
      if vid in r {
        VlanReadAt(vlans, list, t, vid);
      }
    }
    assert l == r;
  }

  lemma VlansReadNames(vlans: map<int, Vlan>, list: seq<Entry>)
    requires VlansRead(vlans, list, |list|)
    ensures vlans.Keys == IDs(list) && Unique(list)
  {
    hide EntryRow, NormalizedPorts;
    assert list[..|list|] == list;
  }

  lemma VlanReadAt(vlans: map<int, Vlan>, list: seq<Entry>, t: Tables, vid: int)
    requires list == AllReadBack(t.vlans) && VlansRead(vlans, list, |list|) && Unique(t.vlans) && vid in IDs(t.vlans)
    ensures vid in vlans && vlans[vid].id == vid && NormalizedPorts(vlans[vid].ports, PORTS) == RowOf(t.vlans, vid)
  {
    hide EntryRow, NormalizedPorts, RowOf, ReadBack;
    AllReadBackAt(t.vlans);
    var k :| 0 <= k < |t.vlans| && t.vlans[k].vid == vid;
    ReadBackRow(t.vlans[k]);
    RowAt(t.vlans, k);
  }

  method PVIDMap(entries: seq<PVIDEntry>) returns (r: Result<map<int, int>, ReadError>)
    ensures match r
            case Ok(pvids) =>
              && |entries| == PORTS
              && (forall k :: 0 <= k < |entries| ==>
                    entries[k].port in pvids && pvids[entries[k].port] == entries[k].vid)
              && (forall p :: p in pvids ==> InRange(p) && exists k :: 0 <= k < |entries| && entries[k].port == p)
            case Err(_) =>
              || |entries| != PORTS
              || (exists k :: 0 <= k < |entries| && !InRange(entries[k].port))
              || exists i, k :: 0 <= i < k < |entries| && entries[i].port == entries[k].port
  {
    if |entries| != PORTS {
      return Err(PVIDCountWrong);
    }
    var pvids: map<int, int> := map[];
    for k := 0 to |entries|
      invariant forall i :: 0 <= i < k ==> entries[i].port in pvids && pvids[entries[i].port] == entries[i].vid
      invariant forall p :: p in pvids ==> InRange(p) && exists i :: 0 <= i < k && entries[i].port == p
    {
      var port := entries[k].port;
      if port < 1 || port > PORTS {
        assert !InRange(entries[k].port);
        return Err(PVIDPortWrong(port));
      }
      if port in pvids {
        var i :| 0 <= i < k && entries[i].port == port;
        assert 0 <= i < k < |entries| && entries[i].port == entries[k].port;
        return Err(PVIDPortTwice(port));
      }
      pvids := pvids[port := entries[k].vid];
    }
    return Ok(pvids);
  }

  /** The PVID table of the switch gives the decoded PVIDs. */
  lemma PVIDsAreDecoded(pvids: map<int, int>, entries: seq<PVIDEntry>, t: Tables)
    requires |t.pvid| == PORTS && entries == PVIDTable(t.pvid, PORTS)
    requires forall k :: 0 <= k < |entries| ==> entries[k].port in pvids && pvids[entries[k].port] == entries[k].vid
    requires forall p :: p in pvids ==> InRange(p)
    ensures pvids == Decode(t).pvids
  {
    PVIDTableAt(t.pvid, PORTS);
    hide PVIDTable, IDs, RowOf;
    var r := Decode(t).pvids;
    forall p
      ensures p in pvids <==> p in r
      ensures p in pvids ==> pvids[p] == r[p]
    {
      if InRange(p) {
        assert entries[p - 1] == PVIDEntry(p, t.pvid[p - 1]);
      }
    }
    assert pvids == r;
  }

  lemma PVIDTableIsFine(t: Tables)
    requires |t.pvid| == PORTS
    ensures var entries := PVIDTable(t.pvid, PORTS);
            && |entries| == PORTS
            && (forall k :: 0 <= k < |entries| ==> InRange(entries[k].port))
            && forall i, k :: 0 <= i < k < |entries| ==> entries[i].port != entries[k].port
  {
    PVIDTableAt(t.pvid, PORTS);
    hide PVIDTable;
  }

  /**
   The normalized state of the switch. What is read is exactly what the first 508 entries
   of its tables decode to; a read fails only when the link loses something, when the table
   does not fit a datagram, or when an id is in it twice.
   */
  method ReadVLANState(client: Client) returns (r: Result<VLANState, ReadError>)
    requires client.Valid() && client.link.sent + 2 * DEFAULT_ATTEMPTS <= MODULUS
    modifies client, client.link, client.link.agent, client.link.agent.nonce, client.link.agent.pvid
    ensures client.Valid() && client.link.agent.State() == old(client.link.agent.State())
    ensures old(client.link.sent) <= client.link.sent <= old(client.link.sent) + 2 * DEFAULT_ATTEMPTS
    ensures match r
            case Ok(state) =>
              var t := client.link.agent.State().tables;
              Sound(ReadTables(t)) && state == Decode(ReadTables(t)) && |t.vlans| <= MAX_SENT
            case Err(e) =>
              var t := client.link.agent.State().tables;
              if e.VlanTwice? then !Sound(ReadTables(t))
              else e == Unread(NoAnswer) && (!client.AllClear(old(client.link.sent)) || |t.vlans| > MAX_SENT)
  {
    hide FromBefore, Clear, Number, PVIDTable, AllReadBack, EntryRow, Bit, Decode, Normalized, VlansRead,
         Unique, ReadBack, FirstEntries;
    ghost var t, start := ReadTables(client.link.agent.State().tables), client.link.sent;
    var memberships := Get8021QVLANs(client);
    if memberships.Err? {
      return Err(memberships.error);
    }
    var list := memberships.value;
    ghost var middle := client.link.sent;
    AllReadBackAt(t.vlans);
    var vlans: map<int, Vlan> := map[];
    NothingRead(list);
    for k := 0 to |list|
      modifies {}
      invariant VlansRead(vlans, list, k)
    {
      var vid := list[k].vid;
      if vid in vlans {
        ReadTwice(vlans, list, k, t);
        return Err(VlanTwice(vid));
      }
      var ports := EntryPorts(list[k]);
      ReadBackRow(t.vlans[k]);
      match ports {
        case Err(port) => return Err(PortInBothBitmaps(vid, port));
        case Ok(row) =>
          VlansReadStep(vlans, list, k, row);
          vlans := vlans[vid := Vlan(vid, row)];
      }
    }
    var entries := GetPVIDs(client);
    if entries.Err? {
      client.SentGrows(start, middle);
      return Err(entries.error);
    }
    PVIDTableIsFine(t);
    var pvids := PVIDMap(entries.value);
    if pvids.Err? {
      return Err(pvids.error);
    }
    PVIDsAreDecoded(pvids.value, entries.value, t);
    VlansReadAll(vlans, list, t, pvids.value);
    var state := Normalize(VLANState(PORTS, vlans, pvids.value));
    return Ok(state);
  }

  lemma NothingRead(list: seq<Entry>)
    ensures VlansRead(map[], list, 0)
  {
  }

  lemma ReadTwice(vlans: map<int, Vlan>, list: seq<Entry>, k: nat, t: Tables)
    requires k < |list| && VlansRead(vlans, list, k) && list[k].vid in vlans && list == AllReadBack(t.vlans)
    ensures !Unique(t.vlans)
  {
    hide EntryRow, NormalizedPorts, ReadBack;
    AllReadBackAt(t.vlans);
    forall i | 0 <= i < |list|
      ensures list[i].vid == t.vlans[i].vid
    {
      ReadBackRow(t.vlans[i]);
    }
    assert list[k].vid in IDs(list[..k]);
    var i :| 0 <= i < k && list[..k][i].vid == list[k].vid;
    assert t.vlans[i].vid == t.vlans[k].vid;
  }
}
