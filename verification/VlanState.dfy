/** The canonical VLAN state of a switch, its validation and its comparison. */
module VlanState {
  import opened Wrappers

  /**
   A per-port membership. PortMembership is a string in Go, so a value outside the
   three named ones exists; Unknown("") is the zero value a missing map entry reads as.
   */
  datatype PortMembership = Ignored | Untagged | Tagged | Unknown(text: string)

  const MISSING := Unknown("")

  datatype Vlan = Vlan(id: int, ports: map<int, PortMembership>)

  datatype VLANState = VLANState(portCount: int, vlans: map<int, Vlan>, pvids: map<int, int>)

  /** A map read that yields the zero value for a missing key. */
  function Member(ports: map<int, PortMembership>, port: int): PortMembership {
    if port in ports then ports[port] else MISSING
  }

  /** The membership of a port in a VLAN, the zero value when either is missing. */
  function MembershipIn(s: VLANState, vid: int, port: int): PortMembership {
    if vid in s.vlans then Member(s.vlans[vid].ports, port) else MISSING
  }

  // ---------------------------------------------------------------------
  // Ascending lists of ids
  // ---------------------------------------------------------------------

  predicate Ascending(ids: seq<int>) {
    forall i, j :: 0 <= i < j < |ids| ==> ids[i] < ids[j]
  }

  lemma SomeElement(s: set<int>)
    requires s != {}
    ensures exists x :: x in s
  {
    if forall x :: x !in s {
      assert false;
    }
  }

  lemma {:induction false} LeastOf(ids: set<int>) returns (m: int)
    requires ids != {}
    ensures m in ids && forall x :: x in ids ==> m <= x
  {
    SomeElement(ids);
    m :| m in ids;
    var rest := ids - {m};
    if rest != {} {
      var n := LeastOf(rest);
      m := if m <= n then m else n;
    }
    forall x | x in ids
      ensures m <= x
    {
      assert x in rest || ids == rest + {x};
    }
  }

  lemma LeastExists(ids: set<int>)
    requires ids != {}
    ensures exists m :: m in ids && forall x :: x in ids ==> m <= x
  {
    var m := LeastOf(ids);
  }

  ghost function Least(ids: set<int>): (m: int)
    requires ids != {}
    ensures m in ids && forall x :: x in ids ==> m <= x
  {
    LeastExists(ids);
    var m :| m in ids && forall x :: x in ids ==> m <= x;
    m
  }

  /** The elements of a set in ascending order. */
  ghost function Sorted(ids: set<int>): (r: seq<int>)
    ensures forall x :: x in r <==> x in ids
    ensures Ascending(r)
  {
    if ids == {} then []
    else
      var m := Least(ids);
      var rest := Sorted(ids - {m});
      assert forall k :: 0 <= k < |rest| ==> rest[k] in rest && m < rest[k];
      [m] + rest
  }

  lemma NothingInEmpty(ids: seq<int>)
    ensures ids == [] || ids[0] in ids
  {
  }

  /** The first id of an ascending list is its least. */
  lemma AscendingHead(a: seq<int>, x: int)
    requires Ascending(a) && x in a
    ensures a[0] <= x && (x in a[1..] <==> x != a[0])
  {
    var k :| 0 <= k < |a| && a[k] == x;
    assert k > 0 ==> a[1..][k - 1] == x;
  }

  /** An ascending list is determined by its elements. */
  lemma {:induction false} AscendingUnique(a: seq<int>, b: seq<int>)
    requires Ascending(a) && Ascending(b)
    requires forall x :: x in a <==> x in b
    ensures a == b
  {
    if a == [] || b == [] {
      NothingInEmpty(if a == [] then b else a);
    } else {
      assert a[0] in a && b[0] in b;
      AscendingHead(a, b[0]);
      AscendingHead(b, a[0]);
      forall x
        ensures x in a[1..] <==> x in b[1..]
      {
        if x in a { AscendingHead(a, x); AscendingHead(b, x); }
        assert x in a[1..] ==> x in a;
        assert x in b[1..] ==> x in b;
      }
      AscendingUnique(a[1..], b[1..]);
      assert a == [a[0]] + a[1..] && b == [b[0]] + b[1..];
    }
  }

  lemma AscendingAppend(ids: seq<int>, id: int)
    requires Ascending(ids) && forall k :: 0 <= k < |ids| ==> ids[k] < id
    ensures Ascending(ids + [id]) && forall x :: x in ids + [id] <==> x in ids || x == id
  {
  }

  lemma InsertedAt(ids: seq<int>, at: nat, id: int, k: nat)
    requires at <= |ids| && k <= |ids|
    ensures (ids[..at] + [id] + ids[at..])[k] == if k < at then ids[k] else if k == at then id else ids[k - 1]
  {
  }

  lemma InsertedAscending(ids: seq<int>, at: nat, id: int)
    requires Ascending(ids) && id !in ids && at <= |ids|
    requires forall k :: 0 <= k < at ==> ids[k] < id
    requires at < |ids| ==> id <= ids[at]
    ensures var r := ids[..at] + [id] + ids[at..];
            Ascending(r) && forall x :: x in r <==> x in ids || x == id
  {
    var r := ids[..at] + [id] + ids[at..];
    assert at < |ids| ==> ids[at] in ids;
    assert ids == ids[..at] + ids[at..];
    forall i, j | 0 <= i < j < |r|
      ensures r[i] < r[j]
    {
      InsertedAt(ids, at, id, i);
      InsertedAt(ids, at, id, j);
    }
  }

  /** Puts an id in its place in an ascending list. */
  method InsertAscending(ids: seq<int>, id: int) returns (r: seq<int>)
    requires Ascending(ids) && id !in ids
    ensures Ascending(r) && forall x :: x in r <==> x in ids || x == id
  {
    var at := 0;
    while at < |ids| && ids[at] < id
      invariant 0 <= at <= |ids|
      invariant forall k :: 0 <= k < at ==> ids[k] < id
    {
      at := at + 1;
    }
    r := ids[..at] + [id] + ids[at..];
    InsertedAscending(ids, at, id);
  }

  /** The keys of a map, sorted. */
  method SortedKeys(keys: set<int>) returns (ids: seq<int>)
    ensures ids == Sorted(keys)
  {
    ids := [];
    var rest := keys;
    while rest != {}
      invariant rest <= keys && Ascending(ids)
      invariant forall x :: x in ids <==> x in keys - rest
      decreases |rest|
    {
      SomeElement(rest);
      var id :| id in rest;
      ids := InsertAscending(ids, id);
      rest := rest - {id};
    }
    AscendingUnique(ids, Sorted(keys));
  }

  // ---------------------------------------------------------------------
  // Normalize
  // ---------------------------------------------------------------------

  function NormalizedPorts(ports: map<int, PortMembership>, portCount: int): map<int, PortMembership> {
    map port | 1 <= port <= portCount :: if port in ports then ports[port] else Ignored
  }

  function Normalized(s: VLANState): VLANState {
    VLANState(
      s.portCount,
      map vid | vid in s.vlans :: Vlan(vid, NormalizedPorts(s.vlans[vid].ports, s.portCount)),
      s.pvids)
  }

  function Max(a: int, b: int): int {
    if a < b then b else a
  }

  method NormalizePorts(ports: map<int, PortMembership>, portCount: int) returns (r: map<int, PortMembership>)
    ensures r == NormalizedPorts(ports, portCount)
  {
    r := map[];
    for port := 1 to Max(portCount, 0) + 1
      invariant r == NormalizedPorts(ports, port - 1)
    {
      r := r[port := if port in ports then ports[port] else Ignored];
    }
    assert NormalizedPorts(ports, Max(portCount, 0)) == NormalizedPorts(ports, portCount);
  }

  /** A copy of the state in which every VLAN covers every port. */
  method Normalize(s: VLANState) returns (r: VLANState)
    ensures r == Normalized(s)
  {
    var vlans: map<int, Vlan> := map[];
    var rest := s.vlans.Keys;
    while rest != {}
      invariant rest <= s.vlans.Keys
      invariant vlans == map vid | vid in s.vlans.Keys - rest :: Normalized(s).vlans[vid]
      decreases |rest|
    {
      SomeElement(rest);
      var vid :| vid in rest;
      var ports := NormalizePorts(s.vlans[vid].ports, s.portCount);
      vlans := vlans[vid := Vlan(vid, ports)];
      rest := rest - {vid};
    }
    r := VLANState(s.portCount, vlans, s.pvids);
  }

  lemma NormalizedIdempotent(s: VLANState)
    ensures Normalized(Normalized(s)) == Normalized(s)
  {
    forall vid | vid in s.vlans
      ensures Normalized(Normalized(s)).vlans[vid] == Normalized(s).vlans[vid]
    {
      assert NormalizedPorts(NormalizedPorts(s.vlans[vid].ports, s.portCount), s.portCount)
          == NormalizedPorts(s.vlans[vid].ports, s.portCount);
    }
  }

  // ---------------------------------------------------------------------
  // Validate
  // ---------------------------------------------------------------------

  datatype ValidationError =
    | BadPortCount
    | PVIDCount
    | BadVlanID(vid: int)
    | PortOutOfRange(vid: int, port: int)
    | BadMembership(vid: int, port: int)
    | MissingPVID(port: int)
    | NoSuchPVID(port: int, pvid: int)
    | IgnoredInPVID(port: int, pvid: int)

  /** The error names something that is really wrong with the state. */
  ghost predicate Describes(s: VLANState, e: ValidationError) {
    match e
    case BadPortCount => s.portCount <= 0
    case PVIDCount => s.portCount > 0 && |s.pvids| != s.portCount
    case BadVlanID(vid) => vid in s.vlans && vid <= 0
    case PortOutOfRange(vid, port) =>
      vid in s.vlans && port in s.vlans[vid].ports && !(1 <= port <= s.portCount)
    case BadMembership(vid, port) =>
      vid in s.vlans && port in s.vlans[vid].ports && s.vlans[vid].ports[port].Unknown?
    case MissingPVID(port) => 1 <= port <= s.portCount && port !in s.pvids
    case NoSuchPVID(port, pvid) =>
      1 <= port <= s.portCount && port in s.pvids && pvid == s.pvids[port] && pvid !in s.vlans
    case IgnoredInPVID(port, pvid) =>
      && 1 <= port <= s.portCount && port in s.pvids && pvid == s.pvids[port] && pvid in s.vlans
      && MembershipIn(s, pvid, port) == Ignored
  }

  predicate ValidPorts(ports: map<int, PortMembership>, portCount: int) {
    forall port :: port in ports ==> 1 <= port <= portCount && !ports[port].Unknown?
  }

  /** The port's PVID names a VLAN that does not ignore the port. */
  predicate CarriesPVID(s: VLANState, port: int) {
    port in s.pvids && s.pvids[port] in s.vlans && MembershipIn(s, s.pvids[port], port) != Ignored
  }

  predicate ValidState(s: VLANState) {
    && s.portCount > 0
    && |s.pvids| == s.portCount
    && (forall vid :: vid in s.vlans ==> vid > 0 && ValidPorts(s.vlans[vid].ports, s.portCount))
    && (forall port :: 1 <= port <= s.portCount ==> CarriesPVID(s, port))
  }

  method ValidatePorts(s: VLANState, vid: int) returns (err: Option<ValidationError>)
    requires vid in s.vlans
    ensures err.None? <==> ValidPorts(s.vlans[vid].ports, s.portCount)
    ensures err.Some? ==> Describes(s, err.value)
  {
    var ports := s.vlans[vid].ports;
    var rest := ports.Keys;
    while rest != {}
      invariant rest <= ports.Keys
      invariant forall port :: port in ports.Keys - rest ==> 1 <= port <= s.portCount && !ports[port].Unknown?
      decreases |rest|
    {
      SomeElement(rest);
      var port :| port in rest;
      if port < 1 || port > s.portCount {
        return Some(PortOutOfRange(vid, port));
      }
      match ports[port] {
        case Unknown(_) => return Some(BadMembership(vid, port));
        case _ =>
      }
      rest := rest - {port};
    }
    return None;
  }

  method Validate(s: VLANState) returns (err: Option<ValidationError>)
    ensures err.None? <==> ValidState(s)
    ensures err.Some? ==> Describes(s, err.value)
  {
    if s.portCount <= 0 {
      return Some(BadPortCount);
    }
    if |s.pvids| != s.portCount {
      return Some(PVIDCount);
    }
    var rest := s.vlans.Keys;
    while rest != {}
      invariant rest <= s.vlans.Keys
      invariant forall vid :: vid in s.vlans.Keys - rest ==> vid > 0 && ValidPorts(s.vlans[vid].ports, s.portCount)
      decreases |rest|
    {
      SomeElement(rest);
      var vid :| vid in rest;
      if vid <= 0 {
        return Some(BadVlanID(vid));
      }
      var bad := ValidatePorts(s, vid);
      if bad.Some? {
        return bad;
      }
      rest := rest - {vid};
    }
    for port := 1 to s.portCount + 1
      invariant forall p :: 1 <= p < port ==> CarriesPVID(s, p)
    {
      assert CarriesPVID(s, port) <==>
        port in s.pvids && s.pvids[port] in s.vlans && Member(s.vlans[s.pvids[port]].ports, port) != Ignored;
      if port !in s.pvids {
        return Some(MissingPVID(port));
      }
      var pvid := s.pvids[port];
      if pvid !in s.vlans {
        return Some(NoSuchPVID(port, pvid));
      }
      if Member(s.vlans[pvid].ports, port) == Ignored {
        return Some(IgnoredInPVID(port, pvid));
      }
    }
    return None;
  }

  predicate IsPort(port: int, portCount: int) {
    1 <= port <= portCount
  }

  ghost function Ports(portCount: int): set<int> {
    set port | 1 <= port <= portCount && IsPort(port, portCount)
  }

  lemma {:induction false} PortsSize(portCount: nat)
    ensures |Ports(portCount)| == portCount
  {
    if portCount == 0 {
      assert Ports(0) == {};
    } else {
      PortsSize(portCount - 1);
      assert Ports(portCount) == Ports(portCount - 1) + {portCount};
    }
  }

  lemma SubsetOfSameSize<T>(a: set<T>, b: set<T>)
    requires a <= b && |a| == |b|
    ensures a == b
  {
    assert |b - a| == 0;
  }

  /** A valid state has exactly one PVID per port and nothing else. */
  lemma ValidPVIDs(s: VLANState)
    requires ValidState(s)
    ensures s.pvids.Keys == Ports(s.portCount)
  {
    PortsSize(s.portCount);
    assert forall port :: port in Ports(s.portCount) ==> CarriesPVID(s, port);
    SubsetOfSameSize(Ports(s.portCount), s.pvids.Keys);
  }

  // ---------------------------------------------------------------------
  // Equal
  // ---------------------------------------------------------------------

  /** The comparison of the PVID maps, with its zero-valued reads. */
  predicate PVIDsMatch(left: map<int, int>, right: map<int, int>) {
    |left| == |right| && forall key :: key in left ==> (if key in right then right[key] else 0) == left[key]
  }

  predicate PortsMatch(left: map<int, PortMembership>, right: map<int, PortMembership>) {
    |left| == |right| && forall key :: key in left ==> Member(right, key) == left[key]
  }

  /** What VLANState.Equal computes. */
  predicate EqualStates(s: VLANState, other: VLANState) {
    var left, right := Normalized(s), Normalized(other);
    && left.portCount == right.portCount
    && PVIDsMatch(left.pvids, right.pvids)
    && |left.vlans| == |right.vlans|
    && forall vid :: vid in left.vlans ==>
         vid in right.vlans && PortsMatch(left.vlans[vid].ports, right.vlans[vid].ports)
  }

  method MapsEqualInt(left: map<int, int>, right: map<int, int>) returns (b: bool)
    ensures b == PVIDsMatch(left, right)
  {
    if |left| != |right| {
      return false;
    }
    var rest := left.Keys;
    while rest != {}
      invariant rest <= left.Keys
      invariant forall key :: key in left.Keys - rest ==> (if key in right then right[key] else 0) == left[key]
      decreases |rest|
    {
      SomeElement(rest);
      var key :| key in rest;
      if (if key in right then right[key] else 0) != left[key] {
        return false;
      }
      rest := rest - {key};
    }
    return true;
  }

  method MapsEqualMembership(left: map<int, PortMembership>, right: map<int, PortMembership>) returns (b: bool)
    ensures b == PortsMatch(left, right)
  {
    if |left| != |right| {
      return false;
    }
    var rest := left.Keys;
    while rest != {}
      invariant rest <= left.Keys
      invariant forall key :: key in left.Keys - rest ==> Member(right, key) == left[key]
      decreases |rest|
    {
      SomeElement(rest);
      var key :| key in rest;
      if Member(right, key) != left[key] {
        return false;
      }
      rest := rest - {key};
    }
    return true;
  }

  method Equal(s: VLANState, other: VLANState) returns (b: bool)
    ensures b == EqualStates(s, other)
  {
    hide NormalizedPorts, PortsMatch, PVIDsMatch, Normalized;
    var left := Normalize(s);
    var right := Normalize(other);
    if left.portCount != right.portCount {
      return false;
    }
    var samePVIDs := MapsEqualInt(left.pvids, right.pvids);
    if !samePVIDs {
      return false;
    }
    if |left.vlans| != |right.vlans| {
      return false;
    }
    var rest := left.vlans.Keys;
    while rest != {}
      invariant rest <= left.vlans.Keys
      invariant forall vid :: vid in left.vlans.Keys - rest ==>
                  vid in right.vlans && PortsMatch(left.vlans[vid].ports, right.vlans[vid].ports)
      decreases |rest|
    {
      SomeElement(rest);
      var vid :| vid in rest;
      if vid !in right.vlans {
        return false;
      }
      var same := MapsEqualMembership(left.vlans[vid].ports, right.vlans[vid].ports);
      if !same {
        return false;
      }
      rest := rest - {vid};
    }
    return true;
  }

  /** The two states describe the same switch. */
  predicate SameState(s: VLANState, other: VLANState) {
    Normalized(s) == Normalized(other)
  }

  predicate NoZeroPVID(s: VLANState) {
    forall port :: port in s.pvids ==> s.pvids[port] != 0
  }

  lemma PVIDsMatchIsEquality(left: map<int, int>, right: map<int, int>)
    requires forall key :: key in left ==> left[key] != 0
    ensures PVIDsMatch(left, right) <==> left == right
  {
    if PVIDsMatch(left, right) {
      forall key | key in left
        ensures key in right && right[key] == left[key]
      {
      }
      assert |left.Keys| == |right.Keys|;
      SubsetOfSameSize(left.Keys, right.Keys);
      forall key
        ensures key in left <==> key in right
      {
        assert key in left.Keys <==> key in right.Keys;
      }
      assert left == right;
    }
  }

  lemma SameStateIsEqual(s: VLANState, other: VLANState)
    requires SameState(s, other)
    ensures EqualStates(s, other)
  {
  }

  lemma VlansMatch(left: VLANState, right: VLANState)
    requires left == Normalized(left) && right == Normalized(right) && left.portCount == right.portCount
    requires |left.vlans| == |right.vlans|
    requires forall vid :: vid in left.vlans ==>
               vid in right.vlans && PortsMatch(left.vlans[vid].ports, right.vlans[vid].ports)
    ensures left.vlans == right.vlans
  {
    hide NormalizedPorts, PortsMatch;
    forall vid | vid in left.vlans.Keys
      ensures vid in right.vlans.Keys && left.vlans[vid] == right.vlans[vid]
    {
      var l, r := left.vlans[vid], right.vlans[vid];
      assert l == Vlan(vid, NormalizedPorts(l.ports, left.portCount));
      assert r == Vlan(vid, NormalizedPorts(r.ports, left.portCount));
      NormalPortsMatch(l.ports, r.ports, left.portCount);
    }
    assert |left.vlans.Keys| == |right.vlans.Keys|;
    SubsetOfSameSize(left.vlans.Keys, right.vlans.Keys);
    assert left.vlans == right.vlans;
  }

  lemma NormalPortsMatch(left: map<int, PortMembership>, right: map<int, PortMembership>, portCount: int)
    requires left == NormalizedPorts(left, portCount) && right == NormalizedPorts(right, portCount)
    requires PortsMatch(left, right)
    ensures left == right
  {
    forall port
      ensures port in left <==> port in right
    {
    }
    assert left == right;
  }

  /** With non-zero PVIDs on the left the comparison is equality of the described switch. */
  lemma EqualIsSameState(s: VLANState, other: VLANState)
    requires NoZeroPVID(s)
    ensures EqualStates(s, other) <==> SameState(s, other)
  {
    if EqualStates(s, other) {
      NormalizedIdempotent(s);
      NormalizedIdempotent(other);
      PVIDsMatchIsEquality(s.pvids, other.pvids);
      VlansMatch(Normalized(s), Normalized(other));
    }
  }

  /** A port number outside a set of ports. */
  lemma FreshPort(ports: set<int>) returns (p: int)
    ensures p !in ports
  {
    if ports == {} {
      p := 0;
    } else {
      p := Least(ports) - 1;
    }
  }

  /**
   A zero PVID on the left matches a missing one on the right, so such a state is
   Equal to one with another port in that place: Equal decides sameness exactly for
   the states without a zero PVID.
   */
  lemma EqualDecidesSamenessIff(s: VLANState)
    ensures (forall other :: EqualStates(s, other) <==> SameState(s, other)) <==> NoZeroPVID(s)
  {
    if NoZeroPVID(s) {
      forall other
        ensures EqualStates(s, other) <==> SameState(s, other)
      {
        EqualIsSameState(s, other);
      }
    } else {
      var port :| port in s.pvids && s.pvids[port] == 0;
      var spare := FreshPort(s.pvids.Keys);
      var pvids := (map p | p in s.pvids && p != port :: s.pvids[p])[spare := 1];
      var other := s.(pvids := pvids);
      assert pvids.Keys == s.pvids.Keys - {port} + {spare};
      assert |pvids.Keys| == |s.pvids.Keys|;
      assert EqualStates(s, other);
      assert spare in other.pvids && !SameState(s, other);
    }
  }

  // ---------------------------------------------------------------------
  // Differences between two states
  // ---------------------------------------------------------------------

  ghost function AddedIDs(current: VLANState, desired: VLANState): seq<int> {
    Sorted(desired.vlans.Keys - current.vlans.Keys)
  }

  lemma {:induction false} FilterIsSorted(ids: seq<int>, kept: seq<int>, keys: set<int>, drop: set<int>)
    requires ids == Sorted(keys) && Ascending(kept)
    requires forall x :: x in kept <==> x in ids && x !in drop
    ensures kept == Sorted(keys - drop)
  {
    AscendingUnique(kept, Sorted(keys - drop));
  }

  /** The ids that are not in drop, in the order they come. */
  method KeepOthers(ids: seq<int>, drop: set<int>) returns (kept: seq<int>)
    requires Ascending(ids)
    ensures Ascending(kept)
    ensures forall x :: x in kept <==> x in ids && x !in drop
  {
    kept := [];
    for k := 0 to |ids|
      invariant Ascending(kept)
      invariant forall x :: x in kept <==> x in ids[..k] && x !in drop
      invariant forall j, l :: 0 <= j < |kept| && k <= l < |ids| ==> kept[j] < ids[l]
    {
      assert ids[..k + 1] == ids[..k] + [ids[k]];
      if ids[k] !in drop {
        AscendingAppend(kept, ids[k]);
        kept := kept + [ids[k]];
      }
    }
    assert ids[..|ids|] == ids;
  }

  /** VLANs present in desired but absent in current. */
  method AddedVLANs(current: VLANState, desired: VLANState) returns (vids: seq<int>)
    ensures vids == AddedIDs(current, desired)
  {
    var ids := SortedKeys(desired.vlans.Keys);
    vids := KeepOthers(ids, current.vlans.Keys);
    FilterIsSorted(ids, vids, desired.vlans.Keys, current.vlans.Keys);
  }

  /** VLANs present in current but absent in desired. */
  method RemovedVLANs(current: VLANState, desired: VLANState) returns (vids: seq<int>)
    ensures vids == AddedIDs(desired, current)
  {
    vids := AddedVLANs(desired, current);
  }

  /** The ports no VLAN of the state carries. */
  ghost function UncarriedPorts(s: VLANState): set<int> {
    set port | port in Ports(s.portCount) && !IsActive(s, port)
  }

  ghost predicate IsActive(s: VLANState, port: int) {
    exists vid :: vid in s.vlans && port in s.vlans[vid].ports && s.vlans[vid].ports[port] != Ignored
  }

  method ActivePorts(s: VLANState) returns (active: set<int>)
    ensures forall port :: port in active <==> IsActive(s, port)
  {
    active := {};
    var rest := s.vlans.Keys;
    while rest != {}
      invariant rest <= s.vlans.Keys
      invariant forall port :: port in active <==>
                  exists vid ::
                    vid in s.vlans.Keys - rest && port in s.vlans[vid].ports && s.vlans[vid].ports[port] != Ignored
      decreases |rest|
    {
      SomeElement(rest);
      var vid :| vid in rest;
      ghost var before, seen := active, s.vlans.Keys - rest;
      var ports := s.vlans[vid].ports;
      active := active + set port | port in ports && ports[port] != Ignored;
      rest := rest - {vid};
      forall port
        ensures port in active <==>
                  exists v :: v in s.vlans.Keys - rest && port in s.vlans[v].ports && s.vlans[v].ports[port] != Ignored
      {
        assert s.vlans.Keys - rest == seen + {vid};
      }
    }
    assert s.vlans.Keys - rest == s.vlans.Keys;
  }

  /** Ports omitted from desired membership and therefore preserved. */
  method PreservedPorts(desired: VLANState) returns (ports: seq<int>)
    ensures ports == Sorted(UncarriedPorts(desired))
  {
    var active := ActivePorts(desired);
    ports := [];
    for port := 1 to Max(desired.portCount, 0) + 1
      invariant Ascending(ports)
      invariant forall p :: p in ports <==> 1 <= p < port && p !in active
      invariant forall k :: 0 <= k < |ports| ==> ports[k] < port
    {
      if port !in active {
        AscendingAppend(ports, port);
        ports := ports + [port];
      }
    }
    assert forall p :: p in UncarriedPorts(desired) <==> IsPort(p, desired.portCount) && p !in active;
    AscendingUnique(ports, Sorted(UncarriedPorts(desired)));
  }

  /** A valid state carries every port in the VLAN of its PVID. */
  lemma ValidStateCarriesAllPorts(s: VLANState)
    requires ValidState(s) && s == Normalized(s)
    ensures UncarriedPorts(s) == {}
  {
    forall port | port in Ports(s.portCount)
      ensures IsActive(s, port)
    {
      assert CarriesPVID(s, port);
      var vlan := s.vlans[s.pvids[port]];
      assert vlan == Vlan(s.pvids[port], NormalizedPorts(vlan.ports, s.portCount));
    }
  }

  /** The removed VLANs that no preserved port's PVID still needs. */
  ghost predicate IsBlocked(current: VLANState, preserved: seq<int>, vid: int) {
    exists k :: 0 <= k < |preserved| && vid == if preserved[k] in current.pvids then current.pvids[preserved[k]] else 0
  }

  method PreserveRemovedVLANs(removed: seq<int>, current: VLANState, preserved: seq<int>) returns (filtered: seq<int>)
    requires Ascending(removed)
    ensures Ascending(filtered)
    ensures forall vid :: vid in filtered <==> vid in removed && !IsBlocked(current, preserved, vid)
  {
    if |removed| == 0 {
      return [];
    }
    var blocked: set<int> := {};
    for k := 0 to |preserved|
      invariant forall vid :: vid in blocked <==> IsBlocked(current, preserved[..k], vid)
    {
      var pvid := if preserved[k] in current.pvids then current.pvids[preserved[k]] else 0;
      BlockedSnoc(current, preserved, k);
      blocked := blocked + {pvid};
    }
    assert preserved[..|preserved|] == preserved;
    filtered := KeepOthers(removed, blocked);
  }

  lemma BlockedSnoc(current: VLANState, preserved: seq<int>, k: nat)
    requires k < |preserved|
    ensures forall vid :: IsBlocked(current, preserved[..k + 1], vid) <==>
              IsBlocked(current, preserved[..k], vid)
              || vid == (if preserved[k] in current.pvids then current.pvids[preserved[k]] else 0)
  {
    forall vid
      ensures IsBlocked(current, preserved[..k + 1], vid) <==>
                IsBlocked(current, preserved[..k], vid)
                || vid == (if preserved[k] in current.pvids then current.pvids[preserved[k]] else 0)
    {
      assert preserved[..k + 1][k] == preserved[k];
      assert forall j :: 0 <= j < k ==> preserved[..k + 1][j] == preserved[..k][j];
    }
  }

  /** The ports of each PVID, ascending. */
  ghost function Batches(pvids: map<int, int>): map<int, seq<int>> {
    map vid | vid in pvids.Values :: Sorted(PortsOf(pvids, vid))
  }

  ghost function PortsOf(pvids: map<int, int>, vid: int): set<int> {
    set port | port in pvids && pvids[port] == vid
  }

  /** PVID assignments grouped by VLAN. */
  method BatchPVIDs(s: VLANState) returns (grouped: map<int, seq<int>>)
    ensures grouped == Batches(s.pvids)
  {
    hide BatchesOf;
    grouped := map[];
    var rest := s.pvids.Keys;
    NothingBatched(s.pvids);
    assert s.pvids.Keys - rest == {};
    while rest != {}
      invariant rest <= s.pvids.Keys
      invariant BatchesOf(grouped, s.pvids, s.pvids.Keys - rest)
      decreases |rest|
    {
      SomeElement(rest);
      var port :| port in rest;
      var vid := s.pvids[port];
      ghost var done := s.pvids.Keys - rest;
      BatchIs(grouped, s.pvids, done, vid, port);
      var batch := if vid in grouped then grouped[vid] else [];
      batch := InsertAscending(batch, port);
      BatchStep(grouped, s.pvids, done, port, batch);
      grouped := grouped[vid := batch];
      rest := rest - {port};
      assert s.pvids.Keys - rest == done + {port};
    }
    assert s.pvids.Keys - rest == s.pvids.Keys;
    AllBatched(grouped, s.pvids);
  }

  /** The batches of the ports in a set. */
  ghost predicate BatchesOf(grouped: map<int, seq<int>>, pvids: map<int, int>, done: set<int>)
    requires done <= pvids.Keys
  {
    && (forall port :: port in done ==> pvids[port] in grouped)
    && (forall vid :: vid in grouped ==> grouped[vid] != [] && Ascending(grouped[vid]))
    && (forall vid, port :: vid in grouped ==> (port in grouped[vid] <==> port in done && pvids[port] == vid))
  }

  lemma NothingBatched(pvids: map<int, int>)
    ensures BatchesOf(map[], pvids, {})
  {
  }

  /** The batch a port goes to does not hold it yet. */
  lemma BatchIs(grouped: map<int, seq<int>>, pvids: map<int, int>, done: set<int>, vid: int, port: int)
    requires done <= pvids.Keys && BatchesOf(grouped, pvids, done) && port !in done
    ensures vid in grouped ==> Ascending(grouped[vid]) && port !in grouped[vid]
  {
  }

  /** One more port goes to the batch of its PVID. */
  lemma BatchStep(grouped: map<int, seq<int>>, pvids: map<int, int>, done: set<int>, port: int, batch: seq<int>)
    requires done <= pvids.Keys && BatchesOf(grouped, pvids, done) && port in pvids && port !in done
    requires Ascending(batch)
    requires forall p :: p in batch <==> (pvids[port] in grouped && p in grouped[pvids[port]]) || p == port
    ensures BatchesOf(grouped[pvids[port] := batch], pvids, done + {port})
  {
    hide Ascending;
    assert port in batch;
    var vid, next := pvids[port], grouped[pvids[port] := batch];
    forall v, p | v in next
      ensures p in next[v] <==> p in done + {port} && pvids[p] == v
    {
    }
  }

  lemma AllBatched(grouped: map<int, seq<int>>, pvids: map<int, int>)
    requires BatchesOf(grouped, pvids, pvids.Keys)
    ensures grouped == Batches(pvids)
  {
    hide Sorted, Ascending;
    var goal := Batches(pvids);
    forall vid
      ensures vid in grouped <==> vid in goal
      ensures vid in grouped ==> grouped[vid] == goal[vid]
    {
      ValuesAre(pvids, vid);
      if vid in grouped {
        assert grouped[vid][0] in grouped[vid];
        AscendingUnique(grouped[vid], Sorted(PortsOf(pvids, vid)));
      }
    }
    assert grouped == goal;
  }

  lemma ValuesAre(pvids: map<int, int>, vid: int)
    ensures vid in pvids.Values <==> exists port :: port in pvids && pvids[port] == vid
  {
    if vid in pvids.Values && forall port :: port in pvids ==> pvids[port] != vid {
      assert false;
    }
  }
}
