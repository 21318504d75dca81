/** The two renders: regenerated lines spliced into the managed bodies. */
module Render {
  import opened Wrappers
  import opened Text
  import opened TextCfg
  import opened TextEdit
  import opened VlanState
  import opened Grammar
  import opened Codec

  // ---------------------------------------------------------------------
  // Foreign lines
  // ---------------------------------------------------------------------

  /** The lines of a body that the VLAN codec does not own. */
  function ForeignLines(body: seq<string>): seq<string> {
    if body == [] then []
    else
      var line := TrimCR(body[|body| - 1]);
      ForeignLines(body[..|body| - 1]) + if IsVlanLine(line) then [] else [line]
  }

  lemma {:induction false} ForeignLinesAreDecoded(name: string, body: seq<string>)
    ensures ForeignLines(body) == DbBody(body).foreign == IfaceBody(name, body).foreign
  {
    hide ParseVlanDeclares, ParseVlanMembership, ParseVlanPVID, ParseShutdownLine, ParseFlowControlLine, IsVlanLine,
      TrimCR, TrimSpace, Fields;
    if body != [] {
      ForeignLinesAreDecoded(name, body[..|body| - 1]);
    }
  }

  method CollectForeign(tc: TextConfig, name: string) returns (foreign: seq<string>)
    requires tc == Parsed(tc.raw)
    ensures foreign == ForeignLines(BodyLines(LinesOf(tc.raw), name))
  {
    hide IsVlanLine, TrimCR, LinesOf, Parsed, BodyOf;
    var found := SectionBody(tc, name);
    if found.None? {
      return [];
    }
    var body := found.value;
    foreign := [];
    for i := 0 to |body|
      invariant foreign == ForeignLines(body[..i])
    {
      assert body[..i + 1][..i] == body[..i];
      var line := TrimCR(body[i]);
      if IsVlanLine(line) {
        continue;
      }
      foreign := foreign + [line];
    }
    assert body[..|body|] == body;
  }

  /** The unmanaged lines of every managed section. */
  method CaptureForeign(tc: TextConfig) returns (foreign: map<string, seq<string>>)
    requires tc == Parsed(tc.raw)
    ensures foreign == ForeignIn(LinesOf(tc.raw))
  {
    hide ForeignLines, BodyLines, InterfaceLabel, LinesOf, Parsed;
    ghost var lines := LinesOf(tc.raw);
    var kept := CollectForeign(tc, VLAN_DATABASE);
    foreign := map[VLAN_DATABASE := kept];
    for port := 1 to PORT_COUNT + 1
      invariant forall name :: name in foreign <==>
                  name == VLAN_DATABASE || exists p :: 1 <= p < port && name == InterfaceLabel(p)
      invariant forall name :: name in foreign ==> foreign[name] == ForeignLines(BodyLines(lines, name))
    {
      kept := CollectForeign(tc, InterfaceLabel(port));
      foreign := foreign[InterfaceLabel(port) := kept];
    }
    forall name
      ensures name in foreign <==> name in ForeignIn(lines)
    {
      ManagedNamesAre(name);
    }
    assert foreign == ForeignIn(lines);
  }

  /** The nine managed labels, in splice order. */
  function ManagedNames(): (names: seq<string>)
    ensures |names| == PORT_COUNT + 1
  {
    [VLAN_DATABASE] + seq(PORT_COUNT, k => InterfaceLabel(k + 1))
  }

  lemma ManagedNamesAre(name: string)
    ensures name in ManagedNames() <==>
            name == VLAN_DATABASE || exists p :: 1 <= p < PORT_COUNT + 1 && name == InterfaceLabel(p)
  {
    hide InterfaceLabel;
    if p :| 1 <= p < PORT_COUNT + 1 && name == InterfaceLabel(p) {
      assert ManagedNames()[p] == name;
    }
    assert ManagedNames()[0] == VLAN_DATABASE;
  }

  function ForeignIn(lines: seq<string>): map<string, seq<string>> {
    map name | name in ManagedNames() :: ForeignLines(BodyLines(lines, name))
  }

  // ---------------------------------------------------------------------
  // Generated lines
  // ---------------------------------------------------------------------

  /** A membership that is written out: VLAN 1 untagged is implied by absence. */
  predicate IsWritten(s: VLANState, vid: int, port: int)
    requires vid in s.vlans
  {
    var ports := s.vlans[vid].ports;
    port in ports && !ports[port].Ignored? && !(vid == DEFAULT_PVID && ports[port].Untagged?)
  }

  function MemberLines(s: VLANState, vid: int, n: nat): seq<string>
    requires vid in s.vlans
  {
    if n == 0 then []
    else MemberLines(s, vid, n - 1)
         + if IsWritten(s, vid, n) then [VlanMembershipLine(vid, n, s.vlans[vid].ports[n])] else []
  }

  function VlanLines(s: VLANState, vid: int): seq<string>
    requires vid in s.vlans
  {
    (if vid != DEFAULT_PVID then [VlanDeclareLine(vid)] else []) + MemberLines(s, vid, Max(s.portCount, 0))
  }

  function VlansLines(s: VLANState, vids: seq<int>): seq<string>
    requires forall k :: 0 <= k < |vids| ==> vids[k] in s.vlans
  {
    if vids == [] then [] else VlansLines(s, vids[..|vids| - 1]) + VlanLines(s, vids[|vids| - 1])
  }

  lemma VlanIDs(s: VLANState)
    ensures forall k :: 0 <= k < |Sorted(s.vlans.Keys)| ==> Sorted(s.vlans.Keys)[k] in s.vlans
  {
    assert forall k :: 0 <= k < |Sorted(s.vlans.Keys)| ==> Sorted(s.vlans.Keys)[k] in Sorted(s.vlans.Keys);
  }

  ghost function GeneratedBody(s: VLANState): seq<string> {
    VlanIDs(s);
    VlansLines(s, Sorted(s.vlans.Keys))
  }

  /** The vlan database body of a state: declarations and memberships, ascending. */
  method GenerateVlanDatabaseBody(s: VLANState) returns (out: seq<string>)
    ensures out == GeneratedBody(s)
  {
    hide VlanMembershipLine, VlanDeclareLine, Sorted;
    out := [];
    var vids := SortedKeys(s.vlans.Keys);
    VlanIDs(s);
    for k := 0 to |vids|
      invariant out == VlansLines(s, vids[..k])
    {
      assert vids[..k + 1][..k] == vids[..k];
      var vid := vids[k];
      ghost var front := out;
      if vid != DEFAULT_PVID {
        out := out + [VlanDeclareLine(vid)];
      }
      ghost var headed := out;
      var vlan := s.vlans[vid];
      for port := 1 to Max(s.portCount, 0) + 1
        invariant out == headed + MemberLines(s, vid, port - 1)
      {
        if port !in vlan.ports || vlan.ports[port].Ignored? {
          continue;
        }
        var m := vlan.ports[port];
        if vid == DEFAULT_PVID && m.Untagged? {
          continue;
        }
        out := out + [VlanMembershipLine(vid, port, m)];
      }
      assert out == front + VlanLines(s, vid);
    }
    assert vids[..|vids|] == vids;
  }

  function PVIDOf(s: VLANState, port: int): int {
    if port in s.pvids then s.pvids[port] else 0
  }

  function PVIDLines(s: VLANState, port: int): seq<string> {
    if PVIDOf(s, port) != DEFAULT_PVID then [VlanPVIDLine(PVIDOf(s, port))] else []
  }

  // ---------------------------------------------------------------------
  // Splicing all bodies
  // ---------------------------------------------------------------------

  /** One body splice after the other. */
  function ReplacedAll(lines: seq<string>, names: seq<string>, bodies: seq<seq<string>>): Option<seq<string>>
    requires |names| == |bodies|
  {
    if names == [] then Some(lines)
    else
      match ReplacedAll(lines, names[..|names| - 1], bodies[..|bodies| - 1])
      case None => None
      case Some(out) => Replaced(out, names[|names| - 1], bodies[|bodies| - 1])
  }

  ghost function VlanBodies(s: VLANState, foreign: map<string, seq<string>>): (bodies: seq<seq<string>>)
    ensures |bodies| == PORT_COUNT + 1
  {
    [LinesIn(foreign, VLAN_DATABASE) + GeneratedBody(s)]
    + seq(PORT_COUNT, k requires 0 <= k < PORT_COUNT => LinesIn(foreign, InterfaceLabel(k + 1)) + PVIDLines(s, k + 1))
  }

  /** The VLAN render of a file: its foreign lines and the state's lines. */
  ghost function VlanRendered(lines: seq<string>, s: VLANState): Option<seq<string>> {
    ReplacedAll(lines, ManagedNames(), VlanBodies(s, ForeignIn(lines)))
  }

  ghost predicate AllLineFree(bodies: seq<seq<string>>) {
    forall k :: 0 <= k < |bodies| ==> LineFree(bodies[k])
  }

  /** Splices the state's lines and the foreign lines into the nine managed bodies. */
  method RenderVLANState(editor: TextConfigEditor, s: VLANState, foreign: map<string, seq<string>>)
    returns (r: Result<string, EditError>)
    requires editor.Valid() && AllLineFree(VlanBodies(s, foreign))
    modifies editor
    ensures match ReplacedAll(old(editor.lines), ManagedNames(), VlanBodies(s, foreign))
            case None => r.Err?
            case Some(out) =>
              editor.Valid() && editor.lines == out && r == if Headed(out) then Ok(Join(out, '\n')) else Err(HeaderLost)
  {
    hide InterfaceLabel, GeneratedBody, PVIDLines, Replaced, LineFree, FileLines, Parsed, Join, LinesIn, TrimCR;
    ghost var lines, names, bodies := editor.lines, ManagedNames(), VlanBodies(s, foreign);
    var generated := GenerateVlanDatabaseBody(s);
    var dbBody := LinesIn(foreign, VLAN_DATABASE) + generated;
    assert dbBody == bodies[0];
    SpliceNext(lines, names, bodies, 0);
    var err := editor.ReplaceSectionBody(VLAN_DATABASE, dbBody);
    ReplacedOrNot(lines, VLAN_DATABASE, dbBody);
    if err.Some? {
      SpliceStops(lines, names, bodies, 1);
      return Err(err.value);
    }
    for port := 1 to PORT_COUNT + 1
      invariant editor.Valid()
      invariant ReplacedAll(lines, names[..port], bodies[..port]) == Some(editor.lines)
    {
      var body := LinesIn(foreign, InterfaceLabel(port)) + PVIDLines(s, port);
      assert body == bodies[port] && names[port] == InterfaceLabel(port);
      SpliceNext(lines, names, bodies, port);
      ReplacedOrNot(editor.lines, InterfaceLabel(port), body);
      err := editor.ReplaceSectionBody(InterfaceLabel(port), body);
      if err.Some? {
        SpliceStops(lines, names, bodies, port + 1);
        return Err(err.value);
      }
    }
    assert names[..PORT_COUNT + 1] == names && bodies[..PORT_COUNT + 1] == bodies;
    r := editor.Render();
  }

  lemma ReplacedOrNot(lines: seq<string>, name: string, body: seq<string>)
    requires FileLines(lines) && LineFree(body)
    ensures Replaced(lines, name, body).Some? ==> FileLines(Replaced(lines, name, body).value)
  {
    hide Replaced, FileLines;
    if Replaced(lines, name, body).Some? {
      ReplacedIsFile(lines, name, body);
    }
  }

  lemma SpliceNext(lines: seq<string>, names: seq<string>, bodies: seq<seq<string>>, n: nat)
    requires |names| == |bodies| && n < |names|
    ensures ReplacedAll(lines, names[..n + 1], bodies[..n + 1])
         == match ReplacedAll(lines, names[..n], bodies[..n])
            case None => None
            case Some(out) => Replaced(out, names[n], bodies[n])
    ensures ReplacedAll(lines, names[..0], bodies[..0]) == Some(lines)
  {
    hide Replaced;
    assert names[..n + 1][..n] == names[..n] && bodies[..n + 1][..n] == bodies[..n];
  }

  /** A splice that fails stops the render. */
  lemma {:induction false} SpliceStops(lines: seq<string>, names: seq<string>, bodies: seq<seq<string>>, n: nat)
    requires |names| == |bodies| && n <= |names|
    requires ReplacedAll(lines, names[..n], bodies[..n]) == None
    ensures ReplacedAll(lines, names, bodies) == None
    decreases |names| - n
  {
    hide Replaced;
    if n < |names| {
      SpliceNext(lines, names, bodies, n);
      SpliceStops(lines, names, bodies, n + 1);
    } else {
      assert names[..n] == names && bodies[..n] == bodies;
    }
  }

  // ---------------------------------------------------------------------
  // validateRenderable
  // ---------------------------------------------------------------------

  datatype RenderError =
    | UnsupportedPortCount
    | InvalidState(error: ValidationError)
    | SeveralUntagged(port: int)
    | PVIDNotUntagged(port: int)

  function UntaggedVLANs(s: VLANState, port: int): set<int> {
    set vid | vid in s.vlans && Member(s.vlans[vid].ports, port).Untagged?
  }

  /** At most one untagged VLAN, and it is the one of the PVID. */
  predicate PortRenderable(s: VLANState, port: int) {
    |UntaggedVLANs(s, port)| <= 1 && MembershipIn(s, PVIDOf(s, port), port).Untagged?
  }

  predicate Renderable(s: VLANState) {
    && s.portCount == PORT_COUNT && ValidState(s)
    && forall port :: 1 <= port <= s.portCount ==> PortRenderable(s, port)
  }

  method CountUntagged(s: VLANState, port: int) returns (untagged: nat)
    ensures untagged == |UntaggedVLANs(s, port)|
  {
    untagged := 0;
    var rest := s.vlans.Keys;
    ghost var counted: set<int> := {};
    while rest != {}
      invariant rest <= s.vlans.Keys
      invariant counted == set vid | vid in s.vlans && vid !in rest && Member(s.vlans[vid].ports, port).Untagged?
      invariant untagged == |counted|
      decreases |rest|
    {
      SomeElement(rest);
      var vid :| vid in rest;
      if Member(s.vlans[vid].ports, port).Untagged? {
        untagged := untagged + 1;
        counted := counted + {vid};
      }
      rest := rest - {vid};
    }
    assert counted == UntaggedVLANs(s, port);
  }

  /** The semantic guard in front of the VLAN render. */
  method ValidateRenderable(s: VLANState) returns (err: Option<RenderError>)
    ensures err.None? <==> Renderable(s)
    ensures err.Some? ==>
              match err.value
              case UnsupportedPortCount => s.portCount != PORT_COUNT
              case InvalidState(e) => Describes(s, e)
              case SeveralUntagged(port) => IsPortNumber(port) && |UntaggedVLANs(s, port)| > 1
              case PVIDNotUntagged(port) => IsPortNumber(port) && !MembershipIn(s, PVIDOf(s, port), port).Untagged?
  {
    hide ValidState, UntaggedVLANs;
    if s.portCount != PORT_COUNT {
      return Some(UnsupportedPortCount);
    }
    var invalid := Validate(s);
    if invalid.Some? {
      return Some(InvalidState(invalid.value));
    }
    for port := 1 to s.portCount + 1
      invariant forall p :: 1 <= p < port ==> PortRenderable(s, p)
    {
      var untagged := CountUntagged(s, port);
      assert PortRenderable(s, port) <==> untagged <= 1 && MembershipIn(s, PVIDOf(s, port), port).Untagged?;
      if untagged > 1 {
        return Some(SeveralUntagged(port));
      }
      if !MembershipIn(s, PVIDOf(s, port), port).Untagged? {
        return Some(PVIDNotUntagged(port));
      }
    }
    return None;
  }

  // ---------------------------------------------------------------------
  // The port codec
  // ---------------------------------------------------------------------

  function PortLines(ps: PortSettings): seq<string> {
    (if !ps.enabled then ["shutdown"] else []) + (if ps.flowControl then ["flow control"] else [])
  }

  datatype UnsupportedAttribute = UnsupportedAttribute(port: int, attribute: string)

  /** Only enabled and flow control have a grammar; the rest must keep their defaults. */
  predicate Supported(ps: PortSettings) {
    ps.qosPriority == "low" && ps.ingressRate == "none" && ps.egressRate == "none"
  }

  /** The first attribute of a port that has no grammar and no default; a port that is missing has none enabled. */
  function FirstUnsupported(desired: map<int, PortSettings>, port: int): Option<string> {
    if port !in desired then Some("enabled")
    else if desired[port].qosPriority != "low" then Some("qos_priority")
    else if desired[port].ingressRate != "none" then Some("ingress_rate")
    else if desired[port].egressRate != "none" then Some("egress_rate")
    else None
  }

  /** The error names the first port with such an attribute, and the attribute. */
  method ValidatePortSettings(desired: map<int, PortSettings>) returns (err: Option<UnsupportedAttribute>)
    ensures err.None? <==> forall port :: 1 <= port <= PORT_COUNT ==> port in desired && Supported(desired[port])
    ensures err.Some? ==>
              && IsPortNumber(err.value.port)
              && FirstUnsupported(desired, err.value.port) == Some(err.value.attribute)
              && forall port :: 1 <= port < err.value.port ==> FirstUnsupported(desired, port) == None
  {
    for port := 1 to PORT_COUNT + 1
      invariant forall p :: 1 <= p < port ==> p in desired && Supported(desired[p])
    {
      if port !in desired {
        return Some(UnsupportedAttribute(port, "enabled"));
      }
      var ps := desired[port];
      if ps.qosPriority != "low" {
        return Some(UnsupportedAttribute(port, "qos_priority"));
      }
      if ps.ingressRate != "none" {
        return Some(UnsupportedAttribute(port, "ingress_rate"));
      }
      if ps.egressRate != "none" {
        return Some(UnsupportedAttribute(port, "egress_rate"));
      }
    }
    return None;
  }

  /** Missing ports get factory defaults; ports outside the range are dropped. */
  method NormalizePortSettings(desired: map<int, PortSettings>) returns (norm: map<int, PortSettings>)
    ensures norm == map port | 1 <= port <= PORT_COUNT :: if port in desired then desired[port] else DEFAULT_SETTINGS
  {
    norm := map port | 1 <= port <= PORT_COUNT && IsPortNumber(port) :: DEFAULT_SETTINGS;
    var rest := desired.Keys;
    while rest != {}
      invariant rest <= desired.Keys
      invariant forall port :: port in norm <==> 1 <= port <= PORT_COUNT
      invariant forall port :: port in norm ==>
                  norm[port] == if port in desired && port !in rest then desired[port] else DEFAULT_SETTINGS
      decreases |rest|
    {
      SomeElement(rest);
      var port :| port in rest;
      rest := rest - {port};
      if port < 1 || port > PORT_COUNT {
        continue;
      }
      norm := norm[port := desired[port]];
    }
  }

  method EqualPortSettings(a: map<int, PortSettings>, b: map<int, PortSettings>) returns (same: bool)
    ensures same <==> a == b
  {
    if |a| != |b| {
      return false;
    }
    var rest := a.Keys;
    while rest != {}
      invariant rest <= a.Keys
      invariant forall port :: port in a.Keys - rest ==> port in b && a[port] == b[port]
      decreases |rest|
    {
      SomeElement(rest);
      var port :| port in rest;
      if port !in b || a[port] != b[port] {
        return false;
      }
      rest := rest - {port};
    }
    assert |a.Keys| == |b.Keys|;
    forall port | port in a.Keys
      ensures port in b.Keys && a[port] == b[port]
    {
      assert port in a.Keys - rest;
    }
    SubsetOfSameSize(a.Keys, b.Keys);
    forall port
      ensures port in a <==> port in b
    {
      assert port in a.Keys <==> port in b.Keys;
    }
    assert a == b;
    return true;
  }

  ghost function PortBody(pass: map<string, seq<string>>, desired: map<int, PortSettings>, port: int): seq<string>
    requires port in desired
  {
    LinesIn(pass, InterfaceLabel(port)) + PortLines(desired[port])
  }

  /** The first n ports' splices; sections the file lacks are left out. */
  ghost function PortsReplaced(lines: seq<string>, pass: map<string, seq<string>>,
                               desired: map<int, PortSettings>, n: nat)
    : seq<string>
    requires n <= PORT_COUNT && forall port :: 1 <= port <= PORT_COUNT ==> port in desired
  {
    if n == 0 then lines
    else
      var out := PortsReplaced(lines, pass, desired, n - 1);
      if LabelLine(lines, InterfaceLabel(n)).None? then out
      else
        match Replaced(out, InterfaceLabel(n), PortBody(pass, desired, n))
        case None => out
        case Some(next) => next
  }

  /** Every section that was there at the start is still there when its splice comes. */
  ghost predicate PortSplicesHold(lines: seq<string>, pass: map<string, seq<string>>,
                                  desired: map<int, PortSettings>, n: nat)
    requires n <= PORT_COUNT && forall port :: 1 <= port <= PORT_COUNT ==> port in desired
  {
    n > 0 ==>
      && PortSplicesHold(lines, pass, desired, n - 1)
      && (LabelLine(lines, InterfaceLabel(n)).Some? ==>
            Replaced(PortsReplaced(lines, pass, desired, n - 1), InterfaceLabel(n), PortBody(pass, desired, n)).Some?)
  }

  /** The port render of a file: its passed-through lines and the settings' lines. */
  ghost function PortRendered(lines: seq<string>, desired: map<int, PortSettings>): seq<string>
    requires forall port :: 1 <= port <= PORT_COUNT ==> port in desired
  {
    PortsReplaced(lines, PassIn(lines), desired, PORT_COUNT)
  }

  ghost function PassIn(lines: seq<string>): map<string, seq<string>> {
    map name | name in ManagedNames() :: PassOf(BodiesOf(lines), name)
  }

  ghost predicate PortsLineFree(pass: map<string, seq<string>>, desired: map<int, PortSettings>)
    requires forall port :: 1 <= port <= PORT_COUNT ==> port in desired
  {
    forall port :: 1 <= port <= PORT_COUNT ==> LineFree(PortBody(pass, desired, port))
  }

  /**
   Splices the desired port lines behind each interface's passed-through lines. It fails
   exactly when a splice finds its section gone, or when the file has no header.
   */
  method RenderPortSettings(editor: TextConfigEditor, tc: TextConfig, desired: map<int, PortSettings>,
                            pass: map<string, seq<string>>) returns (r: Result<string, EditError>)
    requires editor.Valid() && tc == Parsed(tc.raw) && editor.lines == LinesOf(tc.raw)
    requires forall port :: 1 <= port <= PORT_COUNT ==> port in desired
    requires PortsLineFree(pass, desired)
    modifies editor
    ensures r.Ok? ==> editor.Valid() && editor.lines == PortsReplaced(old(editor.lines), pass, desired, PORT_COUNT)
    ensures r.Ok? ==> Headed(editor.lines) && r.value == Join(editor.lines, '\n')
    ensures r.Ok? <==> PortSplicesHold(old(editor.lines), pass, desired, PORT_COUNT) && Headed(old(editor.lines))
  {
    hide InterfaceLabel, Replaced, LineFree, FileLines, Join, LinesIn, TrimCR, PortBody, SectionAt, LabelLine,
      PortsReplaced, PortLines, Parsed, LinesOf;
    hide Headed, PortSplicesHold;
    ghost var lines := editor.lines;
    PortsReplacedStep(lines, pass, desired, 1);
    PortSplicesStep(lines, pass, desired, 1);
    for port := 1 to PORT_COUNT + 1
      invariant editor.Valid()
      invariant editor.lines == PortsReplaced(lines, pass, desired, port - 1)
      invariant PortSplicesHold(lines, pass, desired, port - 1)
    {
      var name := InterfaceLabel(port);
      PortsReplacedStep(lines, pass, desired, port);
      PortSplicesStep(lines, pass, desired, port);
      var found := FindSection(tc, name);
      if found.None? {
        continue;
      }
      var body := LinesIn(pass, name) + PortLines(desired[port]);
      assert body == PortBody(pass, desired, port) by { PortBodyIs(pass, desired, port); }
      ReplacedOrNot(editor.lines, name, body);
      var err := editor.ReplaceSectionBody(name, body);
      if err.Some? {
        SplicesFail(lines, pass, desired, port);
        return Err(err.value);
      }
    }
    FileHasLines(lines);
    PortsKeepHeader(lines, pass, desired, PORT_COUNT);
    r := editor.Render();
  }

  lemma FileHasLines(lines: seq<string>)
    requires FileLines(lines)
    ensures lines != []
  {
    hide LineFree;
  }

  lemma PortSplicesStep(lines: seq<string>, pass: map<string, seq<string>>, desired: map<int, PortSettings>, n: nat)
    requires 1 <= n <= PORT_COUNT && forall port :: 1 <= port <= PORT_COUNT ==> port in desired
    ensures PortSplicesHold(lines, pass, desired, 0)
    ensures PortSplicesHold(lines, pass, desired, n) <==>
              && PortSplicesHold(lines, pass, desired, n - 1)
              && (LabelLine(lines, InterfaceLabel(n)).Some? ==>
                    Replaced(PortsReplaced(lines, pass, desired, n - 1), InterfaceLabel(n),
                             PortBody(pass, desired, n)).Some?)
  {
    hide InterfaceLabel, LabelLine, Replaced, PortBody, PortsReplaced;
  }

  /** One splice that fails fails the render. */
  lemma {:induction false} SplicesFail(lines: seq<string>, pass: map<string, seq<string>>,
                                       desired: map<int, PortSettings>, n: nat)
    requires n <= PORT_COUNT && forall port :: 1 <= port <= PORT_COUNT ==> port in desired
    requires !PortSplicesHold(lines, pass, desired, n)
    ensures !PortSplicesHold(lines, pass, desired, PORT_COUNT)
    decreases PORT_COUNT - n
  {
    hide InterfaceLabel, LabelLine, Replaced, PortBody, PortsReplaced, PortSplicesHold;
    if n < PORT_COUNT {
      PortSplicesStep(lines, pass, desired, n + 1);
      SplicesFail(lines, pass, desired, n + 1);
    }
  }

  /** A splice never touches the first line. */
  lemma SpliceKeepsHeader(lines: seq<string>, name: string, body: seq<string>)
    requires lines != [] && Replaced(lines, name, body).Some?
    ensures var out := Replaced(lines, name, body).value;
            out != [] && out[0] == lines[0] && (Headed(out) <==> Headed(lines))
  {
    hide LabelLine, RegionEnd, Spaced, TrimCR;
  }

  lemma {:induction false} PortsKeepHeader(lines: seq<string>, pass: map<string, seq<string>>,
                                           desired: map<int, PortSettings>, n: nat)
    requires n <= PORT_COUNT && forall port :: 1 <= port <= PORT_COUNT ==> port in desired
    requires lines != []
    ensures var out := PortsReplaced(lines, pass, desired, n);
            out != [] && out[0] == lines[0] && (Headed(out) <==> Headed(lines))
  {
    hide InterfaceLabel, LabelLine, Replaced, PortBody, PortsReplaced, Headed;
    PortsReplacedStep(lines, pass, desired, if n > 0 then n else 1);
    if n > 0 {
      PortsKeepHeader(lines, pass, desired, n - 1);
      var out := PortsReplaced(lines, pass, desired, n - 1);
      if Replaced(out, InterfaceLabel(n), PortBody(pass, desired, n)).Some? {
        SpliceKeepsHeader(out, InterfaceLabel(n), PortBody(pass, desired, n));
      }
    }
  }

  /** The VLAN splices never touch the first line. */
  lemma {:induction false} SplicesKeepHeader(lines: seq<string>, names: seq<string>, bodies: seq<seq<string>>)
    requires |names| == |bodies| && lines != [] && ReplacedAll(lines, names, bodies).Some?
    ensures var out := ReplacedAll(lines, names, bodies).value;
            out != [] && out[0] == lines[0] && (Headed(out) <==> Headed(lines))
  {
    hide Replaced, Headed;
    if names != [] {
      var n := |names| - 1;
      SplicesKeepHeader(lines, names[..n], bodies[..n]);
      SpliceKeepsHeader(ReplacedAll(lines, names[..n], bodies[..n]).value, names[n], bodies[n]);
    }
  }

  lemma PortsReplacedStep(lines: seq<string>, pass: map<string, seq<string>>, desired: map<int, PortSettings>, n: nat)
    requires 1 <= n <= PORT_COUNT && forall port :: 1 <= port <= PORT_COUNT ==> port in desired
    ensures PortsReplaced(lines, pass, desired, 0) == lines
    ensures var out := PortsReplaced(lines, pass, desired, n - 1);
            PortsReplaced(lines, pass, desired, n)
            == if LabelLine(lines, InterfaceLabel(n)).None? then out
               else if Replaced(out, InterfaceLabel(n), PortBody(pass, desired, n)).None? then out
               else Replaced(out, InterfaceLabel(n), PortBody(pass, desired, n)).value
  {
    hide InterfaceLabel, LabelLine, Replaced, PortBody;
  }

  lemma PortBodyIs(pass: map<string, seq<string>>, desired: map<int, PortSettings>, port: int)
    requires port in desired
    ensures PortBody(pass, desired, port) == LinesIn(pass, InterfaceLabel(port)) + PortLines(desired[port])
  {
  }
}
