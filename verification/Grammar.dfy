/**
 The line grammar of the managed sections: the templates the two codecs read and
 write, and what each line of a section body contributes to the decode.
 */
module Grammar {
  import opened Wrappers
  import opened Text
  import opened VlanState

  const VLAN_DATABASE := "vlan database"
  const PORT_COUNT := 8
  const DEFAULT_PVID := 1

  function InterfaceLabel(port: int): string {
    "interface 0/" + Itoa(port)
  }

  // ---------------------------------------------------------------------
  // Settings, members, issues
  // ---------------------------------------------------------------------

  datatype PortSettings = PortSettings(
    enabled: bool, flowControl: bool, qosPriority: string, ingressRate: string, egressRate: string)

  const DEFAULT_SETTINGS := PortSettings(true, false, "low", "none", "none")

  /** One membership fact of the database. */
  datatype VlanMember = VlanMember(vid: int, port: int, m: PortMembership)

  datatype Reason = PortOutsideRange | NoDatabaseTemplate | NoPVIDTemplate | NeverDeclared

  datatype Issue =
    | MissingSection(name: string)
    | BadLine(section: string, line: string, reason: Reason)

  // ---------------------------------------------------------------------
  // Templates, written
  // ---------------------------------------------------------------------

  function MembershipWord(m: PortMembership): string {
    match m
    case Ignored => "ignored"
    case Untagged => "untagged"
    case Tagged => "tagged"
    case Unknown(text) => text
  }

  function VlanDeclareLine(vid: int): string {
    "vlan " + Itoa(vid)
  }

  function VlanMembershipLine(vid: int, port: int, m: PortMembership): string {
    "vlan " + Itoa(vid) + " port 0/" + Itoa(port) + " " + MembershipWord(m)
  }

  function VlanPVIDLine(vid: int): string {
    "vlan pvid " + Itoa(vid)
  }

  // ---------------------------------------------------------------------
  // Templates, read
  // ---------------------------------------------------------------------

  function PositiveID(part: string): Option<int> {
    match Atoi(part)
    case None => None
    case Some(id) => if id > 0 then Some(id) else None
  }

  function ParseIDs(parts: seq<string>): Option<seq<int>> {
    if parts == [] then Some([])
    else
      match PositiveID(TrimSpace(parts[0]))
      case None => None
      case Some(id) =>
        match ParseIDs(parts[1..])
        case None => None
        case Some(ids) => Some([id] + ids)
  }

  /** "vlan <id>[,<id>...]" */
  function ParseVlanDeclares(fields: seq<string>): Option<seq<int>> {
    if |fields| != 2 || fields[0] != "vlan" then None else ParseIDs(Split(fields[1], ','))
  }

  /** "vlan <id> port 0/<port> untagged|tagged" */
  function ParseVlanMembership(fields: seq<string>): Option<VlanMember> {
    if |fields| != 5 || fields[0] != "vlan" || fields[2] != "port" || !("0/" <= fields[3]) then None
    else
      match PositiveID(fields[1])
      case None => None
      case Some(vid) =>
        match PositiveID(fields[3][2..])
        case None => None
        case Some(port) =>
          if fields[4] == "untagged" then Some(VlanMember(vid, port, Untagged))
          else if fields[4] == "tagged" then Some(VlanMember(vid, port, Tagged))
          else None
  }

  /** "vlan pvid <id>" */
  function ParseVlanPVID(fields: seq<string>): Option<int> {
    if |fields| != 3 || fields[0] != "vlan" || fields[1] != "pvid" then None else PositiveID(fields[2])
  }

  predicate ParseShutdownLine(fields: seq<string>) {
    fields == ["shutdown"]
  }

  /** "flow control" or "no flow control", as the setting it leads to. */
  function ParseFlowControlLine(fields: seq<string>): Option<bool> {
    if fields == ["flow", "control"] then Some(true)
    else if fields == ["no", "flow", "control"] then Some(false)
    else None
  }

  /** The VLAN codec owns every line that starts with the word vlan and a space. */
  predicate IsVlanLine(line: string) {
    "vlan " <= TrimSpace(line)
  }

  // ---------------------------------------------------------------------
  // What a line of the vlan database says
  // ---------------------------------------------------------------------

  datatype DbFacts = DbFacts(
    foreign: seq<string>, declared: seq<int>, members: seq<VlanMember>, saw: bool, issues: seq<Issue>)

  const NO_DB := DbFacts([], [], [], false, [])

  function DbPlus(a: DbFacts, b: DbFacts): DbFacts {
    DbFacts(a.foreign + b.foreign, a.declared + b.declared, a.members + b.members, a.saw || b.saw, a.issues + b.issues)
  }

  function DbLine(raw: string): DbFacts {
    var line := TrimCR(raw);
    if !IsVlanLine(line) then NO_DB.(foreign := [line])
    else
      match ParseVlanDeclares(Fields(line))
      case Some(vids) => NO_DB.(declared := vids, saw := true)
      case None =>
        match ParseVlanMembership(Fields(line))
        case Some(m) =>
          if 1 <= m.port <= PORT_COUNT then NO_DB.(members := [m], saw := true)
          else NO_DB.(issues := [BadLine(VLAN_DATABASE, TrimSpace(line), PortOutsideRange)])
        case None => NO_DB.(issues := [BadLine(VLAN_DATABASE, TrimSpace(line), NoDatabaseTemplate)])
  }

  function DbBody(body: seq<string>): DbFacts {
    if body == [] then NO_DB else DbPlus(DbBody(body[..|body| - 1]), DbLine(body[|body| - 1]))
  }

  lemma {:induction false} DbBodyConcat(a: seq<string>, b: seq<string>)
    ensures DbBody(a + b) == DbPlus(DbBody(a), DbBody(b))
  {
    hide DbLine;
    if b == [] {
      assert a + b == a;
    } else {
      DbBodyConcat(a, b[..|b| - 1]);
      assert (a + b)[..|a + b| - 1] == a + b[..|b| - 1];
      DbPlusAssociative(DbBody(a), DbBody(b[..|b| - 1]), DbLine(b[|b| - 1]));
    }
  }

  lemma DbPlusAssociative(a: DbFacts, b: DbFacts, c: DbFacts)
    ensures DbPlus(DbPlus(a, b), c) == DbPlus(a, DbPlus(b, c))
  {
    assert DbPlus(DbPlus(a, b), c).foreign == DbPlus(a, DbPlus(b, c)).foreign;
    assert DbPlus(DbPlus(a, b), c).declared == DbPlus(a, DbPlus(b, c)).declared;
    assert DbPlus(DbPlus(a, b), c).members == DbPlus(a, DbPlus(b, c)).members;
    assert DbPlus(DbPlus(a, b), c).issues == DbPlus(a, DbPlus(b, c)).issues;
  }

  lemma DbSingle(line: string)
    ensures DbBody([line]) == DbLine(line)
  {
    hide DbLine;
    assert [line][..0] == [];
  }

  // ---------------------------------------------------------------------
  // What a line of an interface body says
  // ---------------------------------------------------------------------

  datatype IfaceFacts = IfaceFacts(
    foreign: seq<string>, pass: seq<string>, pvid: Option<int>, shut: bool, flow: Option<bool>, issues: seq<Issue>)

  const NO_IFACE := IfaceFacts([], [], None, false, None, [])

  function Latest<T>(first: Option<T>, second: Option<T>): Option<T> {
    if second.Some? then second else first
  }

  function IfacePlus(a: IfaceFacts, b: IfaceFacts): IfaceFacts {
    IfaceFacts(a.foreign + b.foreign, a.pass + b.pass, Latest(a.pvid, b.pvid), a.shut || b.shut,
               Latest(a.flow, b.flow), a.issues + b.issues)
  }

  function IfaceLine(name: string, raw: string): IfaceFacts {
    var line := TrimCR(raw);
    if IsVlanLine(line) then
      match ParseVlanPVID(Fields(line))
      case Some(vid) => NO_IFACE.(pass := [line], pvid := Some(vid))
      case None => NO_IFACE.(pass := [line], issues := [BadLine(name, TrimSpace(line), NoPVIDTemplate)])
    else if ParseShutdownLine(Fields(line)) then NO_IFACE.(foreign := [line], shut := true)
    else
      match ParseFlowControlLine(Fields(line))
      case Some(on) => NO_IFACE.(foreign := [line], flow := Some(on))
      case None => NO_IFACE.(foreign := [line], pass := [line])
  }

  function IfaceBody(name: string, body: seq<string>): IfaceFacts {
    if body == [] then NO_IFACE
    else IfacePlus(IfaceBody(name, body[..|body| - 1]), IfaceLine(name, body[|body| - 1]))
  }

  lemma {:induction false} IfaceBodyConcat(name: string, a: seq<string>, b: seq<string>)
    ensures IfaceBody(name, a + b) == IfacePlus(IfaceBody(name, a), IfaceBody(name, b))
  {
    hide IfaceLine;
    if b == [] {
      assert a + b == a;
    } else {
      IfaceBodyConcat(name, a, b[..|b| - 1]);
      assert (a + b)[..|a + b| - 1] == a + b[..|b| - 1];
      IfacePlusAssociative(IfaceBody(name, a), IfaceBody(name, b[..|b| - 1]), IfaceLine(name, b[|b| - 1]));
    }
  }

  lemma IfacePlusAssociative(a: IfaceFacts, b: IfaceFacts, c: IfaceFacts)
    ensures IfacePlus(IfacePlus(a, b), c) == IfacePlus(a, IfacePlus(b, c))
  {
    assert IfacePlus(IfacePlus(a, b), c).foreign == IfacePlus(a, IfacePlus(b, c)).foreign;
    assert IfacePlus(IfacePlus(a, b), c).pass == IfacePlus(a, IfacePlus(b, c)).pass;
    assert IfacePlus(IfacePlus(a, b), c).issues == IfacePlus(a, IfacePlus(b, c)).issues;
  }

  lemma IfaceSingle(name: string, line: string)
    ensures IfaceBody(name, [line]) == IfaceLine(name, line)
  {
    hide IfaceLine;
    assert [line][..0] == [];
  }

  // ---------------------------------------------------------------------
  // The written templates are read back
  // ---------------------------------------------------------------------

  predicate IsVid(vid: int) {
    0 < vid && IsGoInt(vid)
  }

  lemma IDWord(vid: int)
    requires IsVid(vid)
    ensures PositiveID(Itoa(vid)) == Some(vid)
    ensures Itoa(vid) != "" && SpaceFree(Itoa(vid)) && '\n' !in Itoa(vid) && ',' !in Itoa(vid)
  {
    AtoiOfItoa(vid);
    ItoaWord(vid);
  }

  /** A phrase of visible words is its own trimmed form, and its fields are the words. */
  lemma PhraseLine(words: seq<string>)
    requires |words| >= 2 && words[0] == "vlan"
    requires forall w :: w in words ==> w != "" && SpaceFree(w) && '\n' !in w
    ensures var line := Phrase(words);
            TrimCR(line) == line && TrimSpace(line) == line && Fields(line) == words && IsVlanLine(line)
            && '\n' !in line
  {
    FieldsOfPhrase(words);
    PhraseEnds(words);
    var line, rest := Phrase(words), Phrase(words[1..]);
    assert line == words[0] + " " + rest;
    hide Phrase, Fields, SpaceFree;
    VlanInFront(rest);
    TrimSpaceOfTrimmed(line);
    hide TrimSpace, TrimCR;
  }

  lemma VlanInFront(rest: string)
    ensures var line := "vlan" + " " + rest; "vlan " <= line && line[0] == 'v' && !IsSpace(line[0])
  {
  }

  lemma {:induction false} PhraseEnds(words: seq<string>)
    requires words != [] && forall w :: w in words ==> w != "" && SpaceFree(w) && '\n' !in w
    ensures Phrase(words) != "" && !IsSpace(Phrase(words)[|Phrase(words)| - 1]) && '\n' !in Phrase(words)
  {
    var w := words[0];
    assert w in words;
    if |words| > 1 {
      assert forall w :: w in words[1..] ==> w in words;
      PhraseEnds(words[1..]);
    }
  }

  lemma DeclareLineRead(vid: int)
    requires IsVid(vid)
    ensures DbLine(VlanDeclareLine(vid)) == NO_DB.(declared := [vid], saw := true)
    ensures var line := VlanDeclareLine(vid);
            TrimCR(line) == line && TrimSpace(line) == line && IsVlanLine(line) && '\n' !in line
  {
    IDWord(vid);
    var id := Itoa(vid);
    var words := ["vlan", id];
    assert VlanDeclareLine(vid) == Phrase(words) by {
      hide Itoa;
      assert Phrase(words[1..]) == id;
      assert "vlan" + " " == "vlan ";
    }
    hide Itoa, Phrase, TrimSpace, TrimCR, Fields, IsVlanLine, PositiveID;
    PhraseLine(words);
    ReadDeclare(vid, id);
  }

  lemma ReadDeclare(vid: int, id: string)
    requires PositiveID(id) == Some(vid) && ',' !in id && id != "" && SpaceFree(id)
    ensures ParseVlanDeclares(["vlan", id]) == Some([vid])
  {
    hide PositiveID;
    SplitOfPiece(id, ',');
    assert TrimSpace(id) == id by {
      assert !IsSpace(id[0]) && !IsSpace(id[|id| - 1]);
      TrimSpaceOfTrimmed(id);
    }
    hide TrimSpace, Split;
    assert [id][1..] == [];
    assert ParseIDs([]) == Some([]);
    assert ParseIDs([id]) == Some([vid] + []);
    assert [vid] + [] == [vid];
  }

  lemma MembershipLineRead(vid: int, port: int, m: PortMembership)
    requires IsVid(vid) && 1 <= port <= PORT_COUNT && (m.Tagged? || m.Untagged?)
    ensures DbLine(VlanMembershipLine(vid, port, m)) == NO_DB.(members := [VlanMember(vid, port, m)], saw := true)
    ensures var line := VlanMembershipLine(vid, port, m);
            TrimCR(line) == line && TrimSpace(line) == line && IsVlanLine(line) && '\n' !in line
  {
    IDWord(vid);
    IDWord(port);
    var id, p, word := Itoa(vid), Itoa(port), MembershipWord(m);
    var words := ["vlan", id, "port", "0/" + p, word];
    hide Itoa, TrimSpace, TrimCR, Fields, IsVlanLine, PositiveID;
    MembershipPhrase(id, p, word);
    WordsAreWords(id, p, word);
    PhraseLine(words);
    ReadMembership(vid, port, m, id, p);
  }

  lemma WordsAreWords(id: string, p: string, word: string)
    requires id != "" && SpaceFree(id) && '\n' !in id && p != "" && SpaceFree(p) && '\n' !in p
    requires word == "tagged" || word == "untagged"
    ensures forall w :: w in ["vlan", id, "port", "0/" + p, word] ==> w != "" && SpaceFree(w) && '\n' !in w
  {
    var named := "0/" + p;
    assert named[0] == '0' && named[1] == '/' && named[2..] == p;
    forall i | 0 <= i < |named|
      ensures !IsSpace(named[i]) && named[i] != '\n'
    {
      assert i >= 2 ==> named[i] == p[i - 2];
    }
  }

  lemma MembershipPhrase(id: string, p: string, word: string)
    ensures Phrase(["vlan", id, "port", "0/" + p, word]) == "vlan " + id + " port 0/" + p + " " + word
  {
    var words := ["vlan", id, "port", "0/" + p, word];
    assert words[1..] == [id, "port", "0/" + p, word];
    assert words[1..][1..] == ["port", "0/" + p, word];
    assert words[1..][1..][1..] == ["0/" + p, word];
    assert words[1..][1..][1..][1..] == [word];
    assert Phrase([word]) == word;
    assert Phrase(["0/" + p, word]) == "0/" + p + " " + word;
    assert Phrase(["port", "0/" + p, word]) == "port" + " " + ("0/" + p + " " + word);
    assert Phrase([id, "port", "0/" + p, word]) == id + " " + ("port" + " " + ("0/" + p + " " + word));
    assert Phrase(words) == "vlan" + " " + (id + " " + ("port" + " " + ("0/" + p + " " + word)));
  }

  lemma ReadMembership(vid: int, port: int, m: PortMembership, id: string, p: string)
    requires PositiveID(id) == Some(vid) && PositiveID(p) == Some(port) && (m.Tagged? || m.Untagged?)
    ensures var words := ["vlan", id, "port", "0/" + p, MembershipWord(m)];
            ParseVlanDeclares(words) == None && ParseVlanMembership(words) == Some(VlanMember(vid, port, m))
  {
    hide PositiveID;
    assert ("0/" + p)[2..] == p;
    assert "tagged"[0] != "untagged"[0];
  }

  lemma PVIDLineRead(name: string, vid: int)
    requires IsVid(vid)
    ensures IfaceLine(name, VlanPVIDLine(vid)) == NO_IFACE.(pass := [VlanPVIDLine(vid)], pvid := Some(vid))
    ensures var line := VlanPVIDLine(vid);
            TrimCR(line) == line && TrimSpace(line) == line && IsVlanLine(line) && '\n' !in line
  {
    IDWord(vid);
    var id := Itoa(vid);
    var words := ["vlan", "pvid", id];
    hide Itoa, TrimSpace, TrimCR, Fields, IsVlanLine, PositiveID, Phrase;
    PVIDPhrase(id);
    assert words[0] == "vlan";
    PhraseLine(words);
    ReadPVID(vid, id);
  }

  lemma PVIDPhrase(id: string)
    ensures Phrase(["vlan", "pvid", id]) == "vlan pvid " + id
  {
    var words := ["vlan", "pvid", id];
    assert words[1..] == ["pvid", id] && words[1..][1..] == [id];
    assert Phrase([id]) == id;
    assert Phrase(["pvid", id]) == "pvid" + " " + id;
    assert Phrase(words) == "vlan" + " " + ("pvid" + " " + id);
  }

  lemma ReadPVID(vid: int, id: string)
    requires PositiveID(id) == Some(vid)
    ensures ParseVlanPVID(["vlan", "pvid", id]) == Some(vid)
  {
    hide PositiveID;
  }
}
