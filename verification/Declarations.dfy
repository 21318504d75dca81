/**
 Declarations of several VLANs in one line, the form a switch serves: they say what one
 line per VLAN says, and a database that is regrouped this way decodes as before.
 */
module Declarations {
  import opened Wrappers
  import opened Text
  import opened VlanState
  import opened Grammar
  import opened Codec
  import opened Render
  import opened RenderFrame
  import opened BodyFacts

  // ---------------------------------------------------------------------
  // One line for several VLANs
  // ---------------------------------------------------------------------

  predicate AreVids(vids: seq<int>) {
    forall k :: 0 <= k < |vids| ==> IsVid(vids[k])
  }

  function IDWords(vids: seq<int>): seq<string> {
    if vids == [] then [] else [Itoa(vids[0])] + IDWords(vids[1..])
  }

  /** "vlan 10,99" */
  function CombinedLine(vids: seq<int>): string {
    "vlan " + Join(IDWords(vids), ',')
  }

  function DeclareLines(vids: seq<int>): seq<string> {
    if vids == [] then [] else [VlanDeclareLine(vids[0])] + DeclareLines(vids[1..])
  }

  /** A word without white space, line breaks or commas. */
  predicate IsIDWord(word: string) {
    word != "" && SpaceFree(word) && '\n' !in word && ',' !in word
  }

  lemma {:induction false} IDsRead(vids: seq<int>)
    requires AreVids(vids)
    ensures |IDWords(vids)| == |vids| && forall w :: w in IDWords(vids) ==> IsIDWord(w)
    ensures ParseIDs(IDWords(vids)) == Some(vids)
  {
    hide Itoa, PositiveID;
    if vids != [] {
      IDsRead(vids[1..]);
      IDWord(vids[0]);
      TrimmedWord(Itoa(vids[0]));
      var words := IDWords(vids);
      assert words[1..] == IDWords(vids[1..]);
      assert vids == [vids[0]] + vids[1..];
    }
  }

  lemma TrimmedWord(word: string)
    requires word != "" && SpaceFree(word)
    ensures TrimSpace(word) == word
  {
    assert !IsSpace(word[0]) && !IsSpace(word[|word| - 1]);
    TrimSpaceOfTrimmed(word);
    hide TrimSpace;
  }

  lemma {:induction false} JoinedWord(words: seq<string>)
    requires words != [] && forall w :: w in words ==> IsIDWord(w)
    ensures var s := Join(words, ','); s != "" && SpaceFree(s) && '\n' !in s
  {
    assert words[0] in words;
    if |words| > 1 {
      assert forall w :: w in words[1..] ==> w in words;
      JoinedWord(words[1..]);
    }
  }

  /** A line with several ids declares exactly these VLANs, in this order, and nothing is wrong with it. */
  lemma CombinedLineRead(vids: seq<int>)
    requires vids != [] && AreVids(vids)
    ensures DbLine(CombinedLine(vids)) == NO_DB.(declared := vids, saw := true)
    ensures var line := CombinedLine(vids); TrimCR(line) == line && IsVlanLine(line) && '\n' !in line
  {
    IDsRead(vids);
    var list := Join(IDWords(vids), ',');
    JoinedWord(IDWords(vids));
    SplitOfJoin(IDWords(vids), ',');
    hide IDWords, Join, Split, TrimSpace, TrimCR, Fields, IsVlanLine, ParseIDs;
    var words := ["vlan", list];
    assert CombinedLine(vids) == Phrase(words) by {
      assert words[1..] == [list] && Phrase(words[1..]) == list;
      assert "vlan" + " " == "vlan ";
    }
    hide Phrase;
    PhraseLine(words);
  }

  lemma {:induction false} DeclareLinesRead(vids: seq<int>)
    requires AreVids(vids)
    ensures DbBody(DeclareLines(vids)) == NO_DB.(declared := vids, saw := vids != [])
  {
    hide DbLine, DbBody, VlanDeclareLine, TrimCR, TrimSpace;
    if vids == [] {
      NothingSaid();
    } else {
      DeclareLinesRead(vids[1..]);
      DeclareLineRead(vids[0]);
      DbSingle(VlanDeclareLine(vids[0]));
      DbBodyConcat([VlanDeclareLine(vids[0])], DeclareLines(vids[1..]));
      assert vids == [vids[0]] + vids[1..];
    }
  }

  lemma NothingSaid()
    ensures DbBody([]) == NO_DB
  {
  }

  /** Wherever it stands, one combined line says what one line per VLAN says. */
  lemma CombinedSays(front: seq<string>, vids: seq<int>, rest: seq<string>)
    requires vids != [] && AreVids(vids)
    ensures DbBody(front + [CombinedLine(vids)] + rest) == DbBody(front + DeclareLines(vids) + rest)
  {
    hide DbLine, DbBody, CombinedLine, DeclareLines, TrimCR, IsVlanLine;
    CombinedLineRead(vids);
    DbSingle(CombinedLine(vids));
    DeclareLinesRead(vids);
    DbBodyConcat(front, [CombinedLine(vids)]);
    DbBodyConcat(front + [CombinedLine(vids)], rest);
    DbBodyConcat(front, DeclareLines(vids));
    DbBodyConcat(front + DeclareLines(vids), rest);
  }

  /** The database line "vlan 10,99". */
  lemma TenAndNinetyNine()
    ensures DbLine("vlan 10,99") == NO_DB.(declared := [10, 99], saw := true)
  {
    assert CombinedLine([10, 99]) == "vlan 10,99" by {
      assert Itoa(10) == "10" && Itoa(99) == "99";
      hide Itoa;
      assert [10, 99][1..] == [99] && [99][1..] == [];
      assert IDWords([10, 99]) == ["10", "99"];
      assert ["10", "99"][1..] == ["99"];
    }
    hide CombinedLine, DbLine;
    CombinedLineRead([10, 99]);
  }

  // ---------------------------------------------------------------------
  // A regrouped database
  // ---------------------------------------------------------------------

  /** The VLANs a line declares. */
  function DeclaredBy(line: string): seq<int> {
    DbLine(line).declared
  }

  /** The lines that declare nothing. */
  function Others(body: seq<string>): seq<string> {
    if body == [] then []
    else Others(body[..|body| - 1]) + if DeclaredBy(body[|body| - 1]) == [] then [body[|body| - 1]] else []
  }

  ghost predicate Declares(body: seq<string>, vid: int) {
    exists line :: line in body && vid in DeclaredBy(line)
  }

  /** The same other lines in the same order, and the same VLANs declared, however they are grouped and wherever. */
  ghost predicate Regrouped(body: seq<string>, other: seq<string>) {
    Others(body) == Others(other) && forall vid :: Declares(body, vid) <==> Declares(other, vid)
  }

  lemma {:induction false} OthersConcat(a: seq<string>, b: seq<string>)
    ensures Others(a + b) == Others(a) + Others(b)
  {
    hide DbLine;
    if b == [] {
      assert a + b == a;
    } else {
      OthersConcat(a, b[..|b| - 1]);
      assert (a + b)[..|a + b| - 1] == a + b[..|b| - 1];
    }
  }

  lemma SomeID(parts: seq<string>)
    requires parts != [] && ParseIDs(parts).Some?
    ensures ParseIDs(parts).value != []
  {
    hide PositiveID, TrimSpace;
  }

  /** A line declares, lists a member, or says nothing about VLANs: a declaration says nothing else. */
  lemma LineSaw(line: string)
    ensures var facts := DbLine(line);
            && (facts.saw <==> facts.declared != [] || facts.members != [])
            && (facts.declared != [] ==> facts == NO_DB.(declared := facts.declared, saw := true))
  {
    var fields := Fields(TrimCR(line));
    if ParseVlanDeclares(fields).Some? {
      SomeID(Split(fields[1], ','));
    }
    hide TrimCR, TrimSpace, Fields, IsVlanLine, ParseVlanMembership, ParseIDs, Split;
  }

  /** What a body says is what its other lines say, and what it declares. */
  lemma BodySaw(body: seq<string>)
    ensures var facts, rest := DbBody(body), DbBody(Others(body));
            && facts.foreign == rest.foreign && facts.members == rest.members && facts.issues == rest.issues
            && (facts.saw <==> facts.declared != [] || facts.members != [])
    ensures forall vid :: vid in DbBody(body).declared <==> Declares(body, vid)
  {
    hide *;
    BodySplits(body);
    forall vid
      ensures vid in DbBody(body).declared <==> Declares(body, vid)
    {
      BodyDeclares(body, vid);
    }
  }

  lemma {:induction false} BodySplits(body: seq<string>)
    ensures var facts, rest := DbBody(body), DbBody(Others(body));
            && facts.foreign == rest.foreign && facts.members == rest.members && facts.issues == rest.issues
            && (facts.saw <==> facts.declared != [] || facts.members != [])
  {
    hide DbLine;
    if body != [] {
      var n := |body| - 1;
      BodySplits(body[..n]);
      LineSaw(body[n]);
      if DeclaredBy(body[n]) == [] {
        DbBodyConcat(Others(body[..n]), [body[n]]);
        DbSingle(body[n]);
      } else {
        assert Others(body) == Others(body[..n]);
      }
    }
  }

  lemma {:induction false} BodyDeclares(body: seq<string>, vid: int)
    ensures vid in DbBody(body).declared <==> Declares(body, vid)
  {
    hide DbLine;
    if body != [] {
      var n := |body| - 1;
      BodyDeclares(body[..n], vid);
      assert body == body[..n] + [body[n]];
      assert Declares(body, vid) <==> Declares(body[..n], vid) || vid in DeclaredBy(body[n]);
    }
  }

  /** A regrouped database has the same facts, up to the order of the declarations. */
  lemma RegroupedSays(body: seq<string>, other: seq<string>)
    requires Regrouped(body, other)
    ensures var a, b := DbBody(body), DbBody(other);
            && a.foreign == b.foreign && a.members == b.members && a.issues == b.issues && a.saw == b.saw
            && forall vid :: vid in a.declared <==> vid in b.declared
  {
    hide DbBody, DbLine, Others;
    BodySaw(body);
    BodySaw(other);
    var a, b := DbBody(body), DbBody(other);
    assert forall vid :: vid in a.declared <==> vid in b.declared;
    SameEmptiness(a.declared, b.declared);
  }

  lemma SameEmptiness(a: seq<int>, b: seq<int>)
    requires forall vid :: vid in a <==> vid in b
    ensures a == [] <==> b == []
  {
    if a == [] && b != [] {
      OneIn(b);
    }
    if b == [] && a != [] {
      OneIn(a);
    }
  }

  lemma OneIn(a: seq<int>)
    requires a != []
    ensures exists x: int :: x in a
  {
    var x := a[0];
    assert x in a;
  }

  /** Bodies as a switch may serve them back: the same, but for the grouping of the declarations. */
  ghost predicate ServedAs(b: ManagedBodies, served: ManagedBodies) {
    served.hasDatabase == b.hasDatabase && served.interfaces == b.interfaces && Regrouped(b.database, served.database)
  }

  lemma ServedAsIs(b: ManagedBodies)
    ensures ServedAs(b, b)
  {
  }

  /** They decode to the same state, the same settings and the same errors. */
  lemma ServedDecodes(b: ManagedBodies, served: ManagedBodies)
    requires ServedAs(b, served)
    ensures DecodedState(served) == DecodedState(b) && DecodedSettings(served) == DecodedSettings(b)
    ensures DecodeIssues(served) == DecodeIssues(b)
  {
    hide *;
    ServedFacts(b, served);
    SamePorts(b, served);
    SamePortIssues(b, served, PORT_COUNT);
    FactsDecode(b, served);
  }

  lemma ServedFacts(b: ManagedBodies, served: ManagedBodies)
    requires ServedAs(b, served)
    ensures served.hasDatabase == b.hasDatabase && served.interfaces == b.interfaces
    ensures var f, g := DbBody(b.database), DbBody(served.database);
            f.issues == g.issues && DeclaredVLANs(f) == DeclaredVLANs(g) && AllMembers(f) == AllMembers(g)
  {
    RegroupedSays(b.database, served.database);
    hide DbBody, Regrouped, DefaultMembers;
    SameFacts(DbBody(b.database), DbBody(served.database));
  }

  lemma SameFacts(f: DbFacts, g: DbFacts)
    requires f.members == g.members && f.saw == g.saw && forall vid :: vid in f.declared <==> vid in g.declared
    ensures DeclaredVLANs(f) == DeclaredVLANs(g) && AllMembers(f) == AllMembers(g)
  {
    hide DefaultMembers;
    forall vid
      ensures vid in DeclaredVLANs(f) <==> vid in DeclaredVLANs(g)
    {
    }
  }

  lemma SamePorts(b: ManagedBodies, served: ManagedBodies)
    requires served.interfaces == b.interfaces
    ensures DecodedPVIDs(served) == DecodedPVIDs(b) && DecodedSettings(served) == DecodedSettings(b)
  {
    hide IfaceBody, InterfaceLabel;
    assert forall port :: IsPortNumber(port) ==> PortFacts(served, port) == PortFacts(b, port);
    assert DecodedPVIDs(served) == DecodedPVIDs(b);
    assert DecodedSettings(served) == DecodedSettings(b);
  }

  lemma FactsDecode(b: ManagedBodies, served: ManagedBodies)
    requires served.hasDatabase == b.hasDatabase && DecodedPVIDs(served) == DecodedPVIDs(b)
    requires PortIssues(served, PORT_COUNT) == PortIssues(b, PORT_COUNT)
    requires var f, g := DbBody(b.database), DbBody(served.database);
             f.issues == g.issues && DeclaredVLANs(f) == DeclaredVLANs(g) && AllMembers(f) == AllMembers(g)
    ensures DecodedState(served) == DecodedState(b) && DecodeIssues(served) == DecodeIssues(b)
  {
    hide DbBody, PortIssues, Undeclared, DeclaredVLANs, AllMembers, Realized, InferredAccess, InferredVLAN1, PortFacts;
  }

  lemma {:induction false} SamePortIssues(b: ManagedBodies, served: ManagedBodies, n: nat)
    requires served.interfaces == b.interfaces && n <= PORT_COUNT
    ensures PortIssues(served, n) == PortIssues(b, n)
  {
    if n > 0 {
      SamePortIssues(b, served, n - 1);
    }
  }

  // ---------------------------------------------------------------------
  // A switch that combines the declarations of an upload
  // ---------------------------------------------------------------------

  function MembersOnly(s: VLANState, vids: seq<int>): seq<string>
    requires forall k :: 0 <= k < |vids| ==> vids[k] in s.vlans
  {
    if vids == [] then []
    else MembersOnly(s, vids[..|vids| - 1]) + MemberLines(s, vids[|vids| - 1], Max(s.portCount, 0))
  }

  /** The generated body with all its declarations in one line in front. */
  ghost function CombinedBody(s: VLANState): seq<string> {
    VlanIDs(s);
    var vids := Sorted(s.vlans.Keys);
    (if DeclaredIn(vids) == [] then [] else [CombinedLine(DeclaredIn(vids))]) + MembersOnly(s, vids)
  }

  lemma {:induction false} MemberLinesDeclareNothing(s: VLANState, vid: int, n: nat)
    requires Renderable(s) && vid in s.vlans && IsVid(vid)
    ensures Others(MemberLines(s, vid, n)) == MemberLines(s, vid, n)
  {
    hide VlanMembershipLine, Renderable, DbLine, TrimCR, TrimSpace, IsVlanLine;
    if n > 0 {
      MemberLinesDeclareNothing(s, vid, n - 1);
      if IsWritten(s, vid, n) {
        WrittenIsWire(s, vid, n);
        var line := VlanMembershipLine(vid, n, s.vlans[vid].ports[n]);
        MembershipLineRead(vid, n, s.vlans[vid].ports[n]);
        OthersConcat(MemberLines(s, vid, n - 1), [line]);
        OneOther(line);
      } else {
        assert MemberLines(s, vid, n) == MemberLines(s, vid, n - 1);
      }
    }
  }

  lemma OneOther(line: string)
    ensures Others([line]) == if DeclaredBy(line) == [] then [line] else []
  {
    hide DbLine;
    assert [line][..0] == [];
  }

  lemma {:induction false} OthersOfVlans(s: VLANState, vids: seq<int>)
    requires Renderable(s) && GoIDs(s) && forall k :: 0 <= k < |vids| ==> vids[k] in s.vlans
    ensures Others(VlansLines(s, vids)) == MembersOnly(s, vids) && Others(MembersOnly(s, vids)) == MembersOnly(s, vids)
  {
    hide Renderable, MemberLines, VlanDeclareLine, DbLine, TrimCR, TrimSpace, IsVlanLine;
    if vids != [] {
      var init, vid := vids[..|vids| - 1], vids[|vids| - 1];
      OthersOfVlans(s, init);
      var members := MemberLines(s, vid, Max(s.portCount, 0));
      MemberLinesDeclareNothing(s, vid, Max(s.portCount, 0));
      OthersConcat(VlansLines(s, init), VlanLines(s, vid));
      OthersConcat(MembersOnly(s, init), members);
      if vid != DEFAULT_PVID {
        DeclareLineRead(vid);
        OneOther(VlanDeclareLine(vid));
        OthersConcat([VlanDeclareLine(vid)], members);
      } else {
        assert VlanLines(s, vid) == members;
      }
    }
  }

  /** The body with the declarations combined is the generated one, regrouped. */
  lemma CombinedIsRegrouped(s: VLANState, foreign: seq<string>)
    requires Renderable(s) && GoIDs(s)
    ensures Regrouped(foreign + GeneratedBody(s), foreign + CombinedBody(s))
  {
    VlanIDs(s);
    GeneratedIs(s);
    var vids := Sorted(s.vlans.Keys);
    var head := if DeclaredIn(vids) == [] then [] else [CombinedLine(DeclaredIn(vids))];
    assert CombinedBody(s) == head + MembersOnly(s, vids);
    hide *;
    OthersOfVlans(s, vids);
    HeadSays(s, vids, head);
    OthersConcat(foreign, GeneratedBody(s));
    OthersConcat(head, MembersOnly(s, vids));
    OthersConcat(foreign, CombinedBody(s));
    NothingInFront(MembersOnly(s, vids));
    VlansLinesFacts(s, vids);
    SavesDeclared(s, vids);
    DbBodyConcat(foreign, GeneratedBody(s));
    DbBodyConcat(head, MembersOnly(s, vids));
    DbBodyConcat(foreign, CombinedBody(s));
    DeclaredAfter(foreign, GeneratedBody(s), CombinedBody(s), DeclaredIn(vids), head, MembersOnly(s, vids));
  }

  lemma NothingInFront(a: seq<string>)
    ensures [] + a == a
  {
  }

  lemma HeadSays(s: VLANState, vids: seq<int>, head: seq<string>)
    requires Renderable(s) && GoIDs(s) && forall k :: 0 <= k < |vids| ==> vids[k] in s.vlans
    requires head == if DeclaredIn(vids) == [] then [] else [CombinedLine(DeclaredIn(vids))]
    ensures Others(head) == [] && DbBody(head).declared == DeclaredIn(vids)
  {
    hide DbLine, DbBody, Others, CombinedLine, DeclaredIn, Renderable, TrimCR, IsVlanLine;
    if DeclaredIn(vids) != [] {
      DeclaredAreVids(s, vids);
      CombinedLineRead(DeclaredIn(vids));
      OneOther(CombinedLine(DeclaredIn(vids)));
      DbSingle(CombinedLine(DeclaredIn(vids)));
    } else {
      NoOthers();
      NothingSaid();
    }
  }

  /** Bodies with the same declared ids behind the same foreign lines declare the same VLANs. */
  lemma DeclaredAfter(foreign: seq<string>, generated: seq<string>, combined: seq<string>, ids: seq<int>,
                      head: seq<string>, members: seq<string>)
    requires DbBody(foreign + generated).declared == DbBody(foreign).declared + ids
    requires DbBody(foreign + combined).declared == DbBody(foreign).declared + (ids + [])
    requires Others(foreign + generated) == Others(foreign + combined)
    ensures Regrouped(foreign + generated, foreign + combined)
  {
    hide DbBody, Others, Declares;
    BodySaw(foreign + generated);
    BodySaw(foreign + combined);
    assert ids + [] == ids;
  }

  lemma NoOthers()
    ensures Others([]) == []
  {
  }

  lemma SavesDeclared(s: VLANState, vids: seq<int>)
    requires Renderable(s) && GoIDs(s) && forall k :: 0 <= k < |vids| ==> vids[k] in s.vlans
    ensures DbBody(MembersOnly(s, vids)).declared == []
  {
    OthersOfVlans(s, vids);
    NothingDeclared(MembersOnly(s, vids));
  }

  lemma {:induction false} NothingDeclared(body: seq<string>)
    requires Others(body) == body
    ensures DbBody(body).declared == []
  {
    hide DbLine;
    if body != [] {
      OthersShorter(body[..|body| - 1]);
      NothingDeclared(body[..|body| - 1]);
    }
  }

  lemma {:induction false} OthersShorter(body: seq<string>)
    ensures |Others(body)| <= |body|
  {
    hide DbLine;
    if body != [] {
      OthersShorter(body[..|body| - 1]);
    }
  }

  lemma {:induction false} DeclaredAreVids(s: VLANState, vids: seq<int>)
    requires Renderable(s) && GoIDs(s) && forall k :: 0 <= k < |vids| ==> vids[k] in s.vlans
    ensures AreVids(DeclaredIn(vids))
  {
    hide Renderable;
    if vids != [] {
      DeclaredAreVids(s, vids[..|vids| - 1]);
    }
  }
}
