/**
 Rendering twice changes nothing more, and dropping the up-time annotations
 commutes with every render.
 */
module Stability {
  import opened Wrappers
  import opened Text
  import opened TextCfg
  import opened TextEdit
  import opened EditFrame
  import opened Sections
  import opened VlanState
  import opened Grammar
  import opened Codec
  import opened Render
  import opened RenderFrame
  import opened BodyFacts
  import opened RoundTrip
  import opened PortTrip

  // ---------------------------------------------------------------------
  // Rendering twice
  // ---------------------------------------------------------------------

  /** Splicing in the body that is there, in its own spacing, changes nothing. */
  lemma SpliceIsIdentity(lines: seq<string>, name: string, body: seq<string>)
    requires Region(lines, name) == Some(Spaced(body))
    ensures Replaced(lines, name, body) == Some(lines)
  {
    hide LabelLine, RegionEnd, Spaced;
    var i := LabelLine(lines, name).value;
    Slices(lines, i + 1, RegionEnd(lines, i), |lines|);
  }

  lemma {:induction false} SplicesAreIdentity(lines: seq<string>, names: seq<string>, bodies: seq<seq<string>>)
    requires |names| == |bodies|
    requires forall k :: 0 <= k < |names| ==> Region(lines, names[k]) == Some(Spaced(bodies[k]))
    ensures ReplacedAll(lines, names, bodies) == Some(lines)
  {
    hide Region, Replaced, Spaced;
    if names != [] {
      var n := |names| - 1;
      SplicesAreIdentity(lines, names[..n], bodies[..n]);
      SpliceIsIdentity(lines, names[n], bodies[n]);
    }
  }

  /** The bodies of a rendered file render to themselves. */
  lemma BodiesRenderedTwice(b: ManagedBodies, s: VLANState)
    requires Renderable(s) && GoIDs(s)
    ensures VlanAfter(VlanAfter(b, s), s) == VlanAfter(b, s)
  {
    hide VlanAfter, ForeignLines, GeneratedBody, PVIDLines, DbBody, PortFacts, Renderable, GoIDs;
    var once, twice := VlanAfter(b, s), VlanAfter(VlanAfter(b, s), s);
    DatabaseFactsAfter(b, s);
    ForeignLinesAreDecoded("", once.database);
    DatabaseIs(once, s);
    DatabaseIs(b, s);
    forall k | 0 <= k < PORT_COUNT
      ensures twice.interfaces[k] == once.interfaces[k]
    {
      PortFactsAfter(b, s, k + 1);
      ForeignInPort(once, k + 1);
      InterfaceAfter(once, s, k + 1);
      InterfaceAfter(b, s, k + 1);
    }
    assert twice.interfaces == once.interfaces;
    DatabaseAfter(b, s);
    DatabaseAfter(once, s);
  }

  lemma ForeignInPort(b: ManagedBodies, port: int)
    requires IsPortNumber(port)
    ensures PortFacts(b, port).foreign == ForeignLines(b.interfaces[port - 1])
  {
    ForeignLinesAreDecoded(InterfaceLabel(port), b.interfaces[port - 1]);
    hide InterfaceLabel, IfaceBody, ForeignLines;
  }

  /** Rendering a state into its own rendered file gives the same file. */
  lemma VlanRenderIsStable(lines: seq<string>, s: VLANState)
    requires WellFormed(lines) && Renderable(s) && GoIDs(s)
    ensures VlanRendered(lines, s).Some?
    ensures VlanRendered(VlanRendered(lines, s).value, s) == VlanRendered(lines, s)
  {
    hide WellFormed, Renderable, GoIDs, VlanBodies, VlanAfter, ForeignIn, ReplacedAll, Region, Spaced, BodiesOf,
      ManagedNames;
    VlanRenderedBodies(lines, s);
    var out := VlanRendered(lines, s).value;
    BodiesRenderedTwice(BodiesOf(lines), s);
    var bodies := VlanBodies(s, ForeignIn(out));
    forall k | 0 <= k < PORT_COUNT + 1
      ensures bodies[k] == VlanBodies(s, ForeignIn(lines))[k]
    {
      VlanBodyAt(lines, s, k);
      VlanBodyAt(out, s, k);
    }
    SplicesAreIdentity(out, ManagedNames(), bodies);
  }

  lemma PassTwice(name: string, body: seq<string>, ps: PortSettings)
    ensures PassLines(name, PassLines(name, body) + PortLines(ps)) == PassLines(name, body)
  {
    hide IfaceBody, PortLines;
    PassFacts(name, body);
    PortLinesFacts(ps, name);
    IfaceBodyConcat(name, PassLines(name, body), PortLines(ps));
    assert PassLines(name, body) + [] == PassLines(name, body);
  }

  /** The body the render puts back into its own output is the one that is there. */
  lemma PortBodyTwice(lines: seq<string>, desired: map<int, PortSettings>, out: seq<string>, port: int)
    requires AllPortsIn(desired) && IsPortNumber(port) && Present(lines, InterfaceLabel(port))
    requires Spliced(lines, out, desired, PORT_COUNT, port)
    ensures PortBody(PassIn(out), desired, port) == PortBody(PassIn(lines), desired, port)
    ensures Region(out, InterfaceLabel(port)) == Some(Spaced(PortBody(PassIn(out), desired, port)))
  {
    hide InterfaceLabel, PassLines, PortLines, BodyLines, PassIn, ManagedNames, Region, BodyOf, Present,
         PortBody, Simple;
    var name := InterfaceLabel(port);
    PortName(port);
    SplicedBody(lines, out, desired, port);
    PassInIs(lines, port);
    PassInIs(out, port);
    PortBodyIs(PassIn(lines), desired, port);
    PortBodyIs(PassIn(out), desired, port);
    PassTwice(name, BodyLines(lines, name), desired[port]);
  }

  lemma {:induction false} PortSplicesAreIdentity(lines: seq<string>, desired: map<int, PortSettings>,
                                                  out: seq<string>, n: nat)
    requires AllPortsIn(desired) && n <= PORT_COUNT
    requires PresentPorts(out) == PresentPorts(lines)
    requires forall k :: 0 <= k <= PORT_COUNT ==> Spliced(lines, out, desired, PORT_COUNT, k)
    ensures PortsReplaced(out, PassIn(out), desired, n) == out
  {
    hide Spliced, PortsReplaced, PassIn, PortBody, Replaced, Region, Spaced, InterfaceLabel, LabelLine;
    PortsReplacedStep(out, PassIn(out), desired, if n > 0 then n else 1);
    if n > 0 {
      PortSplicesAreIdentity(lines, desired, out, n - 1);
      assert Present(out, InterfaceLabel(n)) <==> n in PresentPorts(out);
      assert Present(lines, InterfaceLabel(n)) <==> n in PresentPorts(lines);
      if Present(out, InterfaceLabel(n)) {
        PortBodyTwice(lines, desired, out, n);
        SpliceIsIdentity(out, InterfaceLabel(n), PortBody(PassIn(out), desired, n));
      }
    }
  }

  /** Rendering port settings into their own rendered file gives the same file. */
  lemma PortRenderIsStable(lines: seq<string>, desired: map<int, PortSettings>)
    requires Tidy(lines) && AllPortsIn(desired)
    ensures PortRendered(PortRendered(lines, desired), desired) == PortRendered(lines, desired)
  {
    hide PortRendered, Tidy, PresentPorts, BodiesOf, PortAfter, Spliced, PassIn, PortsReplaced;
    var out := PortRendered(lines, desired);
    PortRenderedBodies(lines, desired);
    PortSplicesAreIdentity(lines, desired, out, PORT_COUNT);
    PortRenderedIs(out, desired);
  }

  // ---------------------------------------------------------------------
  // Up-time annotations
  // ---------------------------------------------------------------------

  /** An up-time line is an annotation, so it is no structure and no content. */
  lemma UptimeIsSkip(line: string)
    requires IsUptime(line)
    ensures KindOf(line).Skip?
  {
    TrimSpaceAfterTrimCR(line);
    hide TrimSpace, TrimCR;
    assert Trimmed(line)[0] == '!';
  }

  lemma CanonicalFirst(lines: seq<string>)
    requires lines != []
    ensures KindOf(lines[0]).Skip? || Canonical(lines) == [lines[0]] + Canonical(lines[1..])
    ensures Canonical(lines) == [lines[0]] + Canonical(lines[1..])
            || (KindOf(lines[0]).Skip? && Canonical(lines) == Canonical(lines[1..]))
  {
    hide KindOf, IsUptime;
    if IsUptime(lines[0]) {
      UptimeIsSkip(lines[0]);
    }
  }

  lemma {:induction false} CanonicalNoLabel(lines: seq<string>, name: string)
    ensures LabelLine(Canonical(lines), name).None? <==> LabelLine(lines, name).None?
  {
    hide KindOf, Canonical, Trimmed;
    CanonicalNone();
    if lines != [] {
      CanonicalFirst(lines);
      CanonicalNoLabel(lines[1..], name);
      LabelLineConcat([lines[0]], Canonical(lines[1..]), name);
      LabelLineConcat([lines[0]], lines[1..], name);
      assert lines == [lines[0]] + lines[1..];
      hide LabelLine;
      if KindOf(lines[0]).Skip? {
        assert LabelLine([lines[0]], name) == None;
      }
    }
  }

  lemma CanonicalNone()
    ensures Canonical([]) == []
  {
  }

  lemma {:induction false} CanonicalNeutral(lines: seq<string>)
    requires AllNeutral(lines)
    ensures AllNeutral(Canonical(lines)) && Content(Canonical(lines)) == Content(lines)
  {
    hide KindOf, Canonical;
    CanonicalNone();
    if lines != [] {
      CanonicalFirst(lines);
      assert Neutral(lines[0]);
      assert forall k :: 0 <= k < |lines[1..]| ==> lines[1..][k] == lines[k + 1];
      CanonicalNeutral(lines[1..]);
      ContentConcat([lines[0]], Canonical(lines[1..]));
      ContentConcat([lines[0]], lines[1..]);
      assert lines == [lines[0]] + lines[1..];
      assert [lines[0]][1..] == [];
    }
  }

  /** Inert lines survive. */
  lemma {:induction false} CanonicalSpaced(body: seq<string>)
    requires AllInert(body)
    ensures Canonical(Spaced(body)) == Spaced(body)
  {
    hide KindOf, Canonical;
    BlankIsKept();
    if body != [] {
      var init, last := body[..|body| - 1], body[|body| - 1];
      assert Inert(last);
      CanonicalSpaced(init);
      CanonicalConcat(Spaced(init), [last, ""]);
      CanonicalFirst([last, ""]);
      assert [last, ""][1..] == [""];
    }
  }

  lemma BlankIsKept()
    ensures Canonical([""]) == [""]
  {
    assert [""][1..] == [];
    assert TrimSpace("") == "";
  }

  /** Lines without their annotations, cut at a section. */
  lemma CanonicalParts(a: seq<string>, r: seq<string>, b: seq<string>)
    requires a != [] && b != [] && !KindOf(a[|a| - 1]).Skip? && !KindOf(b[0]).Skip?
    ensures Canonical(a + r + b) == Canonical(a) + Canonical(r) + Canonical(b)
    ensures Canonical(a) == Canonical(a[..|a| - 1]) + [a[|a| - 1]]
    ensures Canonical(b) == [b[0]] + Canonical(b[1..])
  {
    hide KindOf, Canonical;
    CanonicalConcat(a + r, b);
    CanonicalConcat(a, r);
    var last := a[|a| - 1];
    assert a == a[..|a| - 1] + [last];
    CanonicalConcat(a[..|a| - 1], [last]);
    CanonicalFirst([last]);
    CanonicalNone();
    assert [last][1..] == [];
    CanonicalFirst(b);
  }

  lemma FirstExit(b: seq<string>)
    requires b != [] && KindOf(b[0]).Exit?
    ensures ScanExit(b, 0) == Found(0)
  {
    hide KindOf;
  }

  /** A stretch with a label at its end, plain lines, then an exit: a simple section. */
  lemma SimpleFrom(a: seq<string>, r: seq<string>, b: seq<string>, name: string)
    requires a != [] && b != [] && LabelLine(a, name) == Some(|a| - 1) && AllNeutral(r)
    requires KindOf(a[|a| - 1]).Block? && KindOf(b[0]).Exit?
    ensures var lines := a + r + b;
            && Simple(lines, name) && Region(lines, name) == Some(r)
            && LabelLine(lines, name) == Some(|a| - 1) && RegionEnd(lines, |a| - 1) == |a| + |r|
            && lines[..|a|] == a && lines[|a| + |r|..] == b
  {
    hide KindOf, LabelLine, RegionEnd, ScanExit, IsInterface;
    var lines := a + r + b;
    var i := |a| - 1;
    assert lines == a + (r + b);
    LabelLineConcat(a, r + b, name);
    assert lines[i] == a[i];
    assert lines[i + 1..] == r + b;
    FirstExit(b);
    RegionOfHeaded(lines, i, r, b);
    SliceBack(a, r, b, 0);
    hide AllNeutral;
    assert Simple(lines, name);
  }

  /** What splice and body come to for such a section. */
  lemma SpliceFrom(a: seq<string>, r: seq<string>, b: seq<string>, name: string, body: seq<string>)
    requires a != [] && b != [] && LabelLine(a, name) == Some(|a| - 1) && AllNeutral(r)
    requires KindOf(a[|a| - 1]).Block? && KindOf(b[0]).Exit?
    ensures Simple(a + r + b, name) && BodyOf(a + r + b, name) == Some(Content(r))
    ensures Replaced(a + r + b, name, body) == Some(a + Spaced(body) + b)
  {
    hide KindOf, LabelLine, RegionEnd, AllNeutral, Content, Region, Simple, Spaced;
    SimpleFrom(a, r, b, name);
    BodyIsContent(a + r + b, name);
  }

  /** Every simple section is of that form. */
  lemma SimpleParts(lines: seq<string>, name: string) returns (a: seq<string>, r: seq<string>, b: seq<string>)
    requires Simple(lines, name)
    ensures lines == a + r + b && a != [] && b != [] && a == lines[..|a|]
    ensures LabelLine(lines, name) == Some(|a| - 1) == LabelLine(a, name) && AllNeutral(r)
    ensures KindOf(a[|a| - 1]).Block? && KindOf(b[0]).Exit?
  {
    var i, e := SimpleFacts(lines, name);
    hide KindOf, LabelLine, RegionEnd, Simple, ExitOf, AllNeutral, BlockSectionLabel;
    a, r, b := lines[..i + 1], lines[i + 1..e], lines[e..];
    Slices(lines, i + 1, e, |lines|);
    assert lines == a + (r + b);
    LabelInFront(a, r + b, r + b, name);
  }

  /** Dropping the annotations keeps a simple section simple and its content as it is, and commutes with its splice. */
  lemma CanonicalSplice(lines: seq<string>, name: string, body: seq<string>)
    requires Simple(lines, name) && AllInert(body)
    ensures Simple(Canonical(lines), name)
    ensures BodyOf(Canonical(lines), name) == BodyOf(lines, name)
    ensures Replaced(lines, name, body).Some?
    ensures Replaced(Canonical(lines), name, body) == Some(Canonical(Replaced(lines, name, body).value))
  {
    hide KindOf, LabelLine, Canonical, Spaced, Content, Simple, Replaced, BodyOf, AllNeutral, AllInert;
    var a, r, b := SimpleParts(lines, name);
    SpliceFrom(a, r, b, name, body);
    CanonicalParts(a, r, b);
    CanonicalNeutral(r);
    CanonicalParts(a, Spaced(body), b);
    CanonicalSpaced(body);
    LabelAtEnd(a, |a| - 1, name);
    assert a[..|a| - 1 + 1] == a;
    SpliceFrom(Canonical(a), Canonical(r), Canonical(b), name, body);
  }

  lemma LabelAtEnd(lines: seq<string>, i: nat, name: string)
    requires LabelLine(lines, name) == Some(i) && !KindOf(lines[i]).Skip?
    ensures LabelLine(Canonical(lines[..i + 1]), name) == Some(|Canonical(lines[..i + 1])| - 1)
  {
    hide KindOf, LabelLine, Canonical, Trimmed;
    var front, heading := lines[..i], [lines[i]];
    assert lines[..i + 1] == front + heading && lines == front + (heading + lines[i + 1..]);
    LabelLineConcat(front, heading + lines[i + 1..], name);
    assert LabelLine(front, name) == None;
    CanonicalConcat(front, heading);
    CanonicalFirst(heading);
    CanonicalNone();
    assert heading[1..] == [];
    assert Canonical(heading) == heading;
    CanonicalNoLabel(front, name);
    LabelLineConcat(Canonical(front), heading, name);
    LabelAlone(lines[i], name);
    assert LabelLine(Canonical(front) + heading, name) == Some(|Canonical(front)|);
  }

  lemma LabelAlone(line: string, name: string)
    requires IsLabel(line) && Trimmed(line) == name
    ensures LabelLine([line], name) == Some(0)
  {
    hide KindOf, Trimmed;
  }

  lemma CanonicalPresent(lines: seq<string>, name: string)
    ensures Present(Canonical(lines), name) <==> Present(lines, name)
  {
    CanonicalNoLabel(lines, name);
    hide LabelLine, Canonical;
  }

  lemma CanonicalBody(lines: seq<string>, name: string)
    requires Present(lines, name) ==> Simple(lines, name)
    ensures BodyOf(Canonical(lines), name) == BodyOf(lines, name)
    ensures Present(lines, name) ==> Simple(Canonical(lines), name)
  {
    hide Present, Simple, Canonical, BodyOf, KindOf;
    CanonicalPresent(lines, name);
    if Present(lines, name) {
      CanonicalSplice(lines, name, []);
    } else {
      AbsentHasNoBody(lines, name);
      AbsentHasNoBody(Canonical(lines), name);
    }
  }

  lemma {:induction false} CanonicalLineFree(lines: seq<string>)
    requires LineFree(lines)
    ensures LineFree(Canonical(lines))
  {
    hide IsUptime;
    if lines != [] {
      assert forall line :: line in lines[1..] ==> line in lines;
      CanonicalLineFree(lines[1..]);
    }
  }

  lemma LabelIsNoBlank(lines: seq<string>, name: string)
    requires Present(lines, name) && name != ""
    ensures lines != [] && lines != [""]
  {
    hide LabelLine;
    assert Trimmed("") == "";
  }

  /** A tidy file keeps its sections, simple and with the same bodies, when the annotations are dropped. */
  lemma CanonicalSections(lines: seq<string>)
    requires Tidy(lines)
    ensures BodiesOf(Canonical(lines)) == BodiesOf(lines)
    ensures forall k :: 0 <= k <= PORT_COUNT ==>
              && (Present(Canonical(lines), ManagedNames()[k]) <==> Present(lines, ManagedNames()[k]))
              && (Present(lines, ManagedNames()[k]) ==> Simple(Canonical(lines), ManagedNames()[k]))
  {
    hide Present, Canonical, BodyOf, Simple, ManagedNames, LineFree, BodiesOf;
    forall k | 0 <= k <= PORT_COUNT
      ensures BodyOf(Canonical(lines), ManagedNames()[k]) == BodyOf(lines, ManagedNames()[k])
      ensures Present(Canonical(lines), ManagedNames()[k]) <==> Present(lines, ManagedNames()[k])
      ensures Present(lines, ManagedNames()[k]) ==> Simple(Canonical(lines), ManagedNames()[k])
    {
      CanonicalPresent(lines, ManagedNames()[k]);
      CanonicalBody(lines, ManagedNames()[k]);
    }
    SameBodies(lines, Canonical(lines));
  }

  /** With a VLAN database it stays tidy: there is a line left. */
  lemma CanonicalTidy(lines: seq<string>)
    requires Tidy(lines) && Present(lines, VLAN_DATABASE)
    ensures Tidy(Canonical(lines))
  {
    hide Present, Canonical, BodyOf, Simple, ManagedNames, LineFree, BodiesOf;
    CanonicalSections(lines);
    CanonicalLineFree(lines);
    FirstName();
    CanonicalPresent(lines, VLAN_DATABASE);
    LabelIsNoBlank(Canonical(lines), VLAN_DATABASE);
  }

  lemma SameBodies(lines: seq<string>, other: seq<string>)
    requires forall k :: 0 <= k <= PORT_COUNT ==> BodyOf(other, ManagedNames()[k]) == BodyOf(lines, ManagedNames()[k])
    ensures BodiesOf(other) == BodiesOf(lines)
  {
    hide BodyOf, ManagedNames, InterfaceLabel, LabelLine;
    FirstName();
    assert BodyOf(other, ManagedNames()[0]) == BodyOf(lines, ManagedNames()[0]);
    BodyMeansPresent(lines, VLAN_DATABASE);
    BodyMeansPresent(other, VLAN_DATABASE);
    forall k | 0 <= k < PORT_COUNT
      ensures InterfaceBodies(other)[k] == InterfaceBodies(lines)[k]
    {
      PortName(k + 1);
      assert BodyOf(other, ManagedNames()[k + 1]) == BodyOf(lines, ManagedNames()[k + 1]);
    }
    assert InterfaceBodies(other) == InterfaceBodies(lines);
  }

  lemma {:induction false} CanonicalSplices(lines: seq<string>, names: seq<string>, bodies: seq<seq<string>>)
    requires |names| == |bodies| && Distinct(names) && AllSimple(lines, names) && AllBodiesInert(bodies)
    ensures ReplacedAll(lines, names, bodies).Some?
    ensures ReplacedAll(Canonical(lines), names, bodies) == Some(Canonical(ReplacedAll(lines, names, bodies).value))
  {
    hide Simple, AllInert, Replaced, Canonical, Spaced, Region, BodyOf;
    if names != [] {
      var n := |names| - 1;
      assert forall k :: 0 <= k < n ==> names[..n][k] == names[k] && bodies[..n][k] == bodies[k];
      CanonicalSplices(lines, names[..n], bodies[..n]);
      SplicedAll(lines, names[..n], bodies[..n], names[n]);
      CanonicalSplice(ReplacedAll(lines, names[..n], bodies[..n]).value, names[n], bodies[n]);
    }
  }

  /** The VLAN render commutes with dropping the up-time annotations. */
  lemma CanonicalVlanRender(lines: seq<string>, s: VLANState)
    requires WellFormed(lines) && Renderable(s) && GoIDs(s)
    ensures VlanRendered(lines, s).Some?
    ensures VlanRendered(Canonical(lines), s) == Some(Canonical(VlanRendered(lines, s).value))
  {
    hide Canonical, Renderable, GoIDs, VlanBodies, ForeignIn, ReplacedAll, Simple, FileLines, AllBodiesInert, Present,
      ManagedNames, Distinct, BodiesOf, VlanAfter;
    WellFormedIsTidy(lines);
    FirstName();
    CanonicalSections(lines);
    CanonicalTidy(lines);
    ManagedNamesDistinct();
    VlanBodiesInert(lines, s);
    CanonicalSplices(lines, ManagedNames(), VlanBodies(s, ForeignIn(lines)));
    var other := Canonical(lines);
    forall k | 0 <= k <= PORT_COUNT
      ensures VlanBodies(s, ForeignIn(other))[k] == VlanBodies(s, ForeignIn(lines))[k]
    {
      VlanBodyAt(lines, s, k);
      VlanBodyAt(other, s, k);
    }
    assert VlanBodies(s, ForeignIn(other)) == VlanBodies(s, ForeignIn(lines));
  }

  lemma {:induction false} CanonicalPortSplices(lines: seq<string>, desired: map<int, PortSettings>, n: nat)
    requires Tidy(lines) && AllPortsIn(desired) && n <= PORT_COUNT
    ensures PortsReplaced(Canonical(lines), PassIn(Canonical(lines)), desired, n)
         == Canonical(PortsReplaced(lines, PassIn(lines), desired, n))
  {
    hide Tidy, Present, Canonical, PassIn, PortsReplaced, PortBody, Replaced, InterfaceLabel, Spliced, AllInert,
         BodiesOf, FileLines;
    var other := Canonical(lines);
    PortsReplacedStep(lines, PassIn(lines), desired, if n > 0 then n else 1);
    PortsReplacedStep(other, PassIn(other), desired, if n > 0 then n else 1);
    if n > 0 {
      CanonicalPortSplices(lines, desired, n - 1);
      CanonicalPresent(lines, InterfaceLabel(n));
      var out := PortsReplaced(lines, PassIn(lines), desired, n - 1);
      PortsSpliced(lines, desired, n - 1);
      PortBodyInert(lines, desired, n);
      SamePortBody(lines, desired, n);
      PresentIs(lines, InterfaceLabel(n));
      PresentIs(other, InterfaceLabel(n));
      if Present(lines, InterfaceLabel(n)) {
        SplicedIsSimple(lines, out, desired, n);
        CanonicalSplice(out, InterfaceLabel(n), PortBody(PassIn(lines), desired, n));
      }
    }
  }

  lemma PresentIs(lines: seq<string>, name: string)
    ensures Present(lines, name) <==> LabelLine(lines, name).Some?
  {
    hide LabelLine;
  }

  lemma SplicedIsSimple(lines: seq<string>, out: seq<string>, desired: map<int, PortSettings>, n: nat)
    requires AllPortsIn(desired) && 1 <= n <= PORT_COUNT && Spliced(lines, out, desired, n - 1, n)
    requires Present(lines, InterfaceLabel(n))
    ensures Simple(out, InterfaceLabel(n))
  {
    PortName(n);
    hide Simple, Present, ManagedNames, Region, BodyOf, NewBody, InterfaceLabel;
  }

  lemma SamePortBody(lines: seq<string>, desired: map<int, PortSettings>, port: int)
    requires Tidy(lines) && AllPortsIn(desired) && IsPortNumber(port)
    ensures PortBody(PassIn(Canonical(lines)), desired, port) == PortBody(PassIn(lines), desired, port)
  {
    hide Tidy, Present, Canonical, PortBody, InterfaceLabel, BodiesOf;
    CanonicalSections(lines);
    assert PassIn(Canonical(lines)) == PassIn(lines);
  }

  /** The port render commutes with dropping the up-time annotations. */
  lemma CanonicalPortRender(lines: seq<string>, desired: map<int, PortSettings>)
    requires Tidy(lines) && AllPortsIn(desired)
    ensures PortRendered(Canonical(lines), desired) == Canonical(PortRendered(lines, desired))
  {
    hide Tidy, Present, Canonical, PassIn, PortsReplaced, PortRendered;
    CanonicalPortSplices(lines, desired, PORT_COUNT);
    PortRenderedIs(lines, desired);
    PortRenderedIs(Canonical(lines), desired);
  }

  /** A cut of the canonical lines is a cut of the lines; the first part ends with a kept line. */
  lemma {:induction false} SplitKept(lines: seq<string>, c1: seq<string>, c2: seq<string>)
    returns (l1: seq<string>, l2: seq<string>)
    requires Canonical(lines) == c1 + c2
    ensures lines == l1 + l2 && Canonical(l1) == c1 && Canonical(l2) == c2
    ensures if c1 == [] then l1 == [] else l1 != [] && l1[|l1| - 1] == c1[|c1| - 1]
  {
    hide IsUptime;
    CanonicalNone();
    if c1 == [] {
      l1, l2 := [], lines;
    } else if IsUptime(lines[0]) {
      var m1, m2 := SplitKept(lines[1..], c1, c2);
      l1, l2 := [lines[0]] + m1, m2;
      assert l1[1..] == m1;
    } else {
      assert (c1 + c2)[1..] == c1[1..] + c2;
      var m1, m2 := SplitKept(lines[1..], c1[1..], c2);
      l1, l2 := [lines[0]] + m1, m2;
      assert l1[1..] == m1;
    }
  }

  /** The same cut, with a kept line at the front of the second part. */
  lemma {:induction false} SplitLate(lines: seq<string>, c1: seq<string>, c2: seq<string>)
    returns (l1: seq<string>, l2: seq<string>)
    requires Canonical(lines) == c1 + c2 && c2 != []
    ensures lines == l1 + l2 && Canonical(l1) == c1 && Canonical(l2) == c2
    ensures l2 != [] && l2[0] == c2[0]
  {
    hide IsUptime;
    CanonicalNone();
    if IsUptime(lines[0]) {
      var m1, m2 := SplitLate(lines[1..], c1, c2);
      l1, l2 := [lines[0]] + m1, m2;
      assert l1[1..] == m1;
    } else if c1 == [] {
      l1, l2 := [], lines;
    } else {
      assert (c1 + c2)[1..] == c1[1..] + c2;
      var m1, m2 := SplitLate(lines[1..], c1[1..], c2);
      l1, l2 := [lines[0]] + m1, m2;
      assert l1[1..] == m1;
    }
  }

  lemma {:induction false} NeutralBack(lines: seq<string>)
    requires AllNeutral(Canonical(lines))
    ensures AllNeutral(lines)
  {
    hide KindOf, Canonical;
    if lines != [] {
      CanonicalFirst(lines);
      var rest := Canonical(lines[1..]);
      if !KindOf(lines[0]).Skip? || Canonical(lines) == [lines[0]] + rest {
        assert Neutral(Canonical(lines)[0]);
        assert forall k :: 0 <= k < |rest| ==> rest[k] == Canonical(lines)[k + 1];
      }
      NeutralBack(lines[1..]);
      assert forall k :: 1 <= k < |lines| ==> lines[k] == lines[1..][k - 1];
    }
  }

  /** The label at the end of a stretch is its first one when that is so without the annotations. */
  lemma LabelAtEndBack(a: seq<string>, name: string)
    requires a != [] && Canonical(a) != [] && a[|a| - 1] == Canonical(a)[|Canonical(a)| - 1]
    requires !KindOf(a[|a| - 1]).Skip? && LabelLine(Canonical(a), name) == Some(|Canonical(a)| - 1)
    ensures LabelLine(a, name) == Some(|a| - 1)
  {
    hide KindOf, LabelLine, Canonical, Trimmed;
    var front, last := a[..|a| - 1], [a[|a| - 1]];
    assert a == front + last;
    CanonicalConcat(front, last);
    CanonicalFirst(last);
    CanonicalNone();
    assert last[1..] == [];
    assert Canonical(last) == last;
    assert Canonical(a) == Canonical(front) + last;
    LabelLineConcat(Canonical(front), last, name);
    assert LabelLine(Canonical(front), name) == None;
    CanonicalNoLabel(front, name);
    LabelLineConcat(front, last, name);
    LabelAlone(a[|a| - 1], name);
  }

  /** A section that is simple without the annotations is simple with them. */
  lemma SimpleBack(lines: seq<string>, name: string)
    requires Simple(Canonical(lines), name)
    ensures Simple(lines, name)
  {
    hide KindOf, LabelLine, Canonical, Simple, AllNeutral;
    var a', r', b' := SimpleParts(Canonical(lines), name);
    assert Canonical(lines) == a' + (r' + b');
    var a, rest := SplitKept(lines, a', r' + b');
    var r, b := SplitLate(rest, r', b');
    NeutralBack(r);
    LabelAtEndBack(a, name);
    SimpleFrom(a, r, b, name);
    assert lines == a + r + b;
  }

  lemma WellFormedBack(lines: seq<string>)
    requires FileLines(lines) && AllSimple(Canonical(lines), ManagedNames())
    ensures WellFormed(lines)
  {
    hide Simple, ManagedNames, FileLines, Canonical;
    forall k | 0 <= k < |ManagedNames()|
      ensures Simple(lines, ManagedNames()[k])
    {
      assert Simple(Canonical(lines), ManagedNames()[k]);
      SimpleBack(lines, ManagedNames()[k]);
    }
  }

  lemma {:induction false} CanonicalIsPart(lines: seq<string>)
    ensures forall line :: line in Canonical(lines) ==> line in lines
  {
    hide IsUptime;
    if lines != [] {
      CanonicalIsPart(lines[1..]);
    }
  }

  /** The canonical lines of files with equal canonical bytes are equal. */
  lemma SameCanonical(lines: seq<string>, other: seq<string>)
    requires LineFree(lines) && LineFree(other) && Canonical(lines) != [] && Canonical(lines) != [""]
    requires Join(Canonical(lines), '\n') == Join(Canonical(other), '\n')
    ensures Canonical(other) == Canonical(lines)
  {
    hide Canonical, Join, Split;
    CanonicalIsPart(lines);
    CanonicalIsPart(other);
    SplitOfJoin(Canonical(lines), '\n');
    JoinEmpty(Canonical(lines));
    JoinEmpty(Canonical(other));
    SplitOfJoin(Canonical(other), '\n');
    assert Split(Join(Canonical(lines), '\n'), '\n') == Canonical(lines);
    assert Split(Join(Canonical(other), '\n'), '\n') == Canonical(other);
  }

  /**
   A file with the canonical bytes of a well-formed one is well-formed, too, and the two
   are rendered to uploads with the same canonical lines.
   */
  lemma CanonicalBytesDecideUpload(lines: seq<string>, other: seq<string>, s: VLANState,
                                   desired: map<int, PortSettings>)
    requires WellFormed(lines) && FileLines(other) && Renderable(s) && GoIDs(s) && AllPortsIn(desired)
    requires Join(Canonical(lines), '\n') == Join(Canonical(other), '\n')
    ensures WellFormed(other)
    ensures VlanRendered(lines, s).Some? && VlanRendered(other, s).Some?
    ensures Canonical(VlanRendered(lines, s).value) == Canonical(VlanRendered(other, s).value)
    ensures Canonical(PortRendered(lines, desired)) == Canonical(PortRendered(other, desired))
  {
    hide Canonical, Renderable, GoIDs, VlanRendered, PortRendered, Join, Present, ManagedNames, BodiesOf,
         LineFree, Simple;
    WellFormedIsTidy(lines);
    FirstName();
    assert Present(lines, ManagedNames()[0]);
    CanonicalSections(lines);
    CanonicalTidy(lines);
    SameCanonical(lines, other);
    forall k | 0 <= k < |ManagedNames()|
      ensures Simple(Canonical(other), ManagedNames()[k])
    {
      assert Present(lines, ManagedNames()[k]);
    }
    WellFormedBack(other);
    WellFormedIsTidy(other);
    assert Present(other, ManagedNames()[0]);
    CanonicalVlanRender(lines, s);
    CanonicalVlanRender(other, s);
    CanonicalPortRender(lines, desired);
    CanonicalPortRender(other, desired);
  }
}
