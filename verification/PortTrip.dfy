/**
 The port render of a file: what it does to the managed bodies, what decode reads
 back, and that the two renders stay out of each other's way.
 */
module PortTrip {
  import opened Wrappers
  import opened Text
  import opened TextCfg
  import opened TextEdit
  import opened EditFrame
  import opened Sections
  import opened Grammar
  import opened Codec
  import opened Render
  import opened RenderFrame
  import opened BodyFacts

  // ---------------------------------------------------------------------
  // Splices and absent sections
  // ---------------------------------------------------------------------

  /** A splice of inert lines never brings a block label into being. */
  lemma AbsentStays(lines: seq<string>, name: string, body: seq<string>, other: string)
    requires Simple(lines, name) && AllInert(body) && BlockSectionLabel(other) && !Present(lines, other)
    ensures Replaced(lines, name, body).Some? && !Present(Replaced(lines, name, body).value, other)
  {
    hide KindOf, Trimmed, LabelLine, RegionEnd, ScanExit, Spaced, BlockSectionLabel, IsInterface, ExitOf, AllInert;
    var i, a, r, b := Cut(lines, name);
    var r' := Spaced(body);
    SpacedNeutral(body);
    LabelLineConcat(a + r, b, other);
    LabelLineConcat(a, r, other);
    LabelLineConcat(a + r', b, other);
    LabelLineConcat(a, r', other);
    NoBlockLabel(r', other);
  }

  lemma ManagedNameIsBlock(k: nat)
    requires k <= PORT_COUNT
    ensures BlockSectionLabel(ManagedNames()[k])
  {
    hide Itoa;
    var stem := "interface ";
    if k > 0 {
      InterfaceStem(Itoa(k));
    }
  }

  lemma InterfaceStem(id: string)
    ensures "interface " <= "interface 0/" + id
  {
    assert ("interface 0/" + id)[..10] == "interface ";
  }

  // ---------------------------------------------------------------------
  // The bodies after a port render
  // ---------------------------------------------------------------------

  predicate AllPortsIn(desired: map<int, PortSettings>) {
    forall port :: 1 <= port <= PORT_COUNT ==> port in desired
  }

  /** The new body of one managed section, by its place among the managed labels; none for those left alone. */
  ghost function NewBody(lines: seq<string>, desired: map<int, PortSettings>, n: nat, k: nat): Option<seq<string>>
    requires AllPortsIn(desired) && k <= PORT_COUNT
  {
    if 1 <= k <= n && Present(lines, ManagedNames()[k]) then Some(PortBody(PassIn(lines), desired, k)) else None
  }

  /** The state of section k after the first n ports' splices. */
  ghost predicate Spliced(lines: seq<string>, out: seq<string>, desired: map<int, PortSettings>, n: nat, k: nat)
    requires AllPortsIn(desired) && k <= PORT_COUNT
  {
    var name := ManagedNames()[k];
    && (Present(out, name) <==> Present(lines, name))
    && (Present(out, name) ==> Simple(out, name))
    && match NewBody(lines, desired, n, k)
       case Some(body) => Region(out, name) == Some(Spaced(body)) && BodyOf(out, name) == Some(body)
       case None => Region(out, name) == Region(lines, name) && BodyOf(out, name) == BodyOf(lines, name)
  }

  lemma PassInIs(lines: seq<string>, port: int)
    requires IsPortNumber(port)
    ensures LinesIn(PassIn(lines), InterfaceLabel(port))
         == PassLines(InterfaceLabel(port), BodyLines(lines, InterfaceLabel(port)))
  {
    hide InterfaceLabel, IfaceBody, BodyLines;
    var name := InterfaceLabel(port);
    assert ManagedNames()[port] == name && name in ManagedNames();
    PortOfLabel(port, PORT_COUNT);
    assert BodiesOf(lines).interfaces[port - 1] == BodyLines(lines, name);
  }

  lemma PortBodyInert(lines: seq<string>, desired: map<int, PortSettings>, port: int)
    requires Tidy(lines) && AllPortsIn(desired) && IsPortNumber(port)
    ensures AllInert(PortBody(PassIn(lines), desired, port))
  {
    hide InterfaceLabel, AllInert, BodyLines, IfaceBody, Simple, PassIn, PortLines, FileLines, Present;
    var name := InterfaceLabel(port);
    assert ManagedNames()[port] == name;
    PassInIs(lines, port);
    BodyIsInert(lines, name);
    PassIsInert(name, BodyLines(lines, name));
    PortLinesAreInert(desired[port]);
    AllInertConcat(PassLines(name, BodyLines(lines, name)), PortLines(desired[port]));
    PortBodyIs(PassIn(lines), desired, port);
  }

  lemma SplicedStart(lines: seq<string>, desired: map<int, PortSettings>, k: nat)
    requires Tidy(lines) && AllPortsIn(desired) && k <= PORT_COUNT
    ensures Spliced(lines, lines, desired, 0, k)
  {
    hide Simple, Present, ManagedNames, Region, BodyOf;
  }

  /** One port's splice sets its own section and keeps the other eight. */
  lemma SplicedStep(lines: seq<string>, out: seq<string>, desired: map<int, PortSettings>, n: nat, k: nat,
                    next: seq<string>)
    requires AllPortsIn(desired) && k <= PORT_COUNT && 1 <= n <= PORT_COUNT
    requires Spliced(lines, out, desired, n - 1, n) && Spliced(lines, out, desired, n - 1, k)
    requires AllInert(PortBody(PassIn(lines), desired, n))
    requires if Present(lines, ManagedNames()[n])
             then Replaced(out, ManagedNames()[n], PortBody(PassIn(lines), desired, n)) == Some(next)
             else next == out
    ensures Spliced(lines, next, desired, n, k)
  {
    hide Simple, Region, BodyOf, Replaced, PortBody, PassIn, AllInert, ManagedNames, Present, BlockSectionLabel,
         Distinct;
    var name, other, body := ManagedNames()[n], ManagedNames()[k], PortBody(PassIn(lines), desired, n);
    if Present(lines, name) {
      if k == n {
        SelfSpliced(out, name, body);
        SimpleIsPresent(next, name);
      } else {
        NamesDiffer(n, k);
        if Present(lines, other) {
          OtherSpliced(out, name, body, other);
          SimpleIsPresent(next, other);
        } else {
          ManagedNameIsBlock(k);
          AbsentStays(out, name, body, other);
          AbsentHasNoBody(out, other);
          AbsentHasNoBody(next, other);
        }
      }
    }
  }

  lemma NamesDiffer(n: nat, k: nat)
    requires n <= PORT_COUNT && k <= PORT_COUNT && n != k
    ensures ManagedNames()[n] != ManagedNames()[k]
  {
    hide ManagedNames;
    ManagedNamesDistinct();
  }

  lemma AbsentHasNoBody(lines: seq<string>, name: string)
    requires !Present(lines, name)
    ensures Region(lines, name) == None && BodyOf(lines, name) == None
  {
    hide LabelLine;
  }

  /** The render's splices, port by port. */
  lemma {:induction false} PortsSpliced(lines: seq<string>, desired: map<int, PortSettings>, n: nat)
    requires Tidy(lines) && AllPortsIn(desired) && n <= PORT_COUNT
    ensures var out := PortsReplaced(lines, PassIn(lines), desired, n);
            FileLines(out) && forall k :: 0 <= k <= PORT_COUNT ==> Spliced(lines, out, desired, n, k)
  {
    hide Spliced, PortBody, PassIn, Replaced, FileLines, ManagedNames, LabelLine, Simple, InterfaceLabel, AllInert,
      LineFree, PortsReplaced, Tidy;
    PortsReplacedStep(lines, PassIn(lines), desired, if n > 0 then n else 1);
    if n == 0 {
      TidyIsFile(lines);
      forall k | 0 <= k <= PORT_COUNT
        ensures Spliced(lines, lines, desired, 0, k)
      {
        SplicedStart(lines, desired, k);
      }
    } else {
      PortsSpliced(lines, desired, n - 1);
      var out := PortsReplaced(lines, PassIn(lines), desired, n - 1);
      var next := PortsReplaced(lines, PassIn(lines), desired, n);
      var body := PortBody(PassIn(lines), desired, n);
      PortBodyInert(lines, desired, n);
      PortName(n);
      OneSplice(lines, out, desired, n, next);
      forall k | 0 <= k <= PORT_COUNT
        ensures Spliced(lines, next, desired, n, k)
      {
        SplicedStep(lines, out, desired, n, k, next);
      }
    }
  }

  lemma TidyIsFile(lines: seq<string>)
    requires Tidy(lines)
    ensures FileLines(lines)
  {
    hide Simple, Present, FileLines;
  }

  lemma PortName(port: int)
    requires IsPortNumber(port)
    ensures ManagedNames()[port] == InterfaceLabel(port)
  {
    hide InterfaceLabel;
  }

  /** A present section is replaced, an absent one left out. */
  lemma OneSplice(lines: seq<string>, out: seq<string>, desired: map<int, PortSettings>, n: nat, next: seq<string>)
    requires AllPortsIn(desired) && 1 <= n <= PORT_COUNT && FileLines(out)
    requires Spliced(lines, out, desired, n - 1, n) && AllInert(PortBody(PassIn(lines), desired, n))
    requires var name, body := ManagedNames()[n], PortBody(PassIn(lines), desired, n);
             next == if LabelLine(lines, name).None? then out
                     else if Replaced(out, name, body).None? then out
                     else Replaced(out, name, body).value
    ensures FileLines(next)
    ensures if Present(lines, ManagedNames()[n])
            then Replaced(out, ManagedNames()[n], PortBody(PassIn(lines), desired, n)) == Some(next)
            else next == out
  {
    hide Region, BodyOf, Replaced, PortBody, PassIn, AllInert, ManagedNames, FileLines, LineFree, Simple, LabelLine;
    var name, body := ManagedNames()[n], PortBody(PassIn(lines), desired, n);
    if Present(lines, name) {
      SimpleIsReplaced(out, name, body);
      BodyLineFree(body);
      ReplacedIsFile(out, name, body);
    }
  }

  /** The managed bodies after a port render; `present` are the ports whose section is there. */
  ghost function PortAfter(b: ManagedBodies, present: set<int>, desired: map<int, PortSettings>): ManagedBodies
    requires AllPortsIn(desired)
  {
    Bodies(b.hasDatabase, b.database,
           seq(PORT_COUNT, k requires 0 <= k < PORT_COUNT =>
             if k + 1 in present
             then PassLines(InterfaceLabel(k + 1), b.interfaces[k]) + PortLines(desired[k + 1])
             else b.interfaces[k]))
  }

  function PresentPorts(lines: seq<string>): set<int> {
    set port | 1 <= port <= PORT_COUNT && Present(lines, InterfaceLabel(port))
  }

  lemma InterfaceAfterPorts(b: ManagedBodies, present: set<int>, desired: map<int, PortSettings>, port: int)
    requires AllPortsIn(desired) && IsPortNumber(port)
    ensures PortAfter(b, present, desired).interfaces[port - 1]
         == if port in present
            then PassLines(InterfaceLabel(port), b.interfaces[port - 1]) + PortLines(desired[port])
            else b.interfaces[port - 1]
    ensures PortAfter(b, present, desired).hasDatabase == b.hasDatabase
    ensures PortAfter(b, present, desired).database == b.database
  {
    hide InterfaceLabel, PassLines, PortLines;
  }

  /** The port render of a tidy file keeps it tidy and sets exactly the bodies of the present interfaces. */
  lemma PortRenderedBodies(lines: seq<string>, desired: map<int, PortSettings>)
    requires Tidy(lines) && AllPortsIn(desired)
    ensures var out := PortRendered(lines, desired);
            && Tidy(out) && PresentPorts(out) == PresentPorts(lines)
            && BodiesOf(out) == PortAfter(BodiesOf(lines), PresentPorts(lines), desired)
            && (forall k :: 0 <= k <= PORT_COUNT ==> Spliced(lines, out, desired, PORT_COUNT, k))
  {
    hide Spliced, Tidy, PortAfter, PresentPorts, BodiesOf, PortsReplaced, PassIn, PortRendered, FileLines;
    var out := PortRendered(lines, desired);
    PortRenderedIs(lines, desired);
    PortsSpliced(lines, desired, PORT_COUNT);
    SplicedPresent(lines, out, desired);
    BodiesAfterPorts(lines, out, desired);
  }

  /** On a tidy file no splice of the port render fails. */
  lemma {:induction false} TidySplicesHold(lines: seq<string>, desired: map<int, PortSettings>, n: nat)
    requires Tidy(lines) && AllPortsIn(desired) && n <= PORT_COUNT
    ensures PortSplicesHold(lines, PassIn(lines), desired, n)
  {
    hide Tidy, PassIn, PortsReplaced, PortBody, Replaced, InterfaceLabel, LabelLine, Spliced, Simple, FileLines,
         AllInert, PortSplicesHold;
    PortSplicesStep(lines, PassIn(lines), desired, if n > 0 then n else 1);
    if n > 0 {
      TidySplicesHold(lines, desired, n - 1);
      PortsSpliced(lines, desired, n - 1);
      if LabelLine(lines, InterfaceLabel(n)).Some? {
        PresentAndSimple(lines, PortsReplaced(lines, PassIn(lines), desired, n - 1), desired, n);
        SimpleIsReplaced(PortsReplaced(lines, PassIn(lines), desired, n - 1), InterfaceLabel(n),
                         PortBody(PassIn(lines), desired, n));
      }
    }
  }

  lemma PresentAndSimple(lines: seq<string>, out: seq<string>, desired: map<int, PortSettings>, n: nat)
    requires AllPortsIn(desired) && 1 <= n <= PORT_COUNT && Spliced(lines, out, desired, n - 1, n)
    requires LabelLine(lines, InterfaceLabel(n)).Some?
    ensures Simple(out, InterfaceLabel(n))
  {
    PortName(n);
    hide Simple, ManagedNames, Region, BodyOf, NewBody, InterfaceLabel, LabelLine;
  }

  lemma PortRenderedIs(lines: seq<string>, desired: map<int, PortSettings>)
    requires AllPortsIn(desired)
    ensures PortRendered(lines, desired) == PortsReplaced(lines, PassIn(lines), desired, PORT_COUNT)
  {
    hide PortsReplaced, PassIn;
  }

  lemma SplicedPresent(lines: seq<string>, out: seq<string>, desired: map<int, PortSettings>)
    requires AllPortsIn(desired) && FileLines(out)
    requires forall k :: 0 <= k <= PORT_COUNT ==> Spliced(lines, out, desired, PORT_COUNT, k)
    ensures Tidy(out) && PresentPorts(out) == PresentPorts(lines)
    ensures Present(out, VLAN_DATABASE) <==> Present(lines, VLAN_DATABASE)
  {
    hide Simple, Present, ManagedNames, Region, BodyOf, NewBody, InterfaceLabel, FileLines;
    forall k | 0 <= k < PORT_COUNT + 1 && Present(out, ManagedNames()[k])
      ensures Simple(out, ManagedNames()[k])
    {
      assert Spliced(lines, out, desired, PORT_COUNT, k);
    }
    forall port | 1 <= port <= PORT_COUNT
      ensures Present(out, InterfaceLabel(port)) <==> Present(lines, InterfaceLabel(port))
    {
      PortName(port);
      assert Spliced(lines, out, desired, PORT_COUNT, port);
    }
    assert Spliced(lines, out, desired, PORT_COUNT, 0);
    FirstName();
  }

  lemma FirstName()
    ensures ManagedNames()[0] == VLAN_DATABASE
  {
    hide InterfaceLabel;
  }

  lemma BodiesAfterPorts(lines: seq<string>, out: seq<string>, desired: map<int, PortSettings>)
    requires AllPortsIn(desired) && (Present(out, VLAN_DATABASE) <==> Present(lines, VLAN_DATABASE))
    requires forall k :: 0 <= k <= PORT_COUNT ==> Spliced(lines, out, desired, PORT_COUNT, k)
    ensures BodiesOf(out) == PortAfter(BodiesOf(lines), PresentPorts(lines), desired)
  {
    hide Simple, ManagedNames, Region, BodyOf, InterfaceLabel, PortBody, PassIn, PassLines, PortLines, LabelLine,
      PortAfter, Spliced;
    var b, after := BodiesOf(lines), PortAfter(BodiesOf(lines), PresentPorts(lines), desired);
    FirstName();
    SplicedBody(lines, out, desired, 0);
    InterfaceAfterPorts(b, PresentPorts(lines), desired, 1);
    forall k | 0 <= k < PORT_COUNT
      ensures BodiesOf(out).interfaces[k] == after.interfaces[k]
    {
      PortName(k + 1);
      SplicedBody(lines, out, desired, k + 1);
      PassInIs(lines, k + 1);
      PortBodyIs(PassIn(lines), desired, k + 1);
      InterfaceAfterPorts(b, PresentPorts(lines), desired, k + 1);
    }
    assert BodiesOf(out).interfaces == after.interfaces;
  }

  lemma SplicedBody(lines: seq<string>, out: seq<string>, desired: map<int, PortSettings>, k: nat)
    requires AllPortsIn(desired) && k <= PORT_COUNT && Spliced(lines, out, desired, PORT_COUNT, k)
    ensures var name := ManagedNames()[k];
            BodyLines(out, name)
            == if k > 0 && Present(lines, name) then PortBody(PassIn(lines), desired, k) else BodyLines(lines, name)
  {
    hide Simple, ManagedNames, Region, BodyOf, PortBody, PassIn, LabelLine;
  }
}
