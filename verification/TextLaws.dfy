/** White space, numbers, labels, spans and edits on single characters, lines and places. */
module TextLaws {
  import opened Wrappers
  import opened Text
  import opened TextCfg
  import opened TextEdit

  // ---------------------------------------------------------------------
  // Characters and numbers
  // ---------------------------------------------------------------------

  /** The white space characters of Unicode, and their neighbours. */
  lemma Spaces()
    ensures IsSpace('\t') && IsSpace('\n') && IsSpace('\U{000B}') && IsSpace('\U{000C}') && IsSpace('\r')
    ensures IsSpace(' ') && IsSpace('\U{0085}') && IsSpace('\U{00A0}') && IsSpace('\U{1680}') && IsSpace('\U{2000}')
    ensures IsSpace('\U{200A}') && IsSpace('\U{2028}') && IsSpace('\U{2029}') && IsSpace('\U{202F}')
    ensures IsSpace('\U{205F}') && IsSpace('\U{3000}')
    ensures !IsSpace('\U{0008}') && !IsSpace('\U{000E}') && !IsSpace('\U{001F}') && !IsSpace('!')
    ensures !IsSpace('\U{0084}') && !IsSpace('\U{00A1}') && !IsSpace('\U{1FFF}') && !IsSpace('\U{200B}')
    ensures !IsSpace(',') && !IsSpace('0') && !IsSpace('z')
  {
  }

  predicate AllSpace(s: string) {
    forall k :: 0 <= k < |s| ==> IsSpace(s[k])
  }

  lemma {:induction false} LeftTrimmed(s: string) returns (front: string)
    ensures s == front + TrimLeft(s) && AllSpace(front) && (TrimLeft(s) != "" ==> !IsSpace(TrimLeft(s)[0]))
  {
    hide IsSpace;
    front := "";
    if s != "" && IsSpace(s[0]) {
      var rest := LeftTrimmed(s[1..]);
      front := [s[0]] + rest;
    }
  }

  lemma {:induction false} RightTrimmed(s: string) returns (back: string)
    ensures s == TrimRight(s) + back && AllSpace(back)
    ensures TrimRight(s) != "" ==> !IsSpace(TrimRight(s)[|TrimRight(s)| - 1])
  {
    hide IsSpace;
    back := "";
    if s != "" && IsSpace(s[|s| - 1]) {
      var rest := RightTrimmed(s[..|s| - 1]);
      back := rest + [s[|s| - 1]];
    }
  }

  /** Trimming takes white space off both ends, all of it and nothing else. */
  lemma TrimIs(s: string) returns (front: string, back: string)
    ensures s == front + TrimSpace(s) + back && AllSpace(front) && AllSpace(back)
    ensures var t := TrimSpace(s); t != "" ==> !IsSpace(t[0]) && !IsSpace(t[|t| - 1])
    ensures AllSpace(s) <==> TrimSpace(s) == ""
  {
    front := LeftTrimmed(s);
    back := RightTrimmed(TrimLeft(s));
    hide IsSpace, TrimLeft, TrimRight;
    var t := TrimSpace(s);
    assert TrimLeft(s) == t + back;
    if t != "" {
      assert s[|front|] == t[0] == TrimLeft(s)[0];
    }
  }

  /** A blank line is one of white space only. */
  lemma BlankIs(line: string)
    ensures IsBlank(line) <==> AllSpace(line)
  {
    TrimSpaceAfterTrimCR(line);
    hide TrimSpace, TrimCR;
    var front, back := TrimIs(line);
  }

  /** The words of a line: runs of other characters between white space. */
  lemma FieldsAre(gap: string, word: string, rest: string)
    requires AllSpace(gap) && SpaceFree(word)
    ensures Fields(gap) == [] && Fields(gap + rest) == Fields(rest)
    ensures word != "" ==> Fields(word) == [word]
    ensures word != "" && rest != "" && IsSpace(rest[0]) ==> Fields(word + rest) == [word] + Fields(rest)
  {
    GapSkipped(gap, rest);
    GapSkipped(gap, "");
    assert gap + "" == gap;
    if word != "" {
      assert word + "" == word && "" + word == word;
      WordTaken("", word, "");
      if rest != "" && IsSpace(rest[0]) {
        WordTaken("", word, rest);
      }
    }
    hide FieldsFrom, IsSpace;
  }

  lemma {:induction false} GapSkipped(gap: string, rest: string)
    requires AllSpace(gap)
    ensures FieldsFrom(gap + rest, "") == FieldsFrom(rest, "") && FieldsFrom("", "") == []
  {
    hide IsSpace;
    if gap == "" {
      assert gap + rest == rest;
    } else {
      GapSkipped(gap[1..], rest);
      assert (gap + rest)[1..] == gap[1..] + rest;
    }
  }

  lemma {:induction false} WordTaken(read: string, word: string, rest: string)
    requires SpaceFree(word) && read + word != "" && (rest == "" || IsSpace(rest[0]))
    ensures FieldsFrom(word + rest, read) == [read + word] + FieldsFrom(rest, "")
    decreases |word|
  {
    hide IsSpace;
    if word == "" {
      assert word + rest == rest && read + word == read;
    } else {
      WordTaken(read + [word[0]], word[1..], rest);
      assert (word + rest)[1..] == word[1..] + rest && read + [word[0]] + word[1..] == read + word;
    }
  }

  lemma {:induction false} DigitsValueSnoc(s: string, c: char)
    ensures DigitsValue(s + [c])
         == if DigitsValue(s).Some? && IsDigit(c) then Some(DigitsValue(s).value * 10 + DigitValue(c)) else None
  {
    assert (s + [c])[..|s|] == s;
  }

  lemma OneChar(c: char)
    ensures DigitsValue([c]) == if IsDigit(c) then Some(DigitValue(c)) else None
  {
    DigitsValueSnoc("", c);
    assert "" + [c] == [c];
  }

  lemma TwoChars(b: char, c: char)
    ensures DigitsValue([b, c])
         == if IsDigit(b) && IsDigit(c) then Some(10 * DigitValue(b) + DigitValue(c)) else None
  {
    OneChar(b);
    DigitsValueSnoc([b], c);
    hide DigitsValue;
    assert [b] + [c] == [b, c];
  }

  /** A sign may stand in front of a digit; nothing and a sign alone are no numbers, nor is anything else. */
  lemma SignedDigit(c: char)
    requires IsDigit(c)
    ensures Atoi([c]) == Some(DigitValue(c)) && Atoi(['+', c]) == Some(DigitValue(c))
    ensures Atoi(['-', c]) == Some(0 as int - DigitValue(c) as int) && Atoi([' ', c]) == None && Atoi([c, 'x']) == None
    ensures Atoi("") == None && Atoi("+") == None && Atoi("-") == None && Atoi("x") == None
  {
    OneChar(c);
    OneChar('x');
    TwoChars(' ', c);
    TwoChars(c, 'x');
    hide DigitsValue;
    assert ['+', c][1..] == [c] && ['-', c][1..] == [c] && "+"[1..] == "" && "-"[1..] == "";
  }

  /** Leading zeros do not matter. */
  lemma LeadingZero(c: char)
    requires IsDigit(c)
    ensures Atoi(['0', c]) == Some(DigitValue(c))
  {
    TwoChars('0', c);
    hide DigitsValue;
  }

  /** What does not fit 64 bits is no number. */
  lemma NumberRange(n: nat)
    ensures Atoi(Itoa(n)) == if n < 0x8000_0000_0000_0000 then Some(n) else None
  {
    DigitsValueOfDigits(n);
    assert IsDigit(Itoa(n)[0]);
  }

  // ---------------------------------------------------------------------
  // Labels
  // ---------------------------------------------------------------------

  /** Blocks are the three labels and every interface; each of them has an exit of its own. */
  lemma BlockLabels(line: string)
    ensures var t := Trimmed(line);
            KindOf(line).Block? <==>
              t == "vlan database" || t == "configure" || t == "lineconfig" || "interface " <= t
  {
    hide Trimmed;
    var t := Trimmed(line);
    if t == "vlan database" || t == "configure" || t == "lineconfig" || "interface " <= t {
      assert t != "" && (t[0] == 'v' || t[0] == 'c' || t[0] == 'l' || t[0] == 'i');
    }
  }

  /** A label that no exit closes. */
  lemma FlatIs(line: string)
    ensures var t := Trimmed(line);
            t != "" && t[0] != '!' && t[0] != 'e' && SectionStarts(t) && !BlockSectionLabel(t) ==> KindOf(line).Flat?
  {
    hide Trimmed, SectionStarts, BlockSectionLabel;
    assert "exit"[0] == 'e';
  }

  lemma FlatLabelsS(line: string)
    ensures var t := Trimmed(line);
            "snmp-server " <= t || "sntp " <= t || "spanning-tree configuration name" <= t ==> KindOf(line).Flat?
  {
    FlatIs(line);
    hide Trimmed, KindOf;
    var t := Trimmed(line);
    if "snmp-server " <= t || "sntp " <= t || "spanning-tree configuration name" <= t {
      assert t[0] == 's';
    }
  }

  lemma FlatLabelsI(line: string)
    ensures "ip " <= Trimmed(line) || "no sntp client mode" <= Trimmed(line) || "network mgmt_" <= Trimmed(line) ==>
              KindOf(line).Flat?
  {
    FlatIs(line);
    hide Trimmed, KindOf;
    var t := Trimmed(line);
    if "ip " <= t {
      assert t[0] == 'i' && t[1] == 'p';
    } else if "no sntp client mode" <= t || "network mgmt_" <= t {
      assert t[0] == 'n';
    }
  }

  lemma FlatLabelsU(line: string)
    ensures "users passwd" <= Trimmed(line) || "authentication login" <= Trimmed(line) || "voip " <= Trimmed(line) ==>
              KindOf(line).Flat?
  {
    FlatIs(line);
    hide Trimmed, KindOf;
    var t := Trimmed(line);
    if "users passwd" <= t {
      assert t[0] == 'u';
    } else if "authentication login" <= t {
      assert t[0] == 'a';
    } else if "voip " <= t {
      assert t[0] == 'v' && t[1] == 'o';
    }
  }

  /** The three block labels are blocks only when nothing follows them. */
  lemma FlatLabelsB(line: string)
    ensures "configure" < Trimmed(line) || "lineconfig" < Trimmed(line) || "vlan database" < Trimmed(line) ==>
              KindOf(line).Flat?
  {
    FlatIs(line);
    hide Trimmed, KindOf;
    var t := Trimmed(line);
    if "configure" < t {
      assert t[0] == 'c';
    } else if "lineconfig" < t {
      assert t[0] == 'l';
    } else if "vlan database" < t {
      assert t[0] == 'v' && t[1] == 'l';
    }
  }

  /** Blanks and annotations, and exits. */
  lemma SkipsAndExits(line: string)
    ensures KindOf(line).Skip? <==> Trimmed(line) == "" || Trimmed(line)[0] == '!'
    ensures KindOf(line).Exit? <==> Trimmed(line) == "exit"
  {
    hide Trimmed, SectionStarts, BlockSectionLabel;
    var t := Trimmed(line);
    if t != "" && t[0] == '!' {
      assert "!" <= t;
    }
    assert "exit"[0] == 'e';
  }

  /** Content lines: these are neither labels nor skipped. */
  lemma PlainHeader(line: string)
    ensures "0x4e47" <= Trimmed(line) || "flow control" <= Trimmed(line) ==> KindOf(line).Plain?
  {
    hide Trimmed;
    var t := Trimmed(line);
    if "0x4e47" <= t || "flow control" <= t {
      assert t[0] == '0' || t[0] == 'f';
    }
  }

  lemma PlainShutdown(line: string)
    ensures "shutdown" <= Trimmed(line) ==> KindOf(line).Plain?
  {
    hide Trimmed;
    var t := Trimmed(line);
    if "shutdown" <= t {
      assert t[0] == 's' && t[1] == 'h';
    }
  }

  lemma PlainNoFlow(line: string)
    ensures "no flow control" <= Trimmed(line) ==> KindOf(line).Plain?
  {
    hide Trimmed;
    var t := Trimmed(line);
    if "no flow control" <= t {
      assert t[0] == 'n' && t[1] == 'o' && t[3] == 'f';
    }
  }

  lemma PlainPVID(line: string)
    ensures "vlan pvid " <= Trimmed(line) ==> KindOf(line).Plain?
  {
    hide Trimmed;
    var t := Trimmed(line);
    if "vlan pvid " <= t {
      assert t[0] == 'v' && t[1] == 'l' && t[5] == 'p';
    }
  }

  /** Content is every line but blanks, annotations and exits, in order. */
  lemma ContentIs(front: seq<string>, line: string)
    ensures var t := Trimmed(line);
            Content(front + [line]) == Content(front) + if t == "" || t[0] == '!' || t == "exit" then [] else [line]
  {
    SkipsAndExits(line);
    ContentConcat(front, [line]);
    hide KindOf, Trimmed;
    assert [line][1..] == [];
  }

  /** The header of a parsed file is its first line without the carriage return. */
  lemma HeaderIs(line: string, rest: string)
    requires '\n' !in line && (line == "" || line[|line| - 1] != '\r')
    ensures Parsed(line + ['\n'] + rest).header == line && Parsed(line + ['\r'] + ['\n'] + rest).header == line
  {
    SplitAtSeparator(line, rest, '\n');
    SplitAtSeparator(line + ['\r'], rest, '\n');
    hide Sections, Split;
    assert (line + ['\r'])[..|line|] == line;
    assert TrimCR(line) == line && TrimCR(line + ['\r']) == TrimCR(line);
  }

  // ---------------------------------------------------------------------
  // Spans and edits
  // ---------------------------------------------------------------------

  /**
   Where a body ends: for a block at its exit, or at the first interface label in front of
   it; for any other section at the next label, or at the end of the file.
   */
  lemma RegionIs(lines: seq<string>, i: nat)
    requires i < |lines|
    ensures var end := RegionEnd(lines, i);
            match ExitOf(lines, i)
            case Some(e) =>
              && i < end <= e < |lines| && (end < e ==> IsInterface(lines[end]))
              && forall k :: i < k < end ==> !IsInterface(lines[k])
            case None =>
              && i < end <= |lines| && (end < |lines| ==> IsLabel(lines[end]))
              && forall k :: i < k < end ==> !IsLabel(lines[k])
  {
    hide KindOf, BeforeInterface, BeforeLabel, ScanExit, IsInterface, IsLabel;
    match ExitOf(lines, i) {
      case Some(e) =>
        ExitOfBound(lines, i);
        var inside := lines[i + 1..e];
        assert forall k :: 0 <= k < |inside| ==> inside[k] == lines[i + 1 + k];
        assert forall k :: i < k < i + 1 + BeforeInterface(inside) ==> lines[k] == inside[k - i - 1];
      case None =>
        var rest := lines[i + 1..];
        assert forall k :: 0 <= k < |rest| ==> rest[k] == lines[i + 1 + k];
        assert forall k :: i < k < i + 1 + BeforeLabel(rest) ==> lines[k] == rest[k - i - 1];
    }
  }

  lemma {:induction false} BlanksAre(lines: seq<string>)
    ensures forall k :: 0 <= k < Blanks(lines) ==> IsBlank(lines[k])
    ensures Blanks(lines) < |lines| ==> !IsBlank(lines[Blanks(lines)])
  {
    hide IsBlank;
    if lines != [] && IsBlank(lines[0]) {
      BlanksAre(lines[1..]);
    }
  }

  /** The new block goes behind the anchor's exit or body and the blank lines there; nothing else changes. */
  lemma InsertPlace(lines: seq<string>, after: string, name: string, body: seq<string>) returns (at: nat)
    requires Inserted(lines, after, name, body).Ok?
    ensures LabelLine(lines, after).Some? && LabelLine(lines, name) == None && TrimSpace(name) != ""
    ensures var anchor := LabelLine(lines, after).value;
            var end := match ExitOf(lines, anchor) case Some(e) => e + 1 case None => RegionEnd(lines, anchor);
            && end <= at <= |lines|
            && (forall k :: end <= k < at ==> IsBlank(lines[k])) && (at < |lines| ==> !IsBlank(lines[at]))
            && Inserted(lines, after, name, body).value
               == lines[..at] + ([name] + Spaced(body) + ["exit", ""]) + lines[at..]
  {
    hide LabelLine, RegionEnd, Spaced, IsBlank, Blanks, SectionEnd, TrimSpace;
    var anchor := LabelLine(lines, after).value;
    at := InsertAt(lines, anchor);
    SectionEndCases(lines, anchor);
    var rest := lines[SectionEnd(lines, anchor)..];
    BlanksAre(rest);
    assert forall k :: 0 <= k < |rest| ==> rest[k] == lines[SectionEnd(lines, anchor) + k];
    assert forall k :: SectionEnd(lines, anchor) <= k < at ==> lines[k] == rest[k - SectionEnd(lines, anchor)];
    hide ExitOf;
  }

  /** Which insertions are refused, in this order: an empty label, one that is there, a missing anchor. */
  lemma InsertRefused(lines: seq<string>, after: string, name: string, body: seq<string>)
    ensures Inserted(lines, after, name, body).Err? <==>
              TrimSpace(name) == "" || LabelLine(lines, name).Some? || LabelLine(lines, after) == None
    ensures Inserted(lines, after, name, body) == Err(EmptyLabel) <==> TrimSpace(name) == ""
    ensures TrimSpace(name) != "" && LabelLine(lines, name).Some? ==>
              Inserted(lines, after, name, body) == Err(SectionExists(name))
    ensures TrimSpace(name) != "" && LabelLine(lines, name) == None && LabelLine(lines, after) == None ==>
              Inserted(lines, after, name, body) == Err(NoSection(after))
  {
    hide LabelLine, InsertAt, TrimSpace, BlockLines;
  }

  /** A section goes from its label through its exit or body, with one blank line if one follows. */
  lemma DeletePlace(lines: seq<string>, name: string)
    ensures match Deleted(lines, name)
            case Err(e) =>
              if name == "vlan database" || name == "configure" then e == Protected(name)
              else LabelLine(lines, name) == None && e == NoSection(name)
            case Ok(out) =>
              && name != "vlan database" && name != "configure" && LabelLine(lines, name).Some?
              && var i := LabelLine(lines, name).value;
                 var end := match ExitOf(lines, i) case Some(e) => e + 1 case None => RegionEnd(lines, i);
                 && i < end <= |lines|
                 && out == lines[..i] + if end < |lines| && IsBlank(lines[end]) then lines[end + 1..] else lines[end..]
  {
    hide LabelLine, RegionEnd, IsBlank, SectionEnd;
    if LabelLine(lines, name).Some? {
      SectionEndCases(lines, LabelLine(lines, name).value);
    }
    hide ExitOf;
  }
}
