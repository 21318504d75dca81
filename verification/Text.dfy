/**
 The string operations of Go's standard library that the text-config code is
 built on, over strings of Unicode code points, and the laws the codecs need.
 */
module Text {
  import opened Wrappers

  /** unicode.IsSpace. */
  predicate IsSpace(c: char) {
    || '\t' <= c <= '\r'
    || c == ' '
    || c == '\U{0085}'
    || c == '\U{00A0}'
    || c == '\U{1680}'
    || '\U{2000}' <= c <= '\U{200A}'
    || c == '\U{2028}'
    || c == '\U{2029}'
    || c == '\U{202F}'
    || c == '\U{205F}'
    || c == '\U{3000}'
  }

  // ---------------------------------------------------------------------
  // Trimming
  // ---------------------------------------------------------------------

  function TrimLeft(s: string): string {
    if s != "" && IsSpace(s[0]) then TrimLeft(s[1..]) else s
  }

  function TrimRight(s: string): string {
    if s != "" && IsSpace(s[|s| - 1]) then TrimRight(s[..|s| - 1]) else s
  }

  /** strings.TrimSpace. */
  function TrimSpace(s: string): string {
    TrimRight(TrimLeft(s))
  }

  /** strings.TrimRight(s, "\r"). */
  function TrimCR(s: string): string {
    if s != "" && s[|s| - 1] == '\r' then TrimCR(s[..|s| - 1]) else s
  }

  lemma {:induction false} TrimSpaceSnoc(s: string, c: char)
    requires IsSpace(c)
    ensures TrimSpace(s + [c]) == TrimSpace(s)
  {
    if s == "" {
      assert (s + [c])[1..] == "";
    } else if IsSpace(s[0]) {
      assert (s + [c])[1..] == s[1..] + [c];
      TrimSpaceSnoc(s[1..], c);
    } else {
      assert TrimLeft(s + [c]) == s + [c];
      assert (s + [c])[..|s|] == s;
    }
  }

  /** Carriage returns at the end of a line never change its trimmed text. */
  lemma {:induction false} TrimSpaceAfterTrimCR(s: string)
    ensures TrimSpace(TrimCR(s)) == TrimSpace(s)
  {
    if s != "" && s[|s| - 1] == '\r' {
      TrimSpaceAfterTrimCR(s[..|s| - 1]);
      TrimSpaceSnoc(s[..|s| - 1], '\r');
      assert s == s[..|s| - 1] + ['\r'];
    }
  }

  lemma {:induction false} TrimCRIdempotent(s: string)
    ensures TrimCR(TrimCR(s)) == TrimCR(s)
  {
    if s != "" && s[|s| - 1] == '\r' {
      TrimCRIdempotent(s[..|s| - 1]);
    }
  }

  /** TrimCR cuts a suffix, so no new characters appear. */
  lemma {:induction false} TrimCRIsPrefix(s: string)
    ensures TrimCR(s) <= s
  {
    if s != "" && s[|s| - 1] == '\r' {
      TrimCRIsPrefix(s[..|s| - 1]);
    }
  }

  /** Text that starts and ends with a visible character is already trimmed. */
  lemma TrimSpaceOfTrimmed(s: string)
    requires s != "" && !IsSpace(s[0]) && !IsSpace(s[|s| - 1])
    ensures TrimSpace(s) == s && TrimCR(s) == s
  {
  }

  // ---------------------------------------------------------------------
  // strings.Fields
  // ---------------------------------------------------------------------

  function Flush(word: string): seq<string> {
    if word == "" then [] else [word]
  }

  function FieldsFrom(s: string, word: string): seq<string> {
    if s == "" then Flush(word)
    else if IsSpace(s[0]) then Flush(word) + FieldsFrom(s[1..], "")
    else FieldsFrom(s[1..], word + [s[0]])
  }

  /** strings.Fields: the maximal runs of non-space characters. */
  function Fields(s: string): seq<string> {
    FieldsFrom(s, "")
  }

  predicate SpaceFree(s: string) {
    forall i :: 0 <= i < |s| ==> !IsSpace(s[i])
  }

  lemma {:induction false} FieldsOfWord(word: string, rest: string, seen: string)
    requires SpaceFree(word)
    ensures FieldsFrom(word + rest, seen) == FieldsFrom(rest, seen + word)
  {
    if word == "" {
      assert word + rest == rest && seen + word == seen;
    } else {
      assert (word + rest)[1..] == word[1..] + rest;
      FieldsOfWord(word[1..], rest, seen + [word[0]]);
      assert seen + [word[0]] + word[1..] == seen + word;
    }
  }

  /** Words joined by single spaces. */
  function Phrase(words: seq<string>): string {
    if words == [] then ""
    else if |words| == 1 then words[0]
    else words[0] + " " + Phrase(words[1..])
  }

  /** Fields undoes Phrase. */
  lemma {:induction false} FieldsOfPhrase(words: seq<string>)
    requires forall w :: w in words ==> w != "" && SpaceFree(w)
    ensures Fields(Phrase(words)) == words
  {
    if words == [] {
    } else if |words| == 1 {
      FieldsOfWord(words[0], "", "");
      assert words[0] + "" == words[0] && "" + words[0] == words[0];
      assert words == [words[0]];
    } else {
      assert forall w :: w in words[1..] ==> w in words;
      FieldsOfPhrase(words[1..]);
      var rest := " " + Phrase(words[1..]);
      assert Phrase(words) == words[0] + rest;
      FieldsOfWord(words[0], rest, "");
      assert "" + words[0] == words[0];
      assert rest[1..] == Phrase(words[1..]);
      assert words == [words[0]] + words[1..];
    }
  }

  /** A space at the end adds no field. */
  lemma {:induction false} FieldsSnocSpace(s: string, c: char, word: string)
    requires IsSpace(c)
    ensures FieldsFrom(s + [c], word) == FieldsFrom(s, word)
  {
    if s == "" {
      assert (s + [c])[1..] == "";
    } else {
      assert (s + [c])[1..] == s[1..] + [c];
      FieldsSnocSpace(s[1..], c, if IsSpace(s[0]) then "" else word + [s[0]]);
    }
  }

  lemma {:induction false} FieldsAfterTrimCR(s: string)
    ensures Fields(TrimCR(s)) == Fields(s)
  {
    if s != "" && s[|s| - 1] == '\r' {
      FieldsAfterTrimCR(s[..|s| - 1]);
      FieldsSnocSpace(s[..|s| - 1], '\r', "");
      assert s == s[..|s| - 1] + ['\r'];
    }
  }

  // ---------------------------------------------------------------------
  // strings.Split and strings.Join on a one-character separator
  // ---------------------------------------------------------------------

  /** strings.Split: an empty text is one empty piece. */
  function Split(s: string, sep: char): (pieces: seq<string>)
    ensures pieces != []
  {
    if s == "" then [""]
    else
      var rest := Split(s[1..], sep);
      if s[0] == sep then [""] + rest else [[s[0]] + rest[0]] + rest[1..]
  }

  /** strings.Join. */
  function Join(pieces: seq<string>, sep: char): string {
    if pieces == [] then ""
    else if |pieces| == 1 then pieces[0]
    else pieces[0] + [sep] + Join(pieces[1..], sep)
  }

  lemma {:induction false} SplitPieces(s: string, sep: char)
    ensures forall piece :: piece in Split(s, sep) ==> sep !in piece
    ensures Join(Split(s, sep), sep) == s
  {
    if s != "" {
      SplitPieces(s[1..], sep);
      var rest := Split(s[1..], sep);
      if s[0] == sep {
        assert ([""] + rest)[1..] == rest;
        assert "" + [sep] + s[1..] == s;
      } else {
        var pieces := [[s[0]] + rest[0]] + rest[1..];
        assert pieces[1..] == rest[1..];
        assert forall piece :: piece in pieces ==> piece == pieces[0] || piece in rest;
        assert [s[0]] + s[1..] == s;
        if |rest| > 1 {
          assert [s[0]] + (rest[0] + [sep] + Join(rest[1..], sep))
              == [s[0]] + rest[0] + [sep] + Join(rest[1..], sep);
        }
      }
    }
  }

  lemma {:induction false} SplitOfPiece(piece: string, sep: char)
    requires sep !in piece
    ensures Split(piece, sep) == [piece]
  {
    if piece != "" {
      SplitOfPiece(piece[1..], sep);
      assert piece == [piece[0]] + piece[1..];
    }
  }

  lemma {:induction false} SplitAtSeparator(piece: string, rest: string, sep: char)
    requires sep !in piece
    ensures Split(piece + [sep] + rest, sep) == [piece] + Split(rest, sep)
  {
    var s := piece + [sep] + rest;
    if piece == "" {
      assert s[1..] == rest;
    } else {
      assert s[1..] == piece[1..] + [sep] + rest;
      SplitAtSeparator(piece[1..], rest, sep);
      var more := Split(s[1..], sep);
      assert more[0] == piece[1..] && more[1..] == Split(rest, sep);
      assert piece == [piece[0]] + piece[1..];
    }
  }

  /** Split undoes Join, so a text and its pieces determine each other. */
  lemma {:induction false} SplitOfJoin(pieces: seq<string>, sep: char)
    requires pieces != []
    requires forall piece :: piece in pieces ==> sep !in piece
    ensures Split(Join(pieces, sep), sep) == pieces
  {
    if |pieces| == 1 {
      SplitOfPiece(pieces[0], sep);
      assert pieces == [pieces[0]];
    } else {
      SplitAtSeparator(pieces[0], Join(pieces[1..], sep), sep);
      SplitOfJoin(pieces[1..], sep);
      assert pieces == [pieces[0]] + pieces[1..];
    }
  }

  // ---------------------------------------------------------------------
  // strconv.Itoa and strconv.Atoi
  // ---------------------------------------------------------------------

  /** The values of Go's 64-bit int. */
  predicate IsGoInt(n: int) {
    -0x8000_0000_0000_0000 <= n < 0x8000_0000_0000_0000
  }

  predicate IsDigit(c: char) {
    '0' <= c <= '9'
  }

  function DigitChar(d: nat): char
    requires d < 10
  {
    '0' + d as char
  }

  function DigitValue(c: char): nat
    requires IsDigit(c)
  {
    c as int - '0' as int
  }

  function Digits(n: nat): (s: string)
    ensures s != "" && forall i :: 0 <= i < |s| ==> IsDigit(s[i])
  {
    if n < 10 then [DigitChar(n)] else Digits(n / 10) + [DigitChar(n % 10)]
  }

  /** strconv.Itoa, the "%d" of the line templates. */
  function Itoa(n: int): string {
    if n < 0 then "-" + Digits(-n) else Digits(n)
  }

  function DigitsValue(s: string): Option<nat> {
    if s == "" then Some(0)
    else
      match DigitsValue(s[..|s| - 1])
      case None => None
      case Some(high) =>
        if IsDigit(s[|s| - 1]) then Some(high * 10 + DigitValue(s[|s| - 1])) else None
  }

  /** strconv.Atoi: an optional sign, then digits, within the 64-bit range. */
  function Atoi(s: string): Option<int> {
    var body := if s != "" && (s[0] == '+' || s[0] == '-') then s[1..] else s;
    if body == "" then None
    else
      match DigitsValue(body)
      case None => None
      case Some(magnitude) =>
        var value := (if s[0] == '-' then -1 else 1) * magnitude;
        if IsGoInt(value) then Some(value) else None
  }

  lemma {:induction false} DigitsValueOfDigits(n: nat)
    ensures DigitsValue(Digits(n)) == Some(n)
  {
    var s := Digits(n);
    if n < 10 {
      assert s[..|s| - 1] == "";
    } else {
      DigitsValueOfDigits(n / 10);
      assert s[..|s| - 1] == Digits(n / 10);
    }
  }

  /** Atoi undoes Itoa on the non-negative machine integers. */
  lemma AtoiOfItoa(n: nat)
    requires IsGoInt(n)
    ensures Atoi(Itoa(n)) == Some(n)
  {
    DigitsValueOfDigits(n);
    assert IsDigit(Itoa(n)[0]);
  }

  lemma {:induction false} ItoaWord(n: nat)
    ensures Itoa(n) != "" && SpaceFree(Itoa(n))
    ensures '\n' !in Itoa(n) && ',' !in Itoa(n)
  {
    var s := Digits(n);
    forall i | 0 <= i < |s|
      ensures !IsSpace(s[i]) && s[i] != '\n' && s[i] != ','
    {
      assert IsDigit(s[i]);
    }
  }
}
