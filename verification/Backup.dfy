/**
 The FMv2 configuration backup: an 8-byte header with a length and a checksum in front
 of tagged records, each a NUL-terminated name and its data.
 */
module Backup {
  import opened Wrappers
  import opened Bits

  const HEADER_SIZE := 8
  const RECORD_HEADER := 4
  const RECORD_TAG: u16 := 1
  const CHECKSUM_MOD := 65535
  const MAGIC_FMV2: seq<byte> := [0x46, 0x4d, 0x76, 0x32]

  datatype Section = Section(name: seq<byte>, data: seq<byte>, raw: seq<byte>)

  datatype Config = Config(checksum: u16, sections: seq<Section>, raw: seq<byte>)

  datatype ConfigError =
    | Truncated
    | BadMagic
    | LengthMismatch
    | OddLength
    | ChecksumMismatch(computed: u16, stored: u16)
    | TrailingGarbage
    | UnexpectedTag(tag: u16)
    | Overrun
    | NoName

  // ---------------------------------------------------------------------
  // Checksum
  // ---------------------------------------------------------------------

  /** The sum of the big-endian words, unbounded. */
  function WordSum(payload: seq<byte>): nat
    requires |payload| % 2 == 0
  {
    if payload == [] then 0
    else
      var n := |payload| - 2;
      WordSum(payload[..n]) + Word(payload[n], payload[n + 1])
  }

  /** The payload read as one big-endian number. */
  function BigNumber(payload: seq<byte>): nat {
    if payload == [] then 0 else BigNumber(payload[..|payload| - 1]) * 0x100 + payload[|payload| - 1]
  }

  function CheckOf(payload: seq<byte>): u16
    requires |payload| % 2 == 0
  {
    WordSum(payload) % CHECKSUM_MOD
  }

  /** Up to 65537 words fit the 32-bit sum. */
  lemma {:induction false} SumBound(payload: seq<byte>)
    requires |payload| % 2 == 0
    ensures WordSum(payload) <= 0xffff * (|payload| / 2)
  {
    if payload != [] {
      SumBound(payload[..|payload| - 2]);
    }
  }

  /** The 32-bit sum of the words, reduced; an odd payload has none. */
  method Checksum(payload: seq<byte>) returns (r: Option<u16>)
    ensures r.None? <==> |payload| % 2 != 0
    ensures r.Some? ==> r.value == WordSum(payload) % 0x1_0000_0000 % CHECKSUM_MOD
    ensures r.Some? && |payload| <= 2 * 65537 ==> r.value == CheckOf(payload) == BigNumber(payload) % CHECKSUM_MOD
  {
    hide Word;
    if |payload| % 2 != 0 {
      return None;
    }
    var sum: u32 := 0;
    var offset := 0;
    while offset < |payload|
      invariant 0 <= offset <= |payload| && offset % 2 == 0
      invariant sum == WordSum(payload[..offset]) % 0x1_0000_0000
    {
      assert payload[..offset + 2][..offset] == payload[..offset];
      assert payload[..offset + 2][offset] == payload[offset]
             && payload[..offset + 2][offset + 1] == payload[offset + 1];
      SumStep(WordSum(payload[..offset]), Word(payload[offset], payload[offset + 1]));
      sum := Wrapped(sum + Word(payload[offset], payload[offset + 1]));
      offset := offset + 2;
    }
    assert payload[..offset] == payload;
    SumBound(payload);
    ChecksumIsNumber(payload);
    return Some(sum % CHECKSUM_MOD);
  }

  /** uint32 arithmetic */
  function Wrapped(v: nat): u32 {
    v % 0x1_0000_0000
  }

  lemma SumStep(sum: nat, word: nat)
    ensures (sum + word) % 0x1_0000_0000 == (sum % 0x1_0000_0000 + word) % 0x1_0000_0000
  {
  }

  /** The checksum is the remainder of the payload as a number: 65536 leaves remainder 1. */
  lemma {:induction false} ChecksumIsNumber(payload: seq<byte>)
    requires |payload| % 2 == 0
    ensures BigNumber(payload) % CHECKSUM_MOD == WordSum(payload) % CHECKSUM_MOD
  {
    if payload != [] {
      var n := |payload| - 2;
      var front := payload[..n];
      ChecksumIsNumber(front);
      assert payload[..n + 1][..n] == front;
      assert BigNumber(payload[..n + 1]) == BigNumber(front) * 0x100 + payload[n];
      assert BigNumber(payload) == BigNumber(payload[..n + 1]) * 0x100 + payload[n + 1];
      SameRemainder(BigNumber(front), WordSum(front), Word(payload[n], payload[n + 1]));
    }
  }

  lemma SameRemainder(number: nat, sum: nat, word: nat)
    requires number % CHECKSUM_MOD == sum % CHECKSUM_MOD
    ensures (number * 0x1_0000 + word) % CHECKSUM_MOD == (sum + word) % CHECKSUM_MOD
  {
    var q, r := number / CHECKSUM_MOD, sum / CHECKSUM_MOD;
    assert number * 0x1_0000 + word == sum + word + (number + q - r) * CHECKSUM_MOD;
    Multiple(sum + word, number + q - r);
  }

  lemma Multiple(a: int, k: int)
    ensures (a + k * CHECKSUM_MOD) % CHECKSUM_MOD == a % CHECKSUM_MOD
  {
    var q, r := a / CHECKSUM_MOD, a % CHECKSUM_MOD;
    assert a + k * CHECKSUM_MOD == (q + k) * CHECKSUM_MOD + r;
  }

  lemma {:induction false} SumConcat(a: seq<byte>, b: seq<byte>)
    requires |a| % 2 == 0 && |b| % 2 == 0
    ensures WordSum(a + b) == WordSum(a) + WordSum(b)
  {
    if b == [] {
      assert a + b == a;
    } else {
      var n := |b| - 2;
      SumConcat(a, b[..n]);
      assert (a + b)[..|a| + n] == a + b[..n];
    }
  }

  /** Additive over concatenation of even payloads. */
  lemma ChecksumAdds(a: seq<byte>, b: seq<byte>)
    requires |a| % 2 == 0 && |b| % 2 == 0
    ensures CheckOf(a + b) == (CheckOf(a) + CheckOf(b)) % CHECKSUM_MOD
  {
    SumConcat(a, b);
    var x, y := WordSum(a), WordSum(b);
    Multiple(x % CHECKSUM_MOD + y % CHECKSUM_MOD, x / CHECKSUM_MOD + y / CHECKSUM_MOD);
  }

  /** Replacing one aligned word goes unnoticed exactly when 0x0000 and 0xFFFF are exchanged. */
  lemma WordChangeDetected(a: seq<byte>, hi: byte, lo: byte, hi': byte, lo': byte, b: seq<byte>)
    requires |a| % 2 == 0 && |b| % 2 == 0
    ensures CheckOf(a + [hi, lo] + b) == CheckOf(a + [hi', lo'] + b)
       <==> (hi == hi' && lo == lo') || (hi == lo == 0 && hi' == lo' == 0xff) || (hi == lo == 0xff && hi' == lo' == 0)
  {
    hide WordSum, Word;
    SumOfThree(a, hi, lo, b);
    SumOfThree(a, hi', lo', b);
    WordsOfBytes(hi, lo, hi', lo');
    Remainders(WordSum(a) + WordSum(b), Word(hi, lo), Word(hi', lo'));
  }

  lemma WordsOfBytes(hi: byte, lo: byte, hi': byte, lo': byte)
    ensures Word(hi, lo) == Word(hi', lo') <==> hi == hi' && lo == lo'
    ensures Word(hi, lo) == 0 <==> hi == lo == 0
    ensures Word(hi, lo) == 0xffff <==> hi == lo == 0xff
    ensures Word(hi', lo') == 0 <==> hi' == lo' == 0
    ensures Word(hi', lo') == 0xffff <==> hi' == lo' == 0xff
  {
  }

  lemma SumOfThree(a: seq<byte>, hi: byte, lo: byte, b: seq<byte>)
    requires |a| % 2 == 0 && |b| % 2 == 0
    ensures WordSum(a + [hi, lo] + b) == WordSum(a) + WordSum(b) + Word(hi, lo)
  {
    hide WordSum, Word;
    SumConcat(a + [hi, lo], b);
    SumConcat(a, [hi, lo]);
    SumOfOne(hi, lo);
  }

  lemma SumOfOne(hi: byte, lo: byte)
    ensures WordSum([hi, lo]) == Word(hi, lo)
  {
    hide Word;
    assert [hi, lo][..0] == [];
    assert WordSum([]) == 0;
  }

  lemma Remainders(rest: nat, v: u16, w: u16)
    ensures (rest + v) % CHECKSUM_MOD == (rest + w) % CHECKSUM_MOD <==>
            v == w || (v == 0 && w == 0xffff) || (v == 0xffff && w == 0)
  {
    var p, q := (rest + v) / CHECKSUM_MOD, (rest + w) / CHECKSUM_MOD;
    if (rest + v) % CHECKSUM_MOD == (rest + w) % CHECKSUM_MOD {
      assert v - w == (p - q) * CHECKSUM_MOD;
      assert -1 <= p - q <= 1;
    }
    if v == 0 && w == 0xffff {
      Multiple(rest, 1);
    }
    if v == 0xffff && w == 0 {
      Multiple(rest, 1);
    }
  }

  // ---------------------------------------------------------------------
  // Records
  // ---------------------------------------------------------------------

  function RecordBytes(body: seq<byte>): seq<byte>
    requires |body| < 0x1_0000
  {
    [High(RECORD_TAG), Low(RECORD_TAG), High(|body|), Low(|body|)] + body
  }

  /** A record body: a name, its NUL, and data, in no more bytes than its length field counts. */
  predicate IsBody(body: seq<byte>) {
    |body| < 0x1_0000 && 0 in body
  }

  predicate AreBodies(bodies: seq<seq<byte>>) {
    forall k :: 0 <= k < |bodies| ==> IsBody(bodies[k])
  }

  /** The payload of some records. */
  function Emitted(bodies: seq<seq<byte>>): seq<byte>
    requires AreBodies(bodies)
  {
    if bodies == [] then [] else RecordBytes(bodies[0]) + Emitted(bodies[1..])
  }

  /** The number of bytes in front of the first NUL. */
  function NameLength(body: seq<byte>): (n: nat)
    requires 0 in body
    ensures n < |body| && body[n] == 0 && forall k :: 0 <= k < n ==> body[k] != 0
  {
    if body[0] == 0 then 0 else 1 + NameLength(body[1..])
  }

  function SectionOf(body: seq<byte>): Section
    requires 0 in body
  {
    Section(body[..NameLength(body)], body[NameLength(body) + 1..], body)
  }

  function SectionsOf(bodies: seq<seq<byte>>): seq<Section>
    requires AreBodies(bodies)
  {
    seq(|bodies|, k requires 0 <= k < |bodies| => SectionOf(bodies[k]))
  }

  /** Records in front of what follows, unless that fails. */
  function Onto(front: seq<seq<byte>>, r: Result<seq<seq<byte>>, ConfigError>): Result<seq<seq<byte>>, ConfigError> {
    match r
    case Err(e) => Err(e)
    case Ok(bodies) => Ok(front + bodies)
  }

  lemma OntoOnto(a: seq<seq<byte>>, b: seq<seq<byte>>, r: Result<seq<seq<byte>>, ConfigError>)
    ensures Onto(a, Onto(b, r)) == Onto(a + b, r) && Onto([], r) == r
  {
    if r.Ok? {
      assert a + (b + r.value) == a + b + r.value;
      assert [] + r.value == r.value;
    }
  }

  /** The records of a payload, from the front. */
  function RecordsIn(payload: seq<byte>): Result<seq<seq<byte>>, ConfigError> {
    if payload == [] then Ok([])
    else if |payload| < RECORD_HEADER then Err(TrailingGarbage)
    else if Word(payload[0], payload[1]) != RECORD_TAG then Err(UnexpectedTag(Word(payload[0], payload[1])))
    else
      var length := Word(payload[2], payload[3]);
      if length > |payload| - RECORD_HEADER then Err(Overrun)
      else
        var body := payload[RECORD_HEADER..RECORD_HEADER + length];
        if 0 !in body then Err(NoName)
        else Onto([body], RecordsIn(payload[RECORD_HEADER + length..]))
  }

  /** A section's name has no NUL, and name, NUL and data are the whole body. */
  lemma SectionIs(body: seq<byte>)
    requires 0 in body
    ensures var s := SectionOf(body); s.raw == body == s.name + [0] + s.data && 0 !in s.name
  {
  }

  /** Splits a record body at its first NUL. */
  method SplitSectionBody(body: seq<byte>) returns (r: Result<Section, ConfigError>)
    ensures r == if 0 in body then Ok(SectionOf(body)) else Err(NoName)
    ensures r.Ok? ==> body == r.value.name + [0] + r.value.data && 0 !in r.value.name && r.value.raw == body
  {
    for idx := 0 to |body|
      invariant forall k :: 0 <= k < idx ==> body[k] != 0
    {
      if body[idx] != 0 {
        continue;
      }
      assert NameLength(body) == idx;
      SectionIs(body);
      return Ok(Section(body[..idx], body[idx + 1..], body));
    }
    return Err(NoName);
  }

  method ParseSections(payload: seq<byte>) returns (r: Result<seq<Section>, ConfigError>)
    ensures match RecordsIn(payload)
            case Err(e) => r == Err(e)
            case Ok(bodies) => AreBodies(bodies) && r == Ok(SectionsOf(bodies))
  {
    hide Word, SectionOf, SectionsOf, Onto;
    RecordsAreBodies(payload);
    NoSections();
    OntoOnto([], [], RecordsIn(payload));
    var sections: seq<Section> := [];
    var rest := payload;
    ghost var done: seq<seq<byte>> := [];
    ghost var all := RecordsIn(payload);
    while |rest| > 0
      invariant AreBodies(done) && sections == SectionsOf(done)
      invariant all == Onto(done, RecordsIn(rest))
      decreases |rest|
    {
      OntoError(done, RecordsIn(rest));
      if |rest| < RECORD_HEADER {
        return Err(TrailingGarbage);
      }
      var tag := Word(rest[0], rest[1]);
      if tag != RECORD_TAG {
        return Err(UnexpectedTag(tag));
      }
      var length := Word(rest[2], rest[3]);
      if length > |rest| - RECORD_HEADER {
        return Err(Overrun);
      }
      var body := rest[RECORD_HEADER..RECORD_HEADER + length];
      var section := SplitSectionBody(body);
      if section.Err? {
        return Err(section.error);
      }
      SectionsSnoc(done, body);
      OntoOnto(done, [body], RecordsIn(rest[RECORD_HEADER + length..]));
      sections := sections + [section.value];
      done := done + [body];
      rest := rest[RECORD_HEADER + length..];
    }
    OntoNothing(done);
    return Ok(sections);
  }

  lemma OntoError(front: seq<seq<byte>>, r: Result<seq<seq<byte>>, ConfigError>)
    ensures r.Err? ==> Onto(front, r) == r
  {
  }

  lemma OntoNothing(front: seq<seq<byte>>)
    ensures Onto(front, Ok([])) == Ok(front)
  {
    assert front + [] == front;
  }

  lemma NoSections()
    ensures SectionsOf([]) == []
  {
  }

  lemma SectionsSnoc(bodies: seq<seq<byte>>, body: seq<byte>)
    requires AreBodies(bodies) && IsBody(body)
    ensures SectionsOf(bodies + [body]) == SectionsOf(bodies) + [SectionOf(body)]
  {
    hide SectionOf;
  }

  /** What is parsed is a list of records, and re-emitting them rebuilds the payload byte for byte. */
  lemma {:induction false} RecordsAreBodies(payload: seq<byte>)
    ensures RecordsIn(payload).Ok? ==>
              AreBodies(RecordsIn(payload).value) && Emitted(RecordsIn(payload).value) == payload
    decreases |payload|
  {
    hide Word, RecordBytes, Emitted;
    NothingEmitted();
    if RecordsIn(payload).Ok? && payload != [] {
      var length: nat := Word(payload[2], payload[3]);
      var body, rest := payload[RECORD_HEADER..RECORD_HEADER + length], payload[RECORD_HEADER + length..];
      RecordsAreBodies(rest);
      FirstRecord(payload, length);
      var bodies := RecordsIn(payload).value;
      assert bodies[1..] == RecordsIn(rest).value && bodies[0] == body;
      EmittedFirst(bodies);
    }
  }

  lemma NothingEmitted()
    ensures Emitted([]) == [] && RecordsIn([]) == Ok([])
  {
  }

  /** The first record's header and body are the front of the payload. */
  lemma FirstRecord(payload: seq<byte>, length: nat)
    requires |payload| >= RECORD_HEADER + length && Word(payload[2], payload[3]) == length
    requires Word(payload[0], payload[1]) == RECORD_TAG
    ensures RecordBytes(payload[RECORD_HEADER..RECORD_HEADER + length]) + payload[RECORD_HEADER + length..] == payload
  {
    RecordIs(payload[RECORD_HEADER..RECORD_HEADER + length], payload[0], payload[1], payload[2], payload[3]);
    hide Word, RecordBytes;
    FourAndRest(payload, length);
  }

  lemma RecordIs(body: seq<byte>, a: byte, b: byte, c: byte, d: byte)
    requires |body| < 0x1_0000 && Word(a, b) == RECORD_TAG && Word(c, d) == |body|
    ensures RecordBytes(body) == [a, b, c, d] + body
  {
    PartsOfWord(a, b);
    PartsOfWord(c, d);
    hide Word, High, Low;
  }

  lemma FourAndRest(s: seq<byte>, n: nat)
    requires |s| >= 4 + n
    ensures [s[0], s[1], s[2], s[3]] + s[4..4 + n] + s[4 + n..] == s
  {
  }

  /** Emitted records are parsed back, in order: a payload is accepted exactly when it is emitted from records. */
  lemma {:induction false} EmittedIsParsed(bodies: seq<seq<byte>>)
    requires AreBodies(bodies)
    ensures RecordsIn(Emitted(bodies)) == Ok(bodies)
  {
    hide Emitted, RecordsIn, IsBody, RecordBytes;
    NothingEmitted();
    if bodies != [] {
      EmittedIsParsed(bodies[1..]);
      EmittedFirst(bodies);
      assert IsBody(bodies[0]);
      RecordIsRead(bodies[0], Emitted(bodies[1..]));
      assert bodies == [bodies[0]] + bodies[1..];
    }
  }

  /** A record in front of a payload is read first. */
  lemma RecordIsRead(body: seq<byte>, rest: seq<byte>)
    requires IsBody(body)
    ensures RecordsIn(RecordBytes(body) + rest) == Onto([body], RecordsIn(rest))
  {
    hide Word, High, Low, Onto, RecordsIn;
    WordParts(|body|);
    WordParts(RECORD_TAG);
    var front := [High(RECORD_TAG), Low(RECORD_TAG), High(|body|), Low(|body|)];
    FrontOf(front, body, rest);
    ReadFirst(front + body + rest, body, rest);
  }

  lemma ReadFirst(payload: seq<byte>, body: seq<byte>, rest: seq<byte>)
    requires IsBody(body) && |payload| == RECORD_HEADER + |body| + |rest|
    requires Word(payload[0], payload[1]) == RECORD_TAG && Word(payload[2], payload[3]) == |body|
    requires payload[RECORD_HEADER..RECORD_HEADER + |body|] == body && payload[RECORD_HEADER + |body|..] == rest
    ensures RecordsIn(payload) == Onto([body], RecordsIn(rest))
  {
    hide Word, Onto;
  }

  lemma FrontOf(front: seq<byte>, body: seq<byte>, rest: seq<byte>)
    requires |front| == 4
    ensures var s := front + body + rest;
            && |s| == 4 + |body| + |rest|
            && s[0] == front[0] && s[1] == front[1] && s[2] == front[2] && s[3] == front[3]
            && s[4..4 + |body|] == body && s[4 + |body|..] == rest
  {
  }

  lemma EmittedFirst(bodies: seq<seq<byte>>)
    requires AreBodies(bodies) && bodies != []
    ensures Emitted(bodies) == RecordBytes(bodies[0]) + Emitted(bodies[1..])
  {
  }

  lemma AcceptedIffEmitted(payload: seq<byte>)
    ensures RecordsIn(payload).Ok? <==> exists bodies :: AreBodies(bodies) && Emitted(bodies) == payload
  {
    RecordsAreBodies(payload);
    if bodies :| AreBodies(bodies) && Emitted(bodies) == payload {
      EmittedIsParsed(bodies);
    }
  }

  // ---------------------------------------------------------------------
  // The whole file
  // ---------------------------------------------------------------------

  /** The verdict on a file. */
  function ConfigOf(data: seq<byte>): Result<Config, ConfigError> {
    if |data| < HEADER_SIZE then Err(Truncated)
    else if data[..4] != MAGIC_FMV2 then Err(BadMagic)
    else if Word(data[4], data[5]) != |data| - HEADER_SIZE then Err(LengthMismatch)
    else
      var payload, stored := data[HEADER_SIZE..], Word(data[6], data[7]);
      if |payload| % 2 != 0 then Err(OddLength)
      else if CheckOf(payload) != stored then Err(ChecksumMismatch(CheckOf(payload), stored))
      else
        match RecordsIn(payload)
        case Err(e) => Err(e)
        case Ok(bodies) =>
          if AreBodies(bodies) then Ok(Config(stored, SectionsOf(bodies), data)) else Err(NoName)
  }

  method ParseConfig(data: seq<byte>) returns (r: Result<Config, ConfigError>)
    ensures r == ConfigOf(data)
  {
    hide WordSum, RecordsIn, Word, SectionsOf, BigNumber;
    if |data| < HEADER_SIZE {
      return Err(Truncated);
    }
    if data[..4] != MAGIC_FMV2 {
      return Err(BadMagic);
    }
    var payloadLen := Word(data[4], data[5]);
    if payloadLen != |data| - HEADER_SIZE {
      return Err(LengthMismatch);
    }
    var payload := data[HEADER_SIZE..];
    if |payload| % 2 != 0 {
      return Err(OddLength);
    }
    var stored := Word(data[6], data[7]);
    var computed := Checksum(payload);
    if computed.value != stored {
      return Err(ChecksumMismatch(computed.value, stored));
    }
    var sections := ParseSections(payload);
    if sections.Err? {
      return Err(sections.error);
    }
    return Ok(Config(stored, sections.value, data));
  }

  /** Two bytes, the high one first. */
  function Pair(hi: int, lo: int): int {
    hi * 256 + lo
  }

  /** The header of a file in its four parts: magic, payload length, checksum, and the payload. */
  ghost predicate HeaderHolds(data: seq<byte>) {
    && |data| >= 8 && data[0] == 0x46 && data[1] == 0x4d && data[2] == 0x76 && data[3] == 0x32
    && Pair(data[4], data[5]) == |data| - 8 && |data| % 2 == 0
    && Pair(data[6], data[7]) == BigNumber(data[8..]) % 65535
  }

  /** What each verdict means, in the order of the checks; only with a good header do the records matter. */
  lemma VerdictMeans(data: seq<byte>)
    ensures match ConfigOf(data)
            case Err(Truncated) => |data| < 8
            case Err(BadMagic) =>
              |data| >= 8 && !(data[0] == 0x46 && data[1] == 0x4d && data[2] == 0x76 && data[3] == 0x32)
            case Err(LengthMismatch) =>
              |data| >= 8 && data[..4] == MAGIC_FMV2 && Pair(data[4], data[5]) != |data| - 8
            case Err(OddLength) => |data| >= 8 && Pair(data[4], data[5]) == |data| - 8 && |data| % 2 == 1
            case Err(ChecksumMismatch(computed, stored)) =>
              && |data| >= 8 && |data| % 2 == 0 && Pair(data[4], data[5]) == |data| - 8
              && computed == BigNumber(data[8..]) % 65535 && stored == Pair(data[6], data[7]) && computed != stored
            case Err(e) => HeaderHolds(data) && RecordsIn(data[8..]) == Err(e)
            case Ok(c) =>
              && HeaderHolds(data) && RecordsIn(data[8..]).Ok? && c.raw == data && c.checksum == Pair(data[6], data[7])
  {
    RecordsAreBodies(if |data| >= 8 then data[8..] else []);
    RecordErrors(if |data| >= 8 then data[8..] else []);
    if |data| >= 8 && |data| % 2 == 0 {
      ChecksumIsNumber(data[8..]);
    }
    hide RecordsIn, WordSum, BigNumber, SectionsOf, Emitted;
  }

  lemma {:induction false} RecordErrors(payload: seq<byte>)
    ensures RecordsIn(payload).Err? ==>
              var e := RecordsIn(payload).error; e.TrailingGarbage? || e.UnexpectedTag? || e.Overrun? || e.NoName?
    decreases |payload|
  {
    if |payload| >= 4 {
      var length := Word(payload[2], payload[3]);
      if length <= |payload| - RECORD_HEADER {
        RecordErrors(payload[RECORD_HEADER + length..]);
      }
    }
    hide Word;
  }

  /** Too few bytes, another tag, a length too long, no name: the faults a record can have. */
  lemma FirstFault(rest: seq<byte>)
    requires rest != []
    ensures var r := RecordsIn(rest);
            && (|rest| < 4 ==> r == Err(TrailingGarbage))
            && (|rest| >= 4 && Pair(rest[0], rest[1]) != 1 ==> r == Err(UnexpectedTag(Pair(rest[0], rest[1]))))
            && (|rest| >= 4 && Pair(rest[0], rest[1]) == 1 ==>
                  var length := Pair(rest[2], rest[3]);
                  && (length > |rest| - 4 ==> r == Err(Overrun))
                  && (0 <= length <= |rest| - 4 && 0 !in rest[4..4 + length] ==> r == Err(NoName)))
  {
  }

  /** A fault behind good records fails the whole payload. */
  lemma {:induction false} FaultBehind(bodies: seq<seq<byte>>, rest: seq<byte>)
    requires AreBodies(bodies) && RecordsIn(rest).Err?
    ensures RecordsIn(Emitted(bodies) + rest) == RecordsIn(rest)
  {
    hide Emitted, RecordsIn, RecordBytes;
    NothingEmitted();
    if bodies == [] {
      assert [] + rest == rest;
    } else {
      FaultBehind(bodies[1..], rest);
      EmittedFirst(bodies);
      assert IsBody(bodies[0]);
      RecordIsRead(bodies[0], Emitted(bodies[1..]) + rest);
      assert RecordBytes(bodies[0]) + Emitted(bodies[1..]) + rest
          == RecordBytes(bodies[0]) + (Emitted(bodies[1..]) + rest);
      OntoError([bodies[0]], RecordsIn(rest));
    }
  }

  /** A file around a payload. */
  function FileOf(payload: seq<byte>): seq<byte>
    requires |payload| % 2 == 0 && |payload| < 0x1_0000
  {
    var check := CheckOf(payload);
    MAGIC_FMV2 + [High(|payload|), Low(|payload|), High(check), Low(check)] + payload
  }

  /** Records written with their header are read back, section by section. */
  lemma FileIsParsed(bodies: seq<seq<byte>>)
    requires AreBodies(bodies) && |Emitted(bodies)| % 2 == 0 && |Emitted(bodies)| < 0x1_0000
    ensures var data := FileOf(Emitted(bodies));
            ConfigOf(data) == Ok(Config(CheckOf(Emitted(bodies)), SectionsOf(bodies), data))
  {
    hide CheckOf, RecordsIn, SectionsOf, Emitted, Word, High, Low, FileOf;
    var payload := Emitted(bodies);
    EmittedIsParsed(bodies);
    hide AreBodies;
    WordParts(|payload|);
    WordParts(CheckOf(payload));
    FileFields(payload);
  }

  lemma FileFields(payload: seq<byte>)
    requires |payload| % 2 == 0 && |payload| < 0x1_0000
    ensures var data, check := FileOf(payload), CheckOf(payload);
            && |data| == HEADER_SIZE + |payload| && data[..4] == MAGIC_FMV2 && data[HEADER_SIZE..] == payload
            && data[4] == High(|payload|) && data[5] == Low(|payload|) && data[6] == High(check)
            && data[7] == Low(check)
  {
    hide High, Low, CheckOf;
  }

  /** Every accepted file is, byte for byte, the file around its own records. */
  lemma ParsedIsFile(data: seq<byte>)
    requires ConfigOf(data).Ok?
    ensures var payload := data[HEADER_SIZE..];
            && |payload| % 2 == 0 && |payload| < 0x1_0000 && data == FileOf(payload)
            && RecordsIn(payload).Ok? && AreBodies(RecordsIn(payload).value)
            && Emitted(RecordsIn(payload).value) == payload
            && ConfigOf(data).value.sections == SectionsOf(RecordsIn(payload).value)
  {
    var payload := data[HEADER_SIZE..];
    RecordsAreBodies(payload);
    PartsOfWord(data[4], data[5]);
    PartsOfWord(data[6], data[7]);
    hide Word, High, Low, CheckOf, RecordsIn, SectionsOf, Emitted, AreBodies;
    EightAndRest(data);
  }

  lemma EightAndRest(s: seq<byte>)
    requires |s| >= 8
    ensures s == s[..4] + [s[4], s[5], s[6], s[7]] + s[8..]
  {
  }
}
