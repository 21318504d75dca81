/** Bytes, big-endian words and port bitmaps. */
module Bits {

  type byte = x: int | 0 <= x < 0x100
  type u16 = x: int | 0 <= x < 0x1_0000
  type u32 = x: int | 0 <= x < 0x1_0000_0000

  const PORTS := 8

  // ---------------------------------------------------------------------
  // Big-endian words
  // ---------------------------------------------------------------------

  function Word(hi: byte, lo: byte): u16 {
    hi * 0x100 + lo
  }

  function High(v: u16): byte {
    v / 0x100
  }

  function Low(v: u16): byte {
    v % 0x100
  }

  lemma WordParts(v: u16)
    ensures Word(High(v), Low(v)) == v
  {
  }

  lemma PartsOfWord(hi: byte, lo: byte)
    ensures High(Word(hi, lo)) == hi && Low(Word(hi, lo)) == lo
  {
  }

  /** The four bytes of a 32-bit word. */
  function Quad(v: u32): (r: seq<byte>)
    ensures |r| == 4
  {
    [High(v / 0x1_0000), Low(v / 0x1_0000), High(v % 0x1_0000), Low(v % 0x1_0000)]
  }

  function QuadValue(s: seq<byte>): u32
    requires |s| == 4
  {
    Word(s[0], s[1]) * 0x1_0000 + Word(s[2], s[3])
  }

  lemma QuadParts(v: u32)
    ensures QuadValue(Quad(v)) == v
  {
    WordParts(v / 0x1_0000);
    WordParts(v % 0x1_0000);
    hide Word, High, Low;
  }

  // ---------------------------------------------------------------------
  // Bits, most significant first
  // ---------------------------------------------------------------------

  function Power2(n: nat): nat {
    if n == 0 then 1 else 2 * Power2(n - 1)
  }

  function Value(bits: seq<bool>): (v: nat)
    ensures v < Power2(|bits|)
  {
    if bits == [] then 0 else 2 * Value(bits[..|bits| - 1]) + if bits[|bits| - 1] then 1 else 0
  }

  function BitsOf(v: nat, n: nat): (bits: seq<bool>)
    ensures |bits| == n
  {
    if n == 0 then [] else BitsOf(v / 2, n - 1) + [v % 2 == 1]
  }

  lemma {:induction false} ValueOfBits(v: nat, n: nat)
    requires v < Power2(n)
    ensures Value(BitsOf(v, n)) == v
  {
    if n > 0 {
      ValueOfBits(v / 2, n - 1);
      assert BitsOf(v, n)[..n - 1] == BitsOf(v / 2, n - 1);
    }
  }

  lemma {:induction false} BitsOfValue(bits: seq<bool>)
    ensures BitsOf(Value(bits), |bits|) == bits
  {
    if bits != [] {
      BitsOfValue(bits[..|bits| - 1]);
      var v := Value(bits);
      assert v / 2 == Value(bits[..|bits| - 1]) && (v % 2 == 1) == bits[|bits| - 1];
    }
  }

  // ---------------------------------------------------------------------
  // Port bitmaps: port 1 is the highest bit of a byte
  // ---------------------------------------------------------------------

  predicate InRange(port: int) {
    1 <= port <= PORTS
  }

  function Bits8(b: byte): (bits: seq<bool>)
    ensures |bits| == PORTS
  {
    BitsOf(b, PORTS)
  }

  function Byte8(bits: seq<bool>): byte
    requires |bits| == PORTS
  {
    EightBits();
    Value(bits)
  }

  lemma EightBits()
    ensures Power2(PORTS) == 0x100
  {
    assert Power2(4) == 16;
    assert Power2(8) == 2 * (2 * (2 * (2 * Power2(4))));
  }

  predicate Bit(b: byte, port: int)
    requires InRange(port)
  {
    Bits8(b)[port - 1]
  }

  /** 1 << (8 - port): the byte with that one bit. */
  function Mask(port: int): byte
    requires InRange(port)
  {
    Byte8(seq(PORTS, k requires 0 <= k < PORTS => k == port - 1))
  }

  /** The bitwise operations. */
  function Or(a: byte, b: byte): byte {
    Byte8(seq(PORTS, k requires 0 <= k < PORTS => Bits8(a)[k] || Bits8(b)[k]))
  }

  function And(a: byte, b: byte): byte {
    Byte8(seq(PORTS, k requires 0 <= k < PORTS => Bits8(a)[k] && Bits8(b)[k]))
  }

  /** a &^ b */
  function AndNot(a: byte, b: byte): byte {
    Byte8(seq(PORTS, k requires 0 <= k < PORTS => Bits8(a)[k] && !Bits8(b)[k]))
  }

  lemma BitsOfByte(bits: seq<bool>)
    requires |bits| == PORTS
    ensures Bits8(Byte8(bits)) == bits
  {
    BitsOfValue(bits);
    hide Value, BitsOf;
  }

  lemma OrBits(a: byte, b: byte, port: int)
    requires InRange(port)
    ensures Bit(Or(a, b), port) <==> Bit(a, port) || Bit(b, port)
  {
    hide Byte8, Bits8;
    BitsOfByte(seq(PORTS, k requires 0 <= k < PORTS => Bits8(a)[k] || Bits8(b)[k]));
  }

  lemma AndBits(a: byte, b: byte, port: int)
    requires InRange(port)
    ensures Bit(And(a, b), port) <==> Bit(a, port) && Bit(b, port)
  {
    hide Byte8, Bits8;
    BitsOfByte(seq(PORTS, k requires 0 <= k < PORTS => Bits8(a)[k] && Bits8(b)[k]));
  }

  lemma AndNotBits(a: byte, b: byte, port: int)
    requires InRange(port)
    ensures Bit(AndNot(a, b), port) <==> Bit(a, port) && !Bit(b, port)
  {
    hide Byte8, Bits8;
    BitsOfByte(seq(PORTS, k requires 0 <= k < PORTS => Bits8(a)[k] && !Bits8(b)[k]));
  }

  lemma MaskBits(port: int, other: int)
    requires InRange(port) && InRange(other)
    ensures Bit(Mask(port), other) <==> port == other
  {
    hide Byte8, Bits8;
    BitsOfByte(seq(PORTS, k requires 0 <= k < PORTS => k == port - 1));
  }

  lemma {:induction false} NoBits(n: nat)
    ensures forall k :: 0 <= k < n ==> !BitsOf(0, n)[k]
  {
    if n > 0 {
      NoBits(n - 1);
    }
  }

  lemma {:induction false} BitsAt(v: nat, n: nat, k: nat)
    requires k < n
    ensures Power2(n - 1 - k) > 0
    ensures BitsOf(v, n)[k] <==> v / Power2(n - 1 - k) % 2 == 1
  {
    PowerIsPositive(n - 1 - k);
    if k < n - 1 {
      BitsAt(v / 2, n - 1, k);
      HalfFirst(v, Power2(n - 2 - k));
    }
  }

  lemma {:induction false} PowerIsPositive(n: nat)
    ensures Power2(n) > 0
  {
    if n > 0 {
      PowerIsPositive(n - 1);
    }
  }

  lemma HalfFirst(v: nat, d: nat)
    requires d > 0
    ensures v / 2 / d == v / (2 * d)
  {
    var q, r := v / 2 / d, v / 2 % d;
    assert v / 2 == q * d + r;
    assert v == 2 * (q * d + r) + v % 2;
    assert 2 * (q * d) == q * (2 * d);
    assert v == q * (2 * d) + (2 * r + v % 2);
    QuotientIs(v, 2 * d, q, 2 * r + v % 2);
  }

  lemma QuotientIs(v: nat, d: nat, q: nat, r: nat)
    requires d > 0 && v == q * d + r && r < d
    ensures v / d == q
  {
    var p := v / d;
    if p < q {
      Monotone(p + 1, q, d);
    } else if p > q {
      Monotone(q + 1, p, d);
    }
  }

  lemma Monotone(a: nat, b: nat, d: nat)
    requires a <= b
    ensures a * d <= b * d
  {
  }

  /** Port N is the bit of value 2^(8 - N): 0x80 for port 1, 0x01 for port 8. */
  lemma BitIs(b: byte, port: int)
    requires InRange(port)
    ensures Power2(8 - port) > 0 && (Bit(b, port) <==> b / Power2(8 - port) % 2 == 1)
    ensures Power2(7) == 0x80 && Power2(0) == 0x01
  {
    BitsAt(b, PORTS, port - 1);
    hide BitsOf;
    assert Power2(3) == 8;
    assert Power2(7) == 2 * (2 * (2 * (2 * Power2(3))));
  }

  /** Two bytes with the same bits are the same byte. */
  lemma SameBits(a: byte, b: byte)
    requires forall port :: InRange(port) ==> (Bit(a, port) <==> Bit(b, port))
    ensures a == b
  {
    EightBits();
    ValueOfBits(a, PORTS);
    ValueOfBits(b, PORTS);
    hide BitsOf, Value, Power2;
    forall k | 0 <= k < PORTS
      ensures Bits8(a)[k] == Bits8(b)[k]
    {
      assert Bit(a, k + 1) <==> Bit(b, k + 1);
    }
    assert Bits8(a) == Bits8(b);
  }

  /** The bitmap of a list of 1-based ports; other numbers are dropped. */
  method PortBitmap(ports: seq<int>) returns (b: byte)
    ensures forall port :: InRange(port) ==> (Bit(b, port) <==> port in ports)
    ensures forall port :: InRange(port) && ports == [port] ==> b == Power2(8 - port)
  {
    hide Bit, Or, Mask, Power2;
    b := 0;
    assert forall port :: InRange(port) ==> !Bit(b, port) by { ZeroBits(); }
    for k := 0 to |ports|
      invariant forall port :: InRange(port) ==> (Bit(b, port) <==> port in ports[..k])
    {
      var p := ports[k];
      assert ports[..k + 1] == ports[..k] + [p];
      if 1 <= p <= 8 {
        OrMask(b, p);
        b := Or(b, Mask(p));
      }
    }
    assert ports[..|ports|] == ports;
    forall port | InRange(port) && ports == [port]
      ensures b == Power2(8 - port)
    {
      SingleBit(b, port);
    }
  }

  lemma Powers()
    ensures Power2(0) == 1 && Power2(1) == 2 && Power2(2) == 4 && Power2(3) == 8
    ensures Power2(4) == 16 && Power2(5) == 32 && Power2(6) == 64 && Power2(7) == 128
  {
    assert Power2(2) == 4;
    assert Power2(4) == 2 * (2 * Power2(2));
    assert Power2(6) == 2 * (2 * Power2(4));
  }

  /** A byte in which only the bit of one port is set. */
  lemma SingleBit(b: byte, port: int)
    requires InRange(port) && forall p :: InRange(p) ==> (Bit(b, p) <==> p == port)
    ensures b == Power2(8 - port)
  {
    Powers();
    hide Power2, Bit;
    var v: byte := Power2(8 - port);
    forall p | InRange(p)
      ensures Bit(v, p) <==> Bit(b, p)
    {
      BitIs(v, p);
    }
    SameBits(v, b);
  }

  lemma ZeroBits()
    ensures forall port :: InRange(port) ==> !Bit(0, port)
  {
    NoBits(PORTS);
    hide BitsOf;
  }

  lemma OrMask(b: byte, p: int)
    requires InRange(p)
    ensures forall port :: InRange(port) ==> (Bit(Or(b, Mask(p)), port) <==> Bit(b, port) || port == p)
  {
    hide Bit, Or, Mask;
    forall port | InRange(port)
      ensures Bit(Or(b, Mask(p)), port) <==> Bit(b, port) || port == p
    {
      OrBits(b, Mask(p), port);
      MaskBits(p, port);
    }
  }

  /** The ports of a bitmap, ascending. */
  method PortsFromBitmap(b: byte) returns (ports: seq<int>)
    ensures forall port :: port in ports <==> InRange(port) && Bit(b, port)
    ensures forall i, j :: 0 <= i < j < |ports| ==> ports[i] < ports[j]
  {
    hide Bit;
    ports := [];
    for p := 1 to 9
      invariant forall port :: port in ports <==> 1 <= port < p && Bit(b, port)
      invariant forall i, j :: 0 <= i < j < |ports| ==> ports[i] < ports[j]
      invariant forall i :: 0 <= i < |ports| ==> ports[i] < p
    {
      if Bit(b, p) {
        ports := ports + [p];
      }
    }
  }
}
