/** Bytes, little-endian words and flattening, shared by the modules that work on raw memory. */
module Bytes {
  type byte = bv8

  datatype Option<+T> = None | Some(value: T) {
    function GetOr(default: T): T {
      if Some? then value else default
    }
  }

  const WORD_MODULUS: nat := 0x1_0000_0000

  function BitNumber(on: bool): (n: nat)
    ensures n < 2
  {
    if on then 1 else 0
  }

  /** The number with the given eight binary digits, lowest first. */
  function EightBits(b0: bool, b1: bool, b2: bool, b3: bool, b4: bool, b5: bool, b6: bool, b7: bool): (n: nat)
    ensures n < 0x100
  {
    BitNumber(b0) + 2 * (BitNumber(b1) + 2 * (BitNumber(b2) + 2 * (BitNumber(b3)
      + 2 * (BitNumber(b4) + 2 * (BitNumber(b5) + 2 * (BitNumber(b6) + 2 * BitNumber(b7)))))))
  }

  /** The unsigned value of a byte. */
  function ByteValue(b: byte): (n: nat)
    ensures n < 0x100
  {
    EightBits(b & 1 == 1, b & 2 == 2, b & 4 == 4, b & 8 == 8, b & 16 == 16, b & 32 == 32, b & 64 == 64, b & 128 == 128)
  }

  function MakeByte(b0: bool, b1: bool, b2: bool, b3: bool, b4: bool, b5: bool, b6: bool, b7: bool): byte {
    (if b0 then 1 else 0) | (if b1 then 2 else 0) | (if b2 then 4 else 0) | (if b3 then 8 else 0)
      | (if b4 then 16 else 0) | (if b5 then 32 else 0) | (if b6 then 64 else 0) | (if b7 then 128 else 0)
  }

  predicate Odd(n: nat) { n % 2 == 1 }

  function HalfOf(n: nat): nat { n / 2 }

  /** The byte that holds the low eight bits of n. */
  function ByteOf(n: nat): byte {
    var n1 := HalfOf(n);
    var n2 := HalfOf(n1);
    var n3 := HalfOf(n2);
    var n4 := HalfOf(n3);
    var n5 := HalfOf(n4);
    var n6 := HalfOf(n5);
    MakeByte(Odd(n), Odd(n1), Odd(n2), Odd(n3), Odd(n4), Odd(n5), Odd(n6), Odd(HalfOf(n6)))
  }

  lemma MadeBits(b0: bool, b1: bool, b2: bool, b3: bool, b4: bool, b5: bool, b6: bool, b7: bool)
    ensures var b := MakeByte(b0, b1, b2, b3, b4, b5, b6, b7);
      && b & 1 == (if b0 then 1 else 0) && b & 2 == (if b1 then 2 else 0)
      && b & 4 == (if b2 then 4 else 0) && b & 8 == (if b3 then 8 else 0)
      && b & 16 == (if b4 then 16 else 0) && b & 32 == (if b5 then 32 else 0)
      && b & 64 == (if b6 then 64 else 0) && b & 128 == (if b7 then 128 else 0)
  {}

  lemma HalveAndDouble(n: nat, bound: nat)
    requires n < 2 * bound
    ensures HalfOf(n) < bound && n == BitNumber(Odd(n)) + 2 * HalfOf(n)
  {}

  lemma ByteRoundTrip(n: nat)
    requires n < 0x100
    ensures ByteValue(ByteOf(n)) == n
  {
    hide MakeByte, EightBits, Odd, HalfOf;
    var n1 := HalfOf(n);
    var n2 := HalfOf(n1);
    var n3 := HalfOf(n2);
    var n4 := HalfOf(n3);
    var n5 := HalfOf(n4);
    var n6 := HalfOf(n5);
    var n7 := HalfOf(n6);
    MadeBits(Odd(n), Odd(n1), Odd(n2), Odd(n3), Odd(n4), Odd(n5), Odd(n6), Odd(n7));
    HalveAndDouble(n, 128); HalveAndDouble(n1, 64); HalveAndDouble(n2, 32); HalveAndDouble(n3, 16);
    HalveAndDouble(n4, 8); HalveAndDouble(n5, 4); HalveAndDouble(n6, 2); HalveAndDouble(n7, 1);
    Horner(n, n1, n2, n3, n4, n5, n6, n7, Odd(n), Odd(n1), Odd(n2), Odd(n3), Odd(n4), Odd(n5), Odd(n6), Odd(n7));
  }

  lemma Horner(n: nat, n1: nat, n2: nat, n3: nat, n4: nat, n5: nat, n6: nat, n7: nat,
               b0: bool, b1: bool, b2: bool, b3: bool, b4: bool, b5: bool, b6: bool, b7: bool)
    requires n == BitNumber(b0) + 2 * n1 && n1 == BitNumber(b1) + 2 * n2 && n2 == BitNumber(b2) + 2 * n3
    requires n3 == BitNumber(b3) + 2 * n4 && n4 == BitNumber(b4) + 2 * n5 && n5 == BitNumber(b5) + 2 * n6
    requires n6 == BitNumber(b6) + 2 * n7 && n7 == BitNumber(b7)
    ensures EightBits(b0, b1, b2, b3, b4, b5, b6, b7) == n
  {
    hide BitNumber;
  }

  lemma BitsDecide(b: byte, c: byte)
    requires (b & 1 == 1) == (c & 1 == 1) && (b & 2 == 2) == (c & 2 == 2) && (b & 4 == 4) == (c & 4 == 4)
    requires (b & 8 == 8) == (c & 8 == 8) && (b & 16 == 16) == (c & 16 == 16) && (b & 32 == 32) == (c & 32 == 32)
    requires (b & 64 == 64) == (c & 64 == 64) && (b & 128 == 128) == (c & 128 == 128)
    ensures b == c
  {}

  lemma LowBitDecides(x: bool, y: bool, m: nat, n: nat)
    requires BitNumber(x) + 2 * m == BitNumber(y) + 2 * n
    ensures x == y && m == n
  {}

  lemma EightBitsInjective(a0: bool, a1: bool, a2: bool, a3: bool, a4: bool, a5: bool, a6: bool, a7: bool,
                           b0: bool, b1: bool, b2: bool, b3: bool, b4: bool, b5: bool, b6: bool, b7: bool)
    requires EightBits(a0, a1, a2, a3, a4, a5, a6, a7) == EightBits(b0, b1, b2, b3, b4, b5, b6, b7)
    ensures a0 == b0 && a1 == b1 && a2 == b2 && a3 == b3 && a4 == b4 && a5 == b5 && a6 == b6 && a7 == b7
  {
    hide BitNumber;
    var m6, n6 := BitNumber(a6) + 2 * BitNumber(a7), BitNumber(b6) + 2 * BitNumber(b7);
    var m5, n5 := BitNumber(a5) + 2 * m6, BitNumber(b5) + 2 * n6;
    var m4, n4 := BitNumber(a4) + 2 * m5, BitNumber(b4) + 2 * n5;
    var m3, n3 := BitNumber(a3) + 2 * m4, BitNumber(b3) + 2 * n4;
    var m2, n2 := BitNumber(a2) + 2 * m3, BitNumber(b2) + 2 * n3;
    var m1, n1 := BitNumber(a1) + 2 * m2, BitNumber(b1) + 2 * n2;
    LowBitDecides(a0, b0, m1, n1);
    LowBitDecides(a1, b1, m2, n2);
    LowBitDecides(a2, b2, m3, n3);
    LowBitDecides(a3, b3, m4, n4);
    LowBitDecides(a4, b4, m5, n5);
    LowBitDecides(a5, b5, m6, n6);
    LowBitDecides(a6, b6, BitNumber(a7), BitNumber(b7));
    LowBitDecides(a7, b7, 0, 0);
  }

  lemma ByteValueInjective(b: byte, c: byte)
    requires ByteValue(b) == ByteValue(c)
    ensures b == c
  {
    hide EightBits;
    EightBitsInjective(b & 1 == 1, b & 2 == 2, b & 4 == 4, b & 8 == 8, b & 16 == 16, b & 32 == 32, b & 64 == 64, b & 128 == 128,
      c & 1 == 1, c & 2 == 2, c & 4 == 4, c & 8 == 8, c & 16 == 16, c & 32 == 32, c & 64 == 64, c & 128 == 128);
    BitsDecide(b, c);
  }

  lemma ByteOfValue(b: byte)
    ensures ByteOf(ByteValue(b)) == b
  {
    hide ByteOf, ByteValue;
    ByteRoundTrip(ByteValue(b));
    ByteValueInjective(ByteOf(ByteValue(b)), b);
  }

  function Power256(k: nat): (p: nat)
    ensures p > 0
  {
    if k == 0 then 1 else 0x100 * Power256(k - 1)
  }

  /** The unsigned integer stored little-endian in a run of bytes. */
  function LittleEndian(b: seq<byte>): (n: nat)
    ensures n < Power256(|b|)
  {
    if b == [] then 0 else ByteValue(b[0]) + 0x100 * LittleEndian(b[1..])
  }

  /** The little-endian storage of the low k bytes of n. */
  function LittleEndianBytes(n: nat, k: nat): (b: seq<byte>)
    ensures |b| == k
  {
    if k == 0 then [] else [ByteOf(n % 0x100)] + LittleEndianBytes(n / 0x100, k - 1)
  }

  /** Storing an integer in k bytes and loading it again yields the integer, if it fits. */
  lemma {:induction false} LittleEndianRoundTrip(n: nat, k: nat)
    requires n < Power256(k)
    ensures LittleEndian(LittleEndianBytes(n, k)) == n
  {
    hide ByteOf, ByteValue;
    if k > 0 {
      ByteRoundTrip(n % 0x100);
      LittleEndianRoundTrip(n / 0x100, k - 1);
      var b := LittleEndianBytes(n, k);
      assert b[1..] == LittleEndianBytes(n / 0x100, k - 1);
    }
  }

  lemma WordFits(n: nat)
    requires n < WORD_MODULUS
    ensures n < Power256(4)
  {
    assert Power256(4) == 0x100 * (0x100 * (0x100 * 0x100));
  }

  /** The four bytes of a 32-bit word in memory order on a little-endian machine. */
  function WordBytes(w: bv32): (b: seq<byte>)
    ensures |b| == 4
  {
    [(w & 0xff) as byte, ((w >> 8) & 0xff) as byte, ((w >> 16) & 0xff) as byte, ((w >> 24) & 0xff) as byte]
  }

  /** The word stored in four bytes of memory. */
  function Word(b: seq<byte>): bv32
    requires |b| == 4
  {
    (b[0] as bv32) | ((b[1] as bv32) << 8) | ((b[2] as bv32) << 16) | ((b[3] as bv32) << 24)
  }

  /** A stored word is loaded again, and its low byte comes first. */
  lemma WordRoundTrip(w: bv32)
    ensures Word(WordBytes(w)) == w && WordBytes(w)[0] as bv32 == w & 0xff
    ensures WordBytes(0x12345678) == [0x78, 0x56, 0x34, 0x12]
  {}

  function Flatten<T>(ss: seq<seq<T>>): seq<T> {
    if ss == [] then [] else ss[0] + Flatten(ss[1..])
  }

  lemma {:induction false} FlattenAppend<T>(a: seq<seq<T>>, b: seq<seq<T>>)
    ensures Flatten(a + b) == Flatten(a) + Flatten(b)
  {
    if a == [] {
      assert a + b == b;
    } else {
      assert (a + b)[0] == a[0] && (a + b)[1..] == a[1..] + b;
      FlattenAppend(a[1..], b);
    }
  }

  lemma FlattenSnoc<T>(a: seq<seq<T>>, x: seq<T>)
    ensures Flatten(a + [x]) == Flatten(a) + x
  {
    FlattenAppend(a, [x]);
    assert [x][1..] == [];
  }
}
