/** md5.cpp: the MD5 digest of RFC 1321, computed from input that arrives in arbitrary pieces. */
module Md5 {
  import opened Bytes

  const BLOCK: nat := 64

  /** The four chaining words A, B, C, D. */
  datatype Chain = Chain(a: bv32, b: bv32, c: bv32, d: bv32)

  const INITIAL := Chain(0x67452301, 0xefcdab89, 0x98badcfe, 0x10325476)

  // ---------- the basic functions and the macros FF, GG, HH, II ----------

  function F(x: bv32, y: bv32, z: bv32): bv32 { (x & y) | (!x & z) }

  function G(x: bv32, y: bv32, z: bv32): bv32 { (x & z) | (y & !z) }

  function H(x: bv32, y: bv32, z: bv32): bv32 { x ^ y ^ z }

  function I(x: bv32, y: bv32, z: bv32): bv32 { y ^ (x | !z) }

  function RotateLeft(x: bv32, n: nat): bv32
    requires n <= 32
  {
    (x << n) | (x >> (32 - n))
  }

  /** F takes the bits of y where x is set and those of z where it is not. */
  lemma Selects(x: bv32, y: bv32, z: bv32)
    ensures F(x, y, z) & x == y & x && F(x, y, z) & !x == z & !x
  {}

  /** G is F with z selecting. */
  lemma SelectsBackwards(x: bv32, y: bv32, z: bv32)
    ensures G(x, y, z) == F(z, x, y)
  {}

  lemma Parity(x: bv32, y: bv32, z: bv32)
    ensures H(x, y, z) ^ x ^ y == z
  {}

  /** I flips the bits of y where x is set or z is not. */
  lemma Flips(x: bv32, y: bv32, z: bv32)
    ensures (I(x, y, z) ^ y) & x == x && (I(x, y, z) ^ y) & !x == !z & !x
  {}

  function FF(a: bv32, b: bv32, c: bv32, d: bv32, x: bv32, s: nat, ac: bv32): bv32
    requires s <= 32
  {
    RotateLeft(a + (F(b, c, d) + x + ac), s) + b
  }

  function GG(a: bv32, b: bv32, c: bv32, d: bv32, x: bv32, s: nat, ac: bv32): bv32
    requires s <= 32
  {
    RotateLeft(a + (G(b, c, d) + x + ac), s) + b
  }

  function HH(a: bv32, b: bv32, c: bv32, d: bv32, x: bv32, s: nat, ac: bv32): bv32
    requires s <= 32
  {
    RotateLeft(a + (H(b, c, d) + x + ac), s) + b
  }

  function II(a: bv32, b: bv32, c: bv32, d: bv32, x: bv32, s: nat, ac: bv32): bv32
    requires s <= 32
  {
    RotateLeft(a + (I(b, c, d) + x + ac), s) + b
  }

  // ---------- section 3.4 of RFC 1321, one step at a time ----------

  /** Which word of the block step i uses. */
  function WordIndex(i: nat): (k: nat)
    ensures k < 16
  {
    if i < 16 then i % 16 else if i < 32 then (1 + 5 * i) % 16 else if i < 48 then (5 + 3 * i) % 16 else 7 * i % 16
  }

  /** How far step i rotates. */
  function Shift(i: nat): (s: nat)
    ensures s <= 32
  {
    if i < 16 then Cycle(i % 4, 7, 12, 17, 22)
    else if i < 32 then Cycle(i % 4, 5, 9, 14, 20)
    else if i < 48 then Cycle(i % 4, 4, 11, 16, 23)
    else Cycle(i % 4, 6, 10, 15, 21)
  }

  function Cycle(k: nat, s0: nat, s1: nat, s2: nat, s3: nat): nat {
    if k == 0 then s0 else if k == 1 then s1 else if k == 2 then s2 else s3
  }

  /** The rotations in use lose no bit. */
  lemma Rotates(x: bv32)
    ensures RotateLeft(x, 7) == x.RotateLeft(7) && RotateLeft(x, 12) == x.RotateLeft(12)
    ensures RotateLeft(x, 17) == x.RotateLeft(17) && RotateLeft(x, 22) == x.RotateLeft(22)
    ensures RotateLeft(x, 5) == x.RotateLeft(5) && RotateLeft(x, 9) == x.RotateLeft(9)
    ensures RotateLeft(x, 14) == x.RotateLeft(14) && RotateLeft(x, 20) == x.RotateLeft(20)
    ensures RotateLeft(x, 4) == x.RotateLeft(4) && RotateLeft(x, 11) == x.RotateLeft(11)
    ensures RotateLeft(x, 16) == x.RotateLeft(16) && RotateLeft(x, 23) == x.RotateLeft(23)
    ensures RotateLeft(x, 6) == x.RotateLeft(6) && RotateLeft(x, 10) == x.RotateLeft(10)
    ensures RotateLeft(x, 15) == x.RotateLeft(15) && RotateLeft(x, 21) == x.RotateLeft(21)
  {}

  /** The integer part of 4294967296 times abs(sin(i + 1)). */
  function Sine(i: nat): bv32
    requires i < 64
  {
    if i < 16 then Sine1(i) else if i < 32 then Sine2(i - 16) else if i < 48 then Sine3(i - 32) else Sine4(i - 48)
  }

  function Sine1(i: nat): bv32
    requires i < 16
  {
    match i
    case 0 => 0xd76aa478 case 1 => 0xe8c7b756 case 2 => 0x242070db case 3 => 0xc1bdceee
    case 4 => 0xf57c0faf case 5 => 0x4787c62a case 6 => 0xa8304613 case 7 => 0xfd469501
    case 8 => 0x698098d8 case 9 => 0x8b44f7af case 10 => 0xffff5bb1 case 11 => 0x895cd7be
    case 12 => 0x6b901122 case 13 => 0xfd987193 case 14 => 0xa679438e case _ => 0x49b40821
  }

  function Sine2(i: nat): bv32
    requires i < 16
  {
    match i
    case 0 => 0xf61e2562 case 1 => 0xc040b340 case 2 => 0x265e5a51 case 3 => 0xe9b6c7aa
    case 4 => 0xd62f105d case 5 => 0x02441453 case 6 => 0xd8a1e681 case 7 => 0xe7d3fbc8
    case 8 => 0x21e1cde6 case 9 => 0xc33707d6 case 10 => 0xf4d50d87 case 11 => 0x455a14ed
    case 12 => 0xa9e3e905 case 13 => 0xfcefa3f8 case 14 => 0x676f02d9 case _ => 0x8d2a4c8a
  }

  function Sine3(i: nat): bv32
    requires i < 16
  {
    match i
    case 0 => 0xfffa3942 case 1 => 0x8771f681 case 2 => 0x6d9d6122 case 3 => 0xfde5380c
    case 4 => 0xa4beea44 case 5 => 0x4bdecfa9 case 6 => 0xf6bb4b60 case 7 => 0xbebfbc70
    case 8 => 0x289b7ec6 case 9 => 0xeaa127fa case 10 => 0xd4ef3085 case 11 => 0x04881d05
    case 12 => 0xd9d4d039 case 13 => 0xe6db99e5 case 14 => 0x1fa27cf8 case _ => 0xc4ac5665
  }

  function Sine4(i: nat): bv32
    requires i < 16
  {
    match i
    case 0 => 0xf4292244 case 1 => 0x432aff97 case 2 => 0xab9423a7 case 3 => 0xfc93a039
    case 4 => 0x655b59c3 case 5 => 0x8f0ccc92 case 6 => 0xffeff47d case 7 => 0x85845dd1
    case 8 => 0x6fa87e4f case 9 => 0xfe2ce6e0 case 10 => 0xa3014314 case 11 => 0x4e0811a1
    case 12 => 0xf7537e82 case 13 => 0xbd3af235 case 14 => 0x2ad7d2bb case _ => 0xeb86d391
  }

  function Mix(i: nat, a: bv32, b: bv32, c: bv32, d: bv32, w: bv32): bv32
    requires i < 64
  {
    if i < 16 then FF(a, b, c, d, w, Shift(i), Sine(i))
    else if i < 32 then GG(a, b, c, d, w, Shift(i), Sine(i))
    else if i < 48 then HH(a, b, c, d, w, Shift(i), Sine(i))
    else II(a, b, c, d, w, Shift(i), Sine(i))
  }

  /** Step i: replace one word, then rename the four in a cycle. */
  function Step(i: nat, s: Chain, x: seq<bv32>): Chain
    requires i < 64 && |x| == 16
  {
    Chain(s.d, Mix(i, s.a, s.b, s.c, s.d, x[WordIndex(i)]), s.b, s.c)
  }

  function Steps(n: nat, s: Chain, x: seq<bv32>): Chain
    requires n <= 64 && |x| == 16
  {
    if n == 0 then s else Step(n - 1, Steps(n - 1, s, x), x)
  }

  function Words(block: seq<byte>): (x: seq<bv32>)
    requires |block| == BLOCK
    ensures |x| == 16
  {
    seq(16, i requires 0 <= i < 16 => Word(block[4 * i..4 * i + 4]))
  }

  function AddChain(s: Chain, t: Chain): Chain {
    Chain(s.a + t.a, s.b + t.b, s.c + t.c, s.d + t.d)
  }

  /** The compression function: 64 steps, then the old chaining words are added in. */
  function Compress(s: Chain, block: seq<byte>): Chain
    requires |block| == BLOCK
  {
    AddChain(s, Steps(64, s, Words(block)))
  }

  // ---------- md5::transform ----------

  /** Four consecutive steps come back to the original order of the names. */
  lemma FourSteps(n: nat, s: Chain, x: seq<bv32>)
    requires n + 4 <= 64 && |x| == 16
    ensures var t := Steps(n, s, x);
      var a := Mix(n, t.a, t.b, t.c, t.d, x[WordIndex(n)]);
      var d := Mix(n + 1, t.d, a, t.b, t.c, x[WordIndex(n + 1)]);
      var c := Mix(n + 2, t.c, d, a, t.b, x[WordIndex(n + 2)]);
      var b := Mix(n + 3, t.b, c, d, a, x[WordIndex(n + 3)]);
      Steps(n + 4, s, x) == Chain(a, b, c, d)
  {
    hide Mix, WordIndex;
    assert Steps(n + 2, s, x) == Step(n + 1, Step(n, Steps(n, s, x), x), x);
  }

  lemma FourStepsOfFirst(n: nat, n1: nat, n2: nat, n3: nat, s: Chain, x: seq<bv32>)
    requires 0 <= n <= 12 && n1 == n + 1 && n2 == n + 2 && n3 == n + 3 && |x| == 16
    ensures var t := Steps(n, s, x);
      var a := FF(t.a, t.b, t.c, t.d, x[WordIndex(n)], Shift(n), Sine(n));
      var d := FF(t.d, a, t.b, t.c, x[WordIndex(n1)], Shift(n1), Sine(n1));
      var c := FF(t.c, d, a, t.b, x[WordIndex(n2)], Shift(n2), Sine(n2));
      var b := FF(t.b, c, d, a, x[WordIndex(n3)], Shift(n3), Sine(n3));
      Steps(n + 4, s, x) == Chain(a, b, c, d)
  {
    hide FF, GG, HH, II, WordIndex, Shift, Sine, Steps;
    FourSteps(n, s, x);
  }

  lemma FourStepsOfSecond(n: nat, n1: nat, n2: nat, n3: nat, s: Chain, x: seq<bv32>)
    requires 16 <= n <= 28 && n1 == n + 1 && n2 == n + 2 && n3 == n + 3 && |x| == 16
    ensures var t := Steps(n, s, x);
      var a := GG(t.a, t.b, t.c, t.d, x[WordIndex(n)], Shift(n), Sine(n));
      var d := GG(t.d, a, t.b, t.c, x[WordIndex(n1)], Shift(n1), Sine(n1));
      var c := GG(t.c, d, a, t.b, x[WordIndex(n2)], Shift(n2), Sine(n2));
      var b := GG(t.b, c, d, a, x[WordIndex(n3)], Shift(n3), Sine(n3));
      Steps(n + 4, s, x) == Chain(a, b, c, d)
  {
    hide FF, GG, HH, II, WordIndex, Shift, Sine, Steps;
    FourSteps(n, s, x);
  }

  lemma FourStepsOfThird(n: nat, n1: nat, n2: nat, n3: nat, s: Chain, x: seq<bv32>)
    requires 32 <= n <= 44 && n1 == n + 1 && n2 == n + 2 && n3 == n + 3 && |x| == 16
    ensures var t := Steps(n, s, x);
      var a := HH(t.a, t.b, t.c, t.d, x[WordIndex(n)], Shift(n), Sine(n));
      var d := HH(t.d, a, t.b, t.c, x[WordIndex(n1)], Shift(n1), Sine(n1));
      var c := HH(t.c, d, a, t.b, x[WordIndex(n2)], Shift(n2), Sine(n2));
      var b := HH(t.b, c, d, a, x[WordIndex(n3)], Shift(n3), Sine(n3));
      Steps(n + 4, s, x) == Chain(a, b, c, d)
  {
    hide FF, GG, HH, II, WordIndex, Shift, Sine, Steps;
    FourSteps(n, s, x);
  }

  lemma FourStepsOfFourth(n: nat, n1: nat, n2: nat, n3: nat, s: Chain, x: seq<bv32>)
    requires 48 <= n <= 60 && n1 == n + 1 && n2 == n + 2 && n3 == n + 3 && |x| == 16
    ensures var t := Steps(n, s, x);
      var a := II(t.a, t.b, t.c, t.d, x[WordIndex(n)], Shift(n), Sine(n));
      var d := II(t.d, a, t.b, t.c, x[WordIndex(n1)], Shift(n1), Sine(n1));
      var c := II(t.c, d, a, t.b, x[WordIndex(n2)], Shift(n2), Sine(n2));
      var b := II(t.b, c, d, a, x[WordIndex(n3)], Shift(n3), Sine(n3));
      Steps(n + 4, s, x) == Chain(a, b, c, d)
  {
    hide FF, GG, HH, II, WordIndex, Shift, Sine, Steps;
    FourSteps(n, s, x);
  }

  lemma FirstParameters()
    ensures WordIndex(0) == 0 && WordIndex(1) == 1 && WordIndex(2) == 2 && WordIndex(3) == 3
    ensures WordIndex(4) == 4 && WordIndex(5) == 5 && WordIndex(6) == 6 && WordIndex(7) == 7
    ensures WordIndex(8) == 8 && WordIndex(9) == 9 && WordIndex(10) == 10 && WordIndex(11) == 11
    ensures WordIndex(12) == 12 && WordIndex(13) == 13 && WordIndex(14) == 14 && WordIndex(15) == 15
    ensures Shift(0) == 7 && Shift(4) == 7 && Shift(8) == 7 && Shift(12) == 7
    ensures Shift(1) == 12 && Shift(5) == 12 && Shift(9) == 12 && Shift(13) == 12
    ensures Shift(2) == 17 && Shift(6) == 17 && Shift(10) == 17 && Shift(14) == 17
    ensures Shift(3) == 22 && Shift(7) == 22 && Shift(11) == 22 && Shift(15) == 22
  {}

  lemma FirstSines()
    ensures Sine(0) == 0xd76aa478 && Sine(1) == 0xe8c7b756 && Sine(2) == 0x242070db && Sine(3) == 0xc1bdceee
    ensures Sine(4) == 0xf57c0faf && Sine(5) == 0x4787c62a && Sine(6) == 0xa8304613 && Sine(7) == 0xfd469501
    ensures Sine(8) == 0x698098d8 && Sine(9) == 0x8b44f7af && Sine(10) == 0xffff5bb1 && Sine(11) == 0x895cd7be
    ensures Sine(12) == 0x6b901122 && Sine(13) == 0xfd987193 && Sine(14) == 0xa679438e && Sine(15) == 0x49b40821
  {}

  /** Round 1 as the source spells it out, sixteen macro calls on four variables. */
  method FirstRound(ghost s: Chain, x: seq<bv32>, a0: bv32, b0: bv32, c0: bv32, d0: bv32)
    returns (a: bv32, b: bv32, c: bv32, d: bv32)
    requires |x| == 16 && Chain(a0, b0, c0, d0) == Steps(0, s, x)
    ensures Chain(a, b, c, d) == Steps(16, s, x)
  {
    FirstParameters();
    FirstSines();
    hide *;
    a, b, c, d := a0, b0, c0, d0;
    a := FF(a, b, c, d, x[0], 7, 0xd76aa478);
    d := FF(d, a, b, c, x[1], 12, 0xe8c7b756);
    c := FF(c, d, a, b, x[2], 17, 0x242070db);
    b := FF(b, c, d, a, x[3], 22, 0xc1bdceee);
    FourStepsOfFirst(0, 1, 2, 3, s, x);
    a := FF(a, b, c, d, x[4], 7, 0xf57c0faf);
    d := FF(d, a, b, c, x[5], 12, 0x4787c62a);
    c := FF(c, d, a, b, x[6], 17, 0xa8304613);
    b := FF(b, c, d, a, x[7], 22, 0xfd469501);
    FourStepsOfFirst(4, 5, 6, 7, s, x);
    a := FF(a, b, c, d, x[8], 7, 0x698098d8);
    d := FF(d, a, b, c, x[9], 12, 0x8b44f7af);
    c := FF(c, d, a, b, x[10], 17, 0xffff5bb1);
    b := FF(b, c, d, a, x[11], 22, 0x895cd7be);
    FourStepsOfFirst(8, 9, 10, 11, s, x);
    a := FF(a, b, c, d, x[12], 7, 0x6b901122);
    d := FF(d, a, b, c, x[13], 12, 0xfd987193);
    c := FF(c, d, a, b, x[14], 17, 0xa679438e);
    b := FF(b, c, d, a, x[15], 22, 0x49b40821);
    FourStepsOfFirst(12, 13, 14, 15, s, x);
  }

  lemma SecondParameters()
    ensures WordIndex(16) == 1 && WordIndex(17) == 6 && WordIndex(18) == 11 && WordIndex(19) == 0
    ensures WordIndex(20) == 5 && WordIndex(21) == 10 && WordIndex(22) == 15 && WordIndex(23) == 4
    ensures WordIndex(24) == 9 && WordIndex(25) == 14 && WordIndex(26) == 3 && WordIndex(27) == 8
    ensures WordIndex(28) == 13 && WordIndex(29) == 2 && WordIndex(30) == 7 && WordIndex(31) == 12
    ensures Shift(16) == 5 && Shift(20) == 5 && Shift(24) == 5 && Shift(28) == 5
    ensures Shift(17) == 9 && Shift(21) == 9 && Shift(25) == 9 && Shift(29) == 9
    ensures Shift(18) == 14 && Shift(22) == 14 && Shift(26) == 14 && Shift(30) == 14
    ensures Shift(19) == 20 && Shift(23) == 20 && Shift(27) == 20 && Shift(31) == 20
  {}

  lemma SecondSines()
    ensures Sine(16) == 0xf61e2562 && Sine(17) == 0xc040b340 && Sine(18) == 0x265e5a51 && Sine(19) == 0xe9b6c7aa
    ensures Sine(20) == 0xd62f105d && Sine(21) == 0x02441453 && Sine(22) == 0xd8a1e681 && Sine(23) == 0xe7d3fbc8
    ensures Sine(24) == 0x21e1cde6 && Sine(25) == 0xc33707d6 && Sine(26) == 0xf4d50d87 && Sine(27) == 0x455a14ed
    ensures Sine(28) == 0xa9e3e905 && Sine(29) == 0xfcefa3f8 && Sine(30) == 0x676f02d9 && Sine(31) == 0x8d2a4c8a
  {}

  /** Round 2 as the source spells it out, sixteen macro calls on four variables. */
  method SecondRound(ghost s: Chain, x: seq<bv32>, a0: bv32, b0: bv32, c0: bv32, d0: bv32)
    returns (a: bv32, b: bv32, c: bv32, d: bv32)
    requires |x| == 16 && Chain(a0, b0, c0, d0) == Steps(16, s, x)
    ensures Chain(a, b, c, d) == Steps(32, s, x)
  {
    SecondParameters();
    SecondSines();
    hide *;
    a, b, c, d := a0, b0, c0, d0;
    a := GG(a, b, c, d, x[1], 5, 0xf61e2562);
    d := GG(d, a, b, c, x[6], 9, 0xc040b340);
    c := GG(c, d, a, b, x[11], 14, 0x265e5a51);
    b := GG(b, c, d, a, x[0], 20, 0xe9b6c7aa);
    FourStepsOfSecond(16, 17, 18, 19, s, x);
    a := GG(a, b, c, d, x[5], 5, 0xd62f105d);
    d := GG(d, a, b, c, x[10], 9, 0x02441453);
    c := GG(c, d, a, b, x[15], 14, 0xd8a1e681);
    b := GG(b, c, d, a, x[4], 20, 0xe7d3fbc8);
    FourStepsOfSecond(20, 21, 22, 23, s, x);
    a := GG(a, b, c, d, x[9], 5, 0x21e1cde6);
    d := GG(d, a, b, c, x[14], 9, 0xc33707d6);
    c := GG(c, d, a, b, x[3], 14, 0xf4d50d87);
    b := GG(b, c, d, a, x[8], 20, 0x455a14ed);
    FourStepsOfSecond(24, 25, 26, 27, s, x);
    a := GG(a, b, c, d, x[13], 5, 0xa9e3e905);
    d := GG(d, a, b, c, x[2], 9, 0xfcefa3f8);
    c := GG(c, d, a, b, x[7], 14, 0x676f02d9);
    b := GG(b, c, d, a, x[12], 20, 0x8d2a4c8a);
    FourStepsOfSecond(28, 29, 30, 31, s, x);
  }

  lemma ThirdParameters()
    ensures WordIndex(32) == 5 && WordIndex(33) == 8 && WordIndex(34) == 11 && WordIndex(35) == 14
    ensures WordIndex(36) == 1 && WordIndex(37) == 4 && WordIndex(38) == 7 && WordIndex(39) == 10
    ensures WordIndex(40) == 13 && WordIndex(41) == 0 && WordIndex(42) == 3 && WordIndex(43) == 6
    ensures WordIndex(44) == 9 && WordIndex(45) == 12 && WordIndex(46) == 15 && WordIndex(47) == 2
    ensures Shift(32) == 4 && Shift(36) == 4 && Shift(40) == 4 && Shift(44) == 4
    ensures Shift(33) == 11 && Shift(37) == 11 && Shift(41) == 11 && Shift(45) == 11
    ensures Shift(34) == 16 && Shift(38) == 16 && Shift(42) == 16 && Shift(46) == 16
    ensures Shift(35) == 23 && Shift(39) == 23 && Shift(43) == 23 && Shift(47) == 23
  {}

  lemma ThirdSines()
    ensures Sine(32) == 0xfffa3942 && Sine(33) == 0x8771f681 && Sine(34) == 0x6d9d6122 && Sine(35) == 0xfde5380c
    ensures Sine(36) == 0xa4beea44 && Sine(37) == 0x4bdecfa9 && Sine(38) == 0xf6bb4b60 && Sine(39) == 0xbebfbc70
    ensures Sine(40) == 0x289b7ec6 && Sine(41) == 0xeaa127fa && Sine(42) == 0xd4ef3085 && Sine(43) == 0x04881d05
    ensures Sine(44) == 0xd9d4d039 && Sine(45) == 0xe6db99e5 && Sine(46) == 0x1fa27cf8 && Sine(47) == 0xc4ac5665
  {}

  /** Round 3 as the source spells it out, sixteen macro calls on four variables. */
  method ThirdRound(ghost s: Chain, x: seq<bv32>, a0: bv32, b0: bv32, c0: bv32, d0: bv32)
    returns (a: bv32, b: bv32, c: bv32, d: bv32)
    requires |x| == 16 && Chain(a0, b0, c0, d0) == Steps(32, s, x)
    ensures Chain(a, b, c, d) == Steps(48, s, x)
  {
    ThirdParameters();
    ThirdSines();
    hide *;
    a, b, c, d := a0, b0, c0, d0;
    a := HH(a, b, c, d, x[5], 4, 0xfffa3942);
    d := HH(d, a, b, c, x[8], 11, 0x8771f681);
    c := HH(c, d, a, b, x[11], 16, 0x6d9d6122);
    b := HH(b, c, d, a, x[14], 23, 0xfde5380c);
    FourStepsOfThird(32, 33, 34, 35, s, x);
    a := HH(a, b, c, d, x[1], 4, 0xa4beea44);
    d := HH(d, a, b, c, x[4], 11, 0x4bdecfa9);
    c := HH(c, d, a, b, x[7], 16, 0xf6bb4b60);
    b := HH(b, c, d, a, x[10], 23, 0xbebfbc70);
    FourStepsOfThird(36, 37, 38, 39, s, x);
    a := HH(a, b, c, d, x[13], 4, 0x289b7ec6);
    d := HH(d, a, b, c, x[0], 11, 0xeaa127fa);
    c := HH(c, d, a, b, x[3], 16, 0xd4ef3085);
    b := HH(b, c, d, a, x[6], 23, 0x04881d05);
    FourStepsOfThird(40, 41, 42, 43, s, x);
    a := HH(a, b, c, d, x[9], 4, 0xd9d4d039);
    d := HH(d, a, b, c, x[12], 11, 0xe6db99e5);
    c := HH(c, d, a, b, x[15], 16, 0x1fa27cf8);
    b := HH(b, c, d, a, x[2], 23, 0xc4ac5665);
    FourStepsOfThird(44, 45, 46, 47, s, x);
  }

  lemma FourthParameters()
    ensures WordIndex(48) == 0 && WordIndex(49) == 7 && WordIndex(50) == 14 && WordIndex(51) == 5
    ensures WordIndex(52) == 12 && WordIndex(53) == 3 && WordIndex(54) == 10 && WordIndex(55) == 1
    ensures WordIndex(56) == 8 && WordIndex(57) == 15 && WordIndex(58) == 6 && WordIndex(59) == 13
    ensures WordIndex(60) == 4 && WordIndex(61) == 11 && WordIndex(62) == 2 && WordIndex(63) == 9
    ensures Shift(48) == 6 && Shift(52) == 6 && Shift(56) == 6 && Shift(60) == 6
    ensures Shift(49) == 10 && Shift(53) == 10 && Shift(57) == 10 && Shift(61) == 10
    ensures Shift(50) == 15 && Shift(54) == 15 && Shift(58) == 15 && Shift(62) == 15
    ensures Shift(51) == 21 && Shift(55) == 21 && Shift(59) == 21 && Shift(63) == 21
  {}

  lemma FourthSines()
    ensures Sine(48) == 0xf4292244 && Sine(49) == 0x432aff97 && Sine(50) == 0xab9423a7 && Sine(51) == 0xfc93a039
    ensures Sine(52) == 0x655b59c3 && Sine(53) == 0x8f0ccc92 && Sine(54) == 0xffeff47d && Sine(55) == 0x85845dd1
    ensures Sine(56) == 0x6fa87e4f && Sine(57) == 0xfe2ce6e0 && Sine(58) == 0xa3014314 && Sine(59) == 0x4e0811a1
    ensures Sine(60) == 0xf7537e82 && Sine(61) == 0xbd3af235 && Sine(62) == 0x2ad7d2bb && Sine(63) == 0xeb86d391
  {}

  /** Round 4 as the source spells it out, sixteen macro calls on four variables. */
  method FourthRound(ghost s: Chain, x: seq<bv32>, a0: bv32, b0: bv32, c0: bv32, d0: bv32)
    returns (a: bv32, b: bv32, c: bv32, d: bv32)
    requires |x| == 16 && Chain(a0, b0, c0, d0) == Steps(48, s, x)
    ensures Chain(a, b, c, d) == Steps(64, s, x)
  {
    FourthParameters();
    FourthSines();
    hide *;
    a, b, c, d := a0, b0, c0, d0;
    a := II(a, b, c, d, x[0], 6, 0xf4292244);
    d := II(d, a, b, c, x[7], 10, 0x432aff97);
    c := II(c, d, a, b, x[14], 15, 0xab9423a7);
    b := II(b, c, d, a, x[5], 21, 0xfc93a039);
    FourStepsOfFourth(48, 49, 50, 51, s, x);
    a := II(a, b, c, d, x[12], 6, 0x655b59c3);
    d := II(d, a, b, c, x[3], 10, 0x8f0ccc92);
    c := II(c, d, a, b, x[10], 15, 0xffeff47d);
    b := II(b, c, d, a, x[1], 21, 0x85845dd1);
    FourStepsOfFourth(52, 53, 54, 55, s, x);
    a := II(a, b, c, d, x[8], 6, 0x6fa87e4f);
    d := II(d, a, b, c, x[15], 10, 0xfe2ce6e0);
    c := II(c, d, a, b, x[6], 15, 0xa3014314);
    b := II(b, c, d, a, x[13], 21, 0x4e0811a1);
    FourStepsOfFourth(56, 57, 58, 59, s, x);
    a := II(a, b, c, d, x[4], 6, 0xf7537e82);
    d := II(d, a, b, c, x[11], 10, 0xbd3af235);
    c := II(c, d, a, b, x[2], 15, 0x2ad7d2bb);
    b := II(b, c, d, a, x[9], 21, 0xeb86d391);
    FourStepsOfFourth(60, 61, 62, 63, s, x);
  }

  /** md5::decode: bytes to words. */
  method Decode(block: seq<byte>) returns (x: seq<bv32>)
    requires |block| == BLOCK
    ensures x == Words(block)
  {
    hide Word;
    x := [];
    var i, j := 0, 0;
    while j < 64
      invariant j == 4 * i && 0 <= i <= 16 && |x| == i
      invariant forall k :: 0 <= k < i ==> x[k] == Words(block)[k]
    {
      x := x + [Word(block[j..j + 4])];
      i, j := i + 1, j + 4;
    }
  }

  /** md5::transform on the chaining words: the unrolled 64 lines compute the RFC's compression function. */
  method Transform(s: Chain, block: seq<byte>) returns (t: Chain)
    requires |block| == BLOCK
    ensures t == Compress(s, block)
  {
    var x := Decode(block);
    assert Steps(0, s, x) == s;
    var a, b, c, d := FirstRound(s, x, s.a, s.b, s.c, s.d);
    a, b, c, d := SecondRound(s, x, a, b, c, d);
    a, b, c, d := ThirdRound(s, x, a, b, c, d);
    a, b, c, d := FourthRound(s, x, a, b, c, d);
    hide Steps;
    t := AddChain(s, Chain(a, b, c, d));
  }

  // ---------- the digest of a whole message: sections 3.1 to 3.5 of RFC 1321 ----------

  /** Compress the complete blocks of m, from the left. */
  function Fold(s: Chain, m: seq<byte>): Chain
    decreases |m|
  {
    if |m| < BLOCK then s else Fold(Compress(s, m[..BLOCK]), m[BLOCK..])
  }

  function Zeros(n: nat): (z: seq<byte>)
    ensures |z| == n
  {
    seq(n, i => 0)
  }

  /** A single 1 bit, then the fewest 0 bits that leave room for eight bytes in the last block. */
  function Padding(n: nat): seq<byte> {
    [0x80] + Zeros(if n % BLOCK < 56 then 55 - n % BLOCK else 119 - n % BLOCK)
  }

  /** The message length in bits, modulo 2^64, low-order byte first. */
  function LengthBytes(n: nat): (b: seq<byte>)
    ensures |b| == 8
  {
    LittleEndianBytes(8 * n % 0x1_0000_0000_0000_0000, 8)
  }

  function Padded(m: seq<byte>): seq<byte> {
    m + Padding(|m|) + LengthBytes(|m|)
  }

  function ChainBytes(s: Chain): (b: seq<byte>)
    ensures |b| == 16
  {
    WordBytes(s.a) + WordBytes(s.b) + WordBytes(s.c) + WordBytes(s.d)
  }

  /** The one-shot digest. */
  function Digest(m: seq<byte>): seq<byte> {
    ChainBytes(Fold(INITIAL, Padded(m)))
  }

  /** Padding fills whole blocks and is as short as it can be. */
  lemma PaddedLength(m: seq<byte>)
    ensures |Padded(m)| % BLOCK == 0
    ensures |m| + 9 <= |Padded(m)| < |m| + 9 + BLOCK
  {
    PadFills(|m|, |m| / 64, |m| % 64);
    hide LengthBytes;
  }

  lemma PadFills(n: nat, q: nat, r: nat)
    requires n == 64 * q + r && r < 64
    ensures (n + (if r < 56 then 56 - r else 120 - r) + 8) % 64 == 0
  {
    ModBlock(0, if r < 56 then q + 1 else q + 2);
  }

  lemma ModBlock(x: nat, k: nat)
    ensures (x + 64 * k) % 64 == x % 64
  {}

  lemma ModSum(a: nat, b: nat)
    requires a % 64 == 0 && b < 64
    ensures (a + b) % 64 == b
  {
    ModBlock(b, a / 64);
  }

  // ---------- folding in pieces ----------

  lemma {:induction false} FoldAppend(s: Chain, a: seq<byte>, b: seq<byte>)
    requires |a| % BLOCK == 0
    ensures Fold(s, a + b) == Fold(Fold(s, a), b)
    decreases |a|
  {
    hide Compress;
    if a == [] {
      assert a + b == b;
    } else {
      assert (a + b)[..BLOCK] == a[..BLOCK] && (a + b)[BLOCK..] == a[BLOCK..] + b;
      FoldAppend(Compress(s, a[..BLOCK]), a[BLOCK..], b);
    }
  }

  lemma FoldBlock(s: Chain, a: seq<byte>, block: seq<byte>)
    requires |a| % BLOCK == 0 && |block| == BLOCK
    ensures Fold(s, a + block) == Compress(Fold(s, a), block)
  {
    hide Compress;
    FoldAppend(s, a, block);
    assert block[..BLOCK] == block && |block[BLOCK..]| == 0;
  }

  lemma FoldTail(s: Chain, a: seq<byte>, t: seq<byte>)
    requires |a| % BLOCK == 0 && |t| < BLOCK
    ensures Fold(s, a + t) == Fold(s, a)
  {
    FoldAppend(s, a, t);
  }

  // ---------- the two words that count bits ----------

  predicate Counts(c0: nat, c1: nat, n: nat) {
    c0 < 0x1_0000_0000 && c1 < 0x1_0000_0000 && c0 + 0x1_0000_0000 * c1 == 8 * n % 0x1_0000_0000_0000_0000
  }

  /** update's arithmetic on _count: a 32-bit add, a carry detected by comparison, and the high bits of the length. */
  function AddBits(c0: nat, c1: nat, length: nat): (nat, nat) {
    var low := 8 * length % 0x1_0000_0000;
    var c0' := (c0 + low) % 0x1_0000_0000;
    var carried := if c0' < low then (c1 + 1) % 0x1_0000_0000 else c1;
    (c0', (carried + length % 0x1_0000_0000 / 0x2000_0000) % 0x1_0000_0000)
  }

  lemma LowWord(c0: nat, low: nat)
    requires c0 < 0x1_0000_0000 && low < 0x1_0000_0000
    ensures var c0' := (c0 + low) % 0x1_0000_0000;
      c0 + low == c0' + (if c0' < low then 0x1_0000_0000 else 0)
  {}

  lemma HighWord(c1: nat, carry: nat, high: nat) returns (q: nat)
    requires c1 < 0x1_0000_0000 && carry <= 1
    ensures var carried := if carry == 1 then (c1 + 1) % 0x1_0000_0000 else c1;
      c1 + carry + high == (carried + high) % 0x1_0000_0000 + 0x1_0000_0000 * q
  {
    var carried := if carry == 1 then (c1 + 1) % 0x1_0000_0000 else c1;
    q := (carried + high) / 0x1_0000_0000 + (c1 + carry - carried) / 0x1_0000_0000;
  }

  /** The new words, without the remainders. */
  lemma AddBitsIs(c0: nat, c1: nat, length: nat) returns (carry: nat, q: nat)
    requires c0 < 0x1_0000_0000 && c1 < 0x1_0000_0000 && length < 0x1_0000_0000
    ensures var (d0, d1) := AddBits(c0, c1, length);
      && d0 < 0x1_0000_0000 && d1 < 0x1_0000_0000
      && c0 + 8 * length % 0x1_0000_0000 == d0 + 0x1_0000_0000 * carry
      && c1 + carry + length / 0x2000_0000 == d1 + 0x1_0000_0000 * q
  {
    var low := 8 * length % 0x1_0000_0000;
    assert length % 0x1_0000_0000 == length;
    LowWord(c0, low);
    carry := if (c0 + low) % 0x1_0000_0000 < low then 1 else 0;
    q := HighWord(c1, carry, length / 0x2000_0000);
  }

  lemma Remainder64(x: nat, v: nat, q: nat)
    requires x == v + 0x1_0000_0000_0000_0000 * q && v < 0x1_0000_0000_0000_0000
    ensures x % 0x1_0000_0000_0000_0000 == v
  {}

  /** The counters follow the length of the message, for every piece shorter than 2^32 bytes. */
  lemma CountsAdd(c0: nat, c1: nat, n: nat, length: nat)
    requires Counts(c0, c1, n) && length < 0x1_0000_0000
    ensures var (d0, d1) := AddBits(c0, c1, length); Counts(d0, d1, n + length)
  {
    hide AddBits;
    LengthSplits(length);
    var carry, q := AddBitsIs(c0, c1, length);
    var (d0, d1) := AddBits(c0, c1, length);
    var p := 8 * n / 0x1_0000_0000_0000_0000;
    Combine(n, length, c0, c1, d0, d1, 8 * length % 0x1_0000_0000, length / 0x2000_0000, carry, p, q);
    Remainder64(8 * (n + length), d0 + 0x1_0000_0000 * d1, p + q);
  }

  lemma LengthSplits(length: nat)
    requires length < 0x1_0000_0000
    ensures 8 * length == 8 * length % 0x1_0000_0000 + 0x1_0000_0000 * (length / 0x2000_0000)
  {}

  lemma Combine(n: nat, length: nat, c0: nat, c1: nat, d0: nat, d1: nat, low: nat, high: nat, carry: nat, p: nat, q: nat)
    requires 8 * n == c0 + 0x1_0000_0000 * c1 + 0x1_0000_0000_0000_0000 * p
    requires 8 * length == low + 0x1_0000_0000 * high
    requires c0 + low == d0 + 0x1_0000_0000 * carry
    requires c1 + carry + high == d1 + 0x1_0000_0000 * q
    ensures 8 * (n + length) == d0 + 0x1_0000_0000 * d1 + 0x1_0000_0000_0000_0000 * (p + q)
  {}

  /** The bits the low counter yields when shifted: the length modulo 64. */
  lemma CountIndex(c0: nat, c1: nat, n: nat)
    requires Counts(c0, c1, n)
    ensures c0 / 8 % BLOCK == n % BLOCK
  {
    var p := 8 * n / 0x1_0000_0000_0000_0000;
    assert 8 * n == c0 + 0x1_0000_0000 * c1 + 0x1_0000_0000_0000_0000 * p;
    var k := c1 + 0x1_0000_0000 * p;
    assert n == c0 / 8 + 0x2000_0000 * k;
    ModBlock(c0 / 8, 0x80_0000 * k);
  }

  lemma ByteStep(a: nat, h: nat)
    ensures (a + 0x100 * h) % 0x100 == a % 0x100 && (a + 0x100 * h) / 0x100 == a / 0x100 + h
  {}

  /** The k low bytes of a below the number b. */
  function Join(a: nat, k: nat, b: nat): nat {
    if k == 0 then b else a % 0x100 + 0x100 * Join(a / 0x100, k - 1, b)
  }

  lemma LowByteFirst(n: nat, k: nat)
    requires k > 0
    ensures LittleEndianBytes(n, k) == [ByteOf(n % 0x100)] + LittleEndianBytes(n / 0x100, k - 1)
  {}

  lemma ConsAppend(x: byte, s: seq<byte>, t: seq<byte>)
    ensures ([x] + s) + t == [x] + (s + t)
  {}

  lemma NothingInFront(a: nat, b: nat)
    ensures LittleEndianBytes(a, 0) + LittleEndianBytes(b, 4) == LittleEndianBytes(b, 4)
  {
    assert LittleEndianBytes(a, 0) == [];
    hide LittleEndianBytes;
  }

  lemma {:induction false} JoinBytes(a: nat, k: nat, b: nat)
    ensures LittleEndianBytes(a, k) + LittleEndianBytes(b, 4) == LittleEndianBytes(Join(a, k, b), k + 4)
  {
    hide LittleEndianBytes, ByteOf;
    if k == 0 {
      NothingInFront(a, b);
    } else {
      var n := Join(a, k, b);
      ByteStep(a % 0x100, Join(a / 0x100, k - 1, b));
      JoinBytes(a / 0x100, k - 1, b);
      LowByteFirst(a, k);
      LowByteFirst(n, k + 4);
      ConsAppend(ByteOf(a % 0x100), LittleEndianBytes(a / 0x100, k - 1), LittleEndianBytes(b, 4));
    }
  }

  lemma JoinOne(a: nat, b: nat)
    requires a < 0x100
    ensures Join(a, 1, b) == a + 0x100 * b
  {
    assert Join(a / 0x100, 0, b) == b;
  }

  lemma JoinTwo(a: nat, b: nat)
    requires a < 0x1_0000
    ensures Join(a, 2, b) == a + 0x1_0000 * b
  {
    JoinOne(a / 0x100, b);
  }

  lemma JoinThree(a: nat, b: nat)
    requires a < 0x100_0000
    ensures Join(a, 3, b) == a + 0x100_0000 * b
  {
    JoinTwo(a / 0x100, b);
  }

  lemma JoinFour(a: nat, b: nat)
    requires a < 0x1_0000_0000
    ensures Join(a, 4, b) == a + 0x1_0000_0000 * b
  {
    JoinThree(a / 0x100, b);
  }

  /** encode(_count, bits, 8). */
  lemma CountBytes(c0: nat, c1: nat, n: nat)
    requires Counts(c0, c1, n)
    ensures LittleEndianBytes(c0, 4) + LittleEndianBytes(c1, 4) == LengthBytes(n)
  {
    hide LittleEndianBytes, Join;
    JoinBytes(c0, 4, c1);
    JoinFour(c0, c1);
  }

  // ---------- the object ----------

  function Tail(m: seq<byte>): (t: seq<byte>)
    ensures |t| == |m| % BLOCK
  {
    m[|m| - |m| % BLOCK..]
  }

  /** What the object stands for after digest(): the same message, unless the padding did not fit behind the tail;
      then the tail has been overwritten by zeros and length bytes. */
  function AfterDigest(m: seq<byte>): (r: seq<byte>)
    ensures |r| == |m|
  {
    if |m| % BLOCK < 56 then m
    else m[..|m| - |m| % BLOCK] + (Zeros(56) + LengthBytes(|m|))[..|m| % BLOCK]
  }

  /** Continuing after digest() is right exactly when the last block had room for the length, or its tail happened
      to be what digest() leaves there. */
  lemma ResumableIff(m: seq<byte>)
    ensures AfterDigest(m) == m <==> |m| % BLOCK < 56 || Tail(m) == (Zeros(56) + LengthBytes(|m|))[..|m| % BLOCK]
  {
    hide LengthBytes;
    if |m| % BLOCK >= 56 {
      var k := |m| - |m| % BLOCK;
      SameHead(m[..k], Tail(m), (Zeros(56) + LengthBytes(|m|))[..|m| % BLOCK]);
      assert m == m[..k] + Tail(m);
    }
  }

  lemma SameHead(a: seq<byte>, t: seq<byte>, u: seq<byte>)
    ensures a + t == a + u <==> t == u
  {
    if a + t == a + u {
      assert t == (a + t)[|a|..] == (a + u)[|a|..] == u;
    }
  }

  datatype Use = Update(input: seq<byte>) | Ask

  /** What an object stands for after a series of uses since reset(). */
  function Meaning(uses: seq<Use>): seq<byte> {
    if uses == [] then []
    else
      var before := Meaning(uses[..|uses| - 1]);
      match uses[|uses| - 1]
      case Update(input) => before + input
      case Ask => AfterDigest(before)
  }

  lemma MeaningOfUses(m: seq<byte>, x: seq<byte>)
    ensures Meaning([Update(m), Ask]) == AfterDigest(m)
    ensures Meaning([Update(m), Ask, Update(x)]) == AfterDigest(m) + x
  {
    hide AfterDigest;
    assert [Update(m)][..0] == [] && [] + m == m;
    assert Meaning([Update(m)]) == m;
    assert [Update(m), Ask][..1] == [Update(m)];
    assert [Update(m), Ask, Update(x)][..2] == [Update(m), Ask];
  }

  function Ones(n: nat): (s: seq<byte>)
    ensures |s| == n && forall i :: 0 <= i < n ==> s[i] == 1
  {
    seq(n, i => 1)
  }

  lemma ZerosAfterOnes()
    ensures AfterDigest(Ones(56)) == Zeros(56)
  {
    hide LengthBytes, Ones;
    assert (Zeros(56) + LengthBytes(56))[..56] == Zeros(56);
    assert Ones(56)[..0] == [] && [] + Zeros(56) == Zeros(56);
  }

  /** Once 56 bytes of ones have been digested, a second digest() - or one after any further update - is that of 56 zero
      bytes, and of what was updated, instead. */
  lemma NotResumable(x: seq<byte>)
    ensures AfterDigest(Ones(56)) == Zeros(56) != Ones(56)
    ensures Meaning([Update(Ones(56)), Ask]) == Zeros(56)
    ensures Meaning([Update(Ones(56)), Ask, Update(x)]) == Zeros(56) + x != Ones(56) + x
  {
    hide AfterDigest, Meaning, Ones;
    ZerosAfterOnes();
    MeaningOfUses(Ones(56), x);
    assert Zeros(56)[0] == 0 && Ones(56)[0] == 1;
    assert (Zeros(56) + x)[0] == 0 && (Ones(56) + x)[0] == 1;
  }

  function Inputs(uses: seq<Use>): seq<byte> {
    if uses == [] then []
    else
      var before := Inputs(uses[..|uses| - 1]);
      match uses[|uses| - 1]
      case Update(input) => before + input
      case Ask => before
  }

  /** No digest was asked for while 56 to 63 bytes stood in the last block. */
  predicate AsksEarly(uses: seq<Use>) {
    forall i :: 0 <= i < |uses| && uses[i].Ask? ==> |Inputs(uses[..i])| % BLOCK < 56
  }

  /** Below the padding edge, asking for digests any number of times in between changes nothing. */
  lemma {:induction false} EarlyAsksAreHarmless(uses: seq<Use>)
    requires AsksEarly(uses)
    ensures Meaning(uses) == Inputs(uses)
    decreases |uses|
  {
    if uses != [] {
      var init := uses[..|uses| - 1];
      forall i | 0 <= i < |init| && init[i].Ask?
        ensures |Inputs(init[..i])| % BLOCK < 56
      {
        assert uses[i].Ask? && uses[..i] == init[..i];
      }
      EarlyAsksAreHarmless(init);
    }
  }

  lemma NothingYet()
    ensures Fold(INITIAL, []) == INITIAL && Counts(0, 0, 0) && Tail([]) == []
  {}

  class Context {
    var state: Chain
    var count0: nat
    var count1: nat
    var buffer: array<byte>
    var finished: bool
    var result: seq<byte>
    ghost var message: seq<byte>

    /** The chaining words are the fold over the complete blocks, the buffer starts with the rest, and the two count
        words hold eight times the length modulo 2^64. */
    ghost predicate Valid()
      reads this, buffer
    {
      && buffer.Length == BLOCK
      && state == Fold(INITIAL, message)
      && Counts(count0, count1, |message|)
      && buffer[..|message| % BLOCK] == Tail(message)
    }

    constructor ()
      ensures Valid() && message == [] && fresh(buffer) && !finished
    {
      NothingYet();
      hide Compress, Fold, Counts, Tail;
      buffer := new byte[BLOCK];
      finished, result := false, [];
      count0, count1 := 0, 0;
      state := INITIAL;
      message := [];
      new;
      assert buffer[..0] == [];
    }

    method Reset()
      requires buffer.Length == BLOCK
      modifies this`state, this`count0, this`count1, this`finished, this`message
      ensures Valid() && message == [] && !finished
    {
      NothingYet();
      hide Compress, Fold, Counts, Tail;
      finished := false;
      count0, count1 := 0, 0;
      state := INITIAL;
      message := [];
      assert buffer[..0] == [];
    }

    /** memcpy(&_buffer[index], input, length). */
    method Fill(index: nat, input: seq<byte>)
      requires buffer.Length == BLOCK && index + |input| <= BLOCK
      modifies buffer
      ensures buffer[..] == old(buffer[..index]) + input + old(buffer[index + |input|..])
    {
      forall i | 0 <= i < |input| {
        buffer[index + i] := input[i];
      }
    }

    /** The block loop of update: compress whole blocks of the input from position `from` on. */
    method AbsorbBlocks(ghost done: seq<byte>, input: seq<byte>, from: nat) returns (i: nat)
      requires from <= |input| < WORD_MODULUS - BLOCK
      requires |done + input[..from]| % BLOCK == 0 && state == Fold(INITIAL, done + input[..from])
      modifies this`state
      ensures i <= |input| < i + BLOCK
      ensures |done + input[..i]| % BLOCK == 0 && state == Fold(INITIAL, done + input[..i])
    {
      hide Compress, Fold;
      i := from;
      while i + 63 < |input|
        invariant i <= |input|
        invariant |done + input[..i]| % BLOCK == 0 && state == Fold(INITIAL, done + input[..i])
      {
        FoldBlock(INITIAL, done + input[..i], input[i..i + BLOCK]);
        assert done + input[..i] + input[i..i + BLOCK] == done + input[..i + BLOCK];
        state := Transform(state, input[i..i + BLOCK]);
        i := i + BLOCK;
      }
    }

    /** The buffer is completed by the start of the input and compressed. */
    method AbsorbFirst(index: nat, input: seq<byte>)
      requires Valid() && index == |message| % BLOCK && BLOCK - index <= |input|
      modifies this`state, buffer
      ensures |message + input[..BLOCK - index]| % BLOCK == 0
      ensures state == Fold(INITIAL, message + input[..BLOCK - index])
      ensures buffer[..] == Tail(message) + input[..BLOCK - index]
    {
      hide Compress, Fold, Counts, BufferAfter;
      ghost var whole, t := message[..|message| - index], Tail(message);
      assert message == whole + t;
      FoldTail(INITIAL, whole, t);
      var part := input[..BLOCK - index];
      Fill(index, part);
      assert buffer[..] == t + part;
      FoldBlock(INITIAL, whole, t + part);
      assert whole + (t + part) == message + part;
      state := Transform(state, buffer[..]);
    }

    /** update's branch for input that completes the block. */
    method AbsorbMany(index: nat, input: seq<byte>)
      requires Valid() && index == |message| % BLOCK && BLOCK - index <= |input| < WORD_MODULUS - BLOCK
      modifies this`state, buffer
      ensures state == Fold(INITIAL, message + input)
      ensures buffer[..|message + input| % BLOCK] == Tail(message + input)
      ensures buffer[..] == BufferAfter(old(buffer[..]), message, input)
    {
      hide Compress, Counts, Fold, BufferAfter;
      AbsorbFirst(index, input);
      var i := AbsorbBlocks(message, input, BLOCK - index);
      var left := input[i..];
      Fill(0, left);
      SplitOff(message + input[..i], left);
      assert message + input[..i] + left == message + input;
      BufferAfterMany(old(buffer[..]), message, input, left);
    }

    /** update's branch for input that fits behind the tail. */
    method AbsorbFew(index: nat, input: seq<byte>)
      requires Valid() && index == |message| % BLOCK && index + |input| < BLOCK
      modifies buffer
      ensures state == Fold(INITIAL, message + input)
      ensures buffer[..|message + input| % BLOCK] == Tail(message + input)
      ensures buffer[..] == BufferAfter(old(buffer[..]), message, input)
    {
      hide Compress, Counts, Fold;
      Fill(index, input);
      ghost var whole := message[..|message| - index];
      assert message == whole + Tail(message);
      FoldTail(INITIAL, whole, Tail(message));
      SplitOff(whole, Tail(message) + input);
      assert whole + (Tail(message) + input) == message + input;
    }

    /** update: append input to the message. Longer inputs do not terminate in the source, whose index is 32 bits wide. */
    method Update(input: seq<byte>)
      requires Valid() && |input| < WORD_MODULUS - BLOCK
      modifies this`state, this`count0, this`count1, this`finished, this`message, buffer
      ensures Valid() && message == old(message) + input && !finished
      ensures buffer[..] == BufferAfter(old(buffer[..]), old(message), input)
    {
      hide Compress, Counts, AddBits, Fold, BufferAfter;
      finished := false;
      CountIndex(count0, count1, |message|);
      var index := count0 / 8 % BLOCK;
      var counts := AddBits(count0, count1, |input|);
      var partLen := BLOCK - index;
      if |input| >= partLen {
        AbsorbMany(index, input);
      } else {
        AbsorbFew(index, input);
      }
      CountsAdd(count0, count1, |message|, |input|);
      count0, count1 := counts.0, counts.1;
      message := message + input;
    }

    /** final: pad, append the length, read the digest off, put the chaining words and counts back - but not the buffer. */
    method Final()
      requires Valid()
      modifies this`state, this`count0, this`count1, this`finished, this`message, this`result, buffer
      ensures Valid() && !finished && message == AfterDigest(old(message))
      ensures result == Digest(old(message))
    {
      hide Compress, Counts, AddBits, Fold, LengthBytes, BufferAfter, Padding, AfterDigest, LittleEndianBytes, ChainBytes;
      ghost var m := message;
      var oldState, oldCount0, oldCount1 := state, count0, count1;
      CountIndex(count0, count1, |m|);
      CountBytes(count0, count1, |m|);
      var bits := LittleEndianBytes(count0, 4) + LittleEndianBytes(count1, 4);
      var index := count0 / 8 % BLOCK;
      var padLen := if index < 56 then 56 - index else 120 - index;
      PaddingIsPrefix(|m|, padLen);
      Update(PADDING[..padLen]);
      ghost var mid := buffer[..];
      Update(bits);
      result := ChainBytes(state);
      state, count0, count1 := oldState, oldCount0, oldCount1;
      FinalBuffer(m, mid);
      FinalState(m);
      message := AfterDigest(m);
    }

    /** digest: update() has always cleared _finished again, so every call recomputes. */
    method Ask() returns (r: seq<byte>)
      requires Valid() && !finished
      modifies this`state, this`count0, this`count1, this`finished, this`message, this`result, buffer
      ensures Valid() && !finished && message == AfterDigest(old(message))
      ensures r == Digest(old(message))
    {
      if !finished {
        finished := true;
        Final();
      }
      r := result;
    }
  }

  const PADDING: seq<byte> := [0x80] + Zeros(63)

  lemma PaddingIsPrefix(n: nat, padLen: nat)
    requires padLen == if n % BLOCK < 56 then 56 - n % BLOCK else 120 - n % BLOCK
    ensures PADDING[..padLen] == Padding(n) && |Padding(n)| == padLen
  {}

  /** What update leaves in the buffer. */
  function BufferAfter(buf: seq<byte>, m: seq<byte>, input: seq<byte>): seq<byte>
    requires |buf| == BLOCK
  {
    var index := |m| % BLOCK;
    if index + |input| < BLOCK then buf[..index] + input + buf[index + |input|..]
    else
      var left := |m + input| % BLOCK;
      if left <= |input| then input[|input| - left..] + (Tail(m) + input[..BLOCK - index])[left..] else buf
  }

  lemma BufferAfterMany(buf: seq<byte>, m: seq<byte>, input: seq<byte>, left: seq<byte>)
    requires |buf| == BLOCK && BLOCK - |m| % BLOCK <= |input| && |left| == |m + input| % BLOCK
    requires |left| <= |input| && left == input[|input| - |left|..]
    ensures BufferAfter(buf, m, input) == [] + left + (Tail(m) + input[..BLOCK - |m| % BLOCK])[|left|..]
  {}

  /** The chaining words and counts do not see the difference between a message and what digest() leaves of it. */
  lemma FinalState(m: seq<byte>)
    ensures Fold(INITIAL, AfterDigest(m)) == Fold(INITIAL, m) && |AfterDigest(m)| == |m|
  {
    hide Compress, Fold, LengthBytes;
    if |m| % BLOCK >= 56 {
      var whole := m[..|m| - |m| % BLOCK];
      assert m == whole + Tail(m);
      FoldTail(INITIAL, whole, Tail(m));
      FoldTail(INITIAL, whole, (Zeros(56) + LengthBytes(|m|))[..|m| % BLOCK]);
    }
  }

  lemma PaddedTo56(m: seq<byte>)
    ensures |m + Padding(|m|)| % BLOCK == 56
    ensures Tail(m + Padding(|m|)) == if |m| % BLOCK < 56 then Tail(m) + Padding(|m|) else Zeros(56)
  {
    var index, p := |m| % BLOCK, Padding(|m|);
    var whole := m[..|m| - index];
    assert m == whole + Tail(m);
    if index < 56 {
      TailOfSum(whole, Tail(m) + p);
      assert m + p == whole + (Tail(m) + p);
    } else {
      var k := BLOCK - index;
      ModSum(|whole|, 0);
      ModBlock(0, |whole| / 64 + 1);
      TailOfSum(m + p[..k], p[k..]);
      assert m + p == m + p[..k] + p[k..];
      assert p[k..] == Zeros(56);
    }
  }

  lemma BufferCompleted(buf: seq<byte>, m: seq<byte>, input: seq<byte>)
    requires |buf| == BLOCK && |m| % BLOCK + |input| == BLOCK
    ensures BufferAfter(buf, m, input) == Tail(m) + input
  {
    var q := |m| / 64;
    assert |m + input| == 64 * (q + 1);
    ModBlock(0, q + 1);
    assert input[|input|..] == [] && input[..|input|] == input;
  }

  lemma WholeBlocks(n: nat)
    ensures (n - n % 64) % 64 == 0
  {
    ModBlock(0, n / 64);
  }

  lemma OverwrittenTail(m: seq<byte>)
    requires |m| % BLOCK >= 56
    ensures Tail(AfterDigest(m)) == (Zeros(56) + LengthBytes(|m|))[..|m| % BLOCK]
  {
    hide LengthBytes, Zeros, Tail;
    WholeBlocks(|m|);
    TailOfSum(m[..|m| - |m| % BLOCK], (Zeros(56) + LengthBytes(|m|))[..|m| % BLOCK]);
  }

  lemma FrontOf(a: seq<byte>, b: seq<byte>, c: seq<byte>)
    ensures (a + b + c)[..|a|] == a
  {}

  /** The buffer after padding and length have gone through it: in its front stands what AfterDigest says. */
  lemma FinalBuffer(m: seq<byte>, mid: seq<byte>)
    requires |mid| == BLOCK
    ensures BufferAfter(mid, m + Padding(|m|), LengthBytes(|m|))[..|m| % BLOCK] == Tail(AfterDigest(m))
  {
    PaddedTo56(m);
    var p, bits := Padding(|m|), LengthBytes(|m|);
    hide LengthBytes, Padding, Zeros, BufferAfter, Tail;
    BufferCompleted(mid, m + p, bits);
    if |m| % BLOCK < 56 {
      FrontOf(Tail(m), p, bits);
    } else {
      hide AfterDigest;
      OverwrittenTail(m);
    }
  }

  lemma TailOfSum(whole: seq<byte>, t: seq<byte>)
    requires |whole| % BLOCK == 0 && |t| < BLOCK
    ensures |whole + t| % BLOCK == |t| && Tail(whole + t) == t
  {
    ModSum(|whole|, |t|);
  }

  lemma SplitOff(whole: seq<byte>, t: seq<byte>)
    requires |whole| % BLOCK == 0 && |t| < BLOCK
    ensures Fold(INITIAL, whole + t) == Fold(INITIAL, whole)
    ensures |whole + t| % BLOCK == |t| && Tail(whole + t) == t
  {
    hide Compress, Fold;
    FoldTail(INITIAL, whole, t);
    ModSum(|whole|, |t|);
  }
}
