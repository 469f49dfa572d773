/** Published values: the check value of the CRC, the digest of the empty message, and a frame and a packet spelled out byte for byte. */
module Vectors {
  import opened Bytes
  import opened Md5
  import Crc32
  import Framing
  import MessageFormat
  import Packet

  // ---------- CRC-32 ----------

  /** The digits 1 to 9. */
  const DIGITS: seq<byte> := [0x31, 0x32, 0x33, 0x34, 0x35, 0x36, 0x37, 0x38, 0x39]

  lemma CrcOfDigits()
    ensures Crc32.Crc(0, DIGITS) == 0xcbf43926
  {}

  // ---------- a frame ----------

  /** makeMessage on the nine digits, marked as compressed, in zeroed memory: the length 19 and the CRC with their low bytes
      first, the flag in the high bit of the mask. */
  lemma FrameOfDigits()
    ensures MessageFormat.Make([0, 0, 0, 0, 0, 0, 0, 0, 0, 0], DIGITS, true) ==
      [19, 0, 0, 0, 0, 0x80, 0x26, 0x39, 0xf4, 0xcb] + DIGITS
  {
    hide Crc32.Crc, LittleEndianBytes, ByteOf, WordBytes;
    CrcOfDigits();
    SmallWord(19);
    ByteNineteen();
    StoredCrc();
  }

  lemma StoredCrc()
    ensures WordBytes(0xcbf43926) == [0x26, 0x39, 0xf4, 0xcb]
  {}

  lemma {:induction false} ZeroBytes(k: nat)
    ensures LittleEndianBytes(0, k) == Zeros(k)
  {
    assert ByteOf(0) == 0;
    hide ByteOf;
    if k > 0 {
      ZeroBytes(k - 1);
    }
  }

  lemma LowByteStands(n: nat, k: nat)
    ensures LittleEndianBytes(n, k + 1) == [ByteOf(n % 0x100)] + LittleEndianBytes(n / 0x100, k)
  {}

  lemma ByteNineteen()
    ensures ByteOf(19) == 19
  {}

  lemma SmallWord(n: nat)
    requires n < 0x100
    ensures LittleEndianBytes(n, 4) == [ByteOf(n), 0, 0, 0]
  {
    hide ByteOf, LittleEndianBytes;
    LowByteStands(n, 3);
    ZeroBytes(3);
    assert Zeros(3) == [0, 0, 0];
  }

  // ---------- a packet ----------

  /** A two-byte scalar, a list of two strings, of which one is empty: sizes are four bytes, low byte first, and everything
      stands in the order it was written. */
  lemma PacketOfStrings()
    ensures Packet.Encode(Packet.Two(Packet.Raw([1, 2]), Packet.Many([Packet.Text([0x41]), Packet.Text([])]))) ==
      [1, 2] + [2, 0, 0, 0] + [1, 0, 0, 0, 0x41] + [0, 0, 0, 0]
  {
    var one, none := Packet.Text([0x41]), Packet.Text([]);
    var list := Packet.Many([one, none]);
    hide LittleEndianBytes, ByteOf;
    SmallWord(2);
    SmallWord(1);
    SmallWord(0);
    SmallBytes();
    assert Packet.Encode(one) == [1, 0, 0, 0, 0x41] && Packet.Encode(none) == [0, 0, 0, 0];
    assert Packet.EncodeFirst(list, 0) == [] && Packet.EncodeFirst(list, 1) == Packet.Encode(one);
    assert Packet.EncodeFirst(list, 2) == Packet.Encode(one) + Packet.Encode(none);
  }

  lemma SmallBytes()
    ensures ByteOf(0) == 0 && ByteOf(1) == 1 && ByteOf(2) == 2
  {}

  // ---------- MD5 of the empty message, section A.5 of RFC 1321 ----------

  predicate EmptyBlock(x: seq<bv32>) {
    && |x| == 16
    && x[0] == 0x00000080 && x[1] == 0 && x[2] == 0 && x[3] == 0
    && x[4] == 0 && x[5] == 0 && x[6] == 0 && x[7] == 0
    && x[8] == 0 && x[9] == 0 && x[10] == 0 && x[11] == 0
    && x[12] == 0 && x[13] == 0 && x[14] == 0 && x[15] == 0
  }

  lemma EmptyFF()
    ensures FF(0x67452301, 0xefcdab89, 0x98badcfe, 0x10325476, 0x00000080, 7, 0xd76aa478) == 0xa5202774
    ensures FF(0x10325476, 0xa5202774, 0xefcdab89, 0x98badcfe, 0, 12, 0xe8c7b756) == 0xf59592dd
    ensures FF(0x98badcfe, 0xf59592dd, 0xa5202774, 0xefcdab89, 0, 17, 0x242070db) == 0xe7f06b23
    ensures FF(0xefcdab89, 0xe7f06b23, 0xf59592dd, 0xa5202774, 0, 22, 0xc1bdceee) == 0x1b163203
    ensures FF(0xa5202774, 0x1b163203, 0xe7f06b23, 0xf59592dd, 0, 7, 0xf57c0faf) == 0x32033344
    ensures FF(0xf59592dd, 0x32033344, 0x1b163203, 0xe7f06b23, 0, 12, 0x4787c62a) == 0x2f35d494
    ensures FF(0xe7f06b23, 0x2f35d494, 0x32033344, 0x1b163203, 0, 17, 0xa8304613) == 0xf5b158db
    ensures FF(0x1b163203, 0xf5b158db, 0x2f35d494, 0x32033344, 0, 22, 0xfd469501) == 0x9bc13ce9
    ensures FF(0x32033344, 0x9bc13ce9, 0xf5b158db, 0x2f35d494, 0, 7, 0x698098d8) == 0x3893b991
    ensures FF(0x2f35d494, 0x3893b991, 0x9bc13ce9, 0xf5b158db, 0, 12, 0x8b44f7af) == 0xfce4a312
    ensures FF(0xf5b158db, 0xfce4a312, 0x3893b991, 0x9bc13ce9, 0, 17, 0xffff5bb1) == 0xe1ef0576
    ensures FF(0x9bc13ce9, 0xe1ef0576, 0xfce4a312, 0x3893b991, 0, 22, 0x895cd7be) == 0x70768a29
    ensures FF(0x3893b991, 0x70768a29, 0xe1ef0576, 0xfce4a312, 0, 7, 0x6b901122) == 0xf56c7cf1
    ensures FF(0xfce4a312, 0xf56c7cf1, 0x70768a29, 0xe1ef0576, 0, 12, 0xfd987193) == 0x374943a7
    ensures FF(0xe1ef0576, 0x374943a7, 0xf56c7cf1, 0x70768a29, 0, 17, 0xa679438e) == 0x5aa53f75
    ensures FF(0x70768a29, 0x5aa53f75, 0x374943a7, 0xf56c7cf1, 0, 22, 0x49b40821) == 0xd6819c6a
  {}

  lemma EmptyFirstRound(s: Chain, x: seq<bv32>)
    requires EmptyBlock(x) && Steps(0, s, x) == Chain(0x67452301, 0xefcdab89, 0x98badcfe, 0x10325476)
    ensures Steps(16, s, x) == Chain(0xf56c7cf1, 0xd6819c6a, 0x5aa53f75, 0x374943a7)
  {
    hide FF, GG, HH, II, WordIndex, Shift, Sine, Steps;
    FirstParameters();
    FirstSines();
    EmptyFF();
    FourStepsOfFirst(0, 1, 2, 3, s, x);
    FourStepsOfFirst(4, 5, 6, 7, s, x);
    FourStepsOfFirst(8, 9, 10, 11, s, x);
    FourStepsOfFirst(12, 13, 14, 15, s, x);
  }

  lemma EmptyGG()
    ensures GG(0xf56c7cf1, 0xd6819c6a, 0x5aa53f75, 0x374943a7, 0, 5, 0xf61e2562) == 0x1c7d7513
    ensures GG(0x374943a7, 0x1c7d7513, 0xd6819c6a, 0x5aa53f75, 0, 9, 0xc040b340) == 0x7bd57a3a
    ensures GG(0x5aa53f75, 0x7bd57a3a, 0x1c7d7513, 0xd6819c6a, 0, 14, 0x265e5a51) == 0xc095f13a
    ensures GG(0xd6819c6a, 0xc095f13a, 0x7bd57a3a, 0x1c7d7513, 0x00000080, 20, 0xe9b6c7aa) == 0xbd782e17
    ensures GG(0x1c7d7513, 0xbd782e17, 0xc095f13a, 0x7bd57a3a, 0, 5, 0xd62f105d) == 0x3d1e3e6c
    ensures GG(0x7bd57a3a, 0x3d1e3e6c, 0xbd782e17, 0xc095f13a, 0, 9, 0x02441453) == 0x68b7b3e3
    ensures GG(0xc095f13a, 0x68b7b3e3, 0x3d1e3e6c, 0xbd782e17, 0, 14, 0xd8a1e681) == 0xeb41643e
    ensures GG(0xbd782e17, 0xeb41643e, 0x68b7b3e3, 0x3d1e3e6c, 0, 20, 0xe7d3fbc8) == 0xe422531a
    ensures GG(0x3d1e3e6c, 0xe422531a, 0xeb41643e, 0x68b7b3e3, 0, 5, 0x21e1cde6) == 0x306ec122
    ensures GG(0x68b7b3e3, 0x306ec122, 0xe422531a, 0xeb41643e, 0, 9, 0xc33707d6) == 0xd28c77c2
    ensures GG(0xeb41643e, 0xd28c77c2, 0x306ec122, 0xe422531a, 0, 14, 0xf4d50d87) == 0xa3c663da
    ensures GG(0xe422531a, 0xa3c663da, 0xd28c77c2, 0x306ec122, 0, 20, 0x455a14ed) == 0xa0572807
    ensures GG(0x306ec122, 0xa0572807, 0xa3c663da, 0xd28c77c2, 0, 5, 0xa9e3e905) == 0x13707036
    ensures GG(0xd28c77c2, 0x13707036, 0xa0572807, 0xa3c663da, 0, 9, 0xfcefa3f8) == 0xae7813db
    ensures GG(0xa3c663da, 0xae7813db, 0x13707036, 0xa0572807, 0, 14, 0x676f02d9) == 0x1c31c384
    ensures GG(0xa0572807, 0x1c31c384, 0xae7813db, 0x13707036, 0, 20, 0x8d2a4c8a) == 0xa2205f1f
  {}

  lemma EmptySecondRound(s: Chain, x: seq<bv32>)
    requires EmptyBlock(x) && Steps(16, s, x) == Chain(0xf56c7cf1, 0xd6819c6a, 0x5aa53f75, 0x374943a7)
    ensures Steps(32, s, x) == Chain(0x13707036, 0xa2205f1f, 0x1c31c384, 0xae7813db)
  {
    hide FF, GG, HH, II, WordIndex, Shift, Sine, Steps;
    SecondParameters();
    SecondSines();
    EmptyGG();
    FourStepsOfSecond(16, 17, 18, 19, s, x);
    FourStepsOfSecond(20, 21, 22, 23, s, x);
    FourStepsOfSecond(24, 25, 26, 27, s, x);
    FourStepsOfSecond(28, 29, 30, 31, s, x);
  }

  lemma EmptyHH()
    ensures HH(0x13707036, 0xa2205f1f, 0x1c31c384, 0xae7813db, 0, 4, 0xfffa3942) == 0xdf63eaa1
    ensures HH(0xae7813db, 0xdf63eaa1, 0xa2205f1f, 0x1c31c384, 0, 11, 0x8771f681) == 0xc3689f5b
    ensures HH(0x1c31c384, 0xc3689f5b, 0xdf63eaa1, 0xa2205f1f, 0, 16, 0x6d9d6122) == 0x12f3e755
    ensures HH(0xa2205f1f, 0x12f3e755, 0xc3689f5b, 0xdf63eaa1, 0, 23, 0xfde5380c) == 0x004b6669
    ensures HH(0xdf63eaa1, 0x004b6669, 0x12f3e755, 0xc3689f5b, 0, 4, 0xa4beea44) == 0x5f7a9b2e
    ensures HH(0xc3689f5b, 0x5f7a9b2e, 0x004b6669, 0x12f3e755, 0, 11, 0x4bdecfa9) == 0xabc34e16
    ensures HH(0x12f3e755, 0xabc34e16, 0x5f7a9b2e, 0x004b6669, 0, 16, 0xf6bb4b60) == 0x91ca4cb7
    ensures HH(0x004b6669, 0x91ca4cb7, 0xabc34e16, 0x5f7a9b2e, 0, 23, 0xbebfbc70) == 0xc5dc8c15
    ensures HH(0x5f7a9b2e, 0xc5dc8c15, 0x91ca4cb7, 0xabc34e16, 0, 4, 0x289b7ec6) == 0x4497169d
    ensures HH(0xabc34e16, 0x4497169d, 0xc5dc8c15, 0x91ca4cb7, 0x00000080, 11, 0xeaa127fa) == 0x76fd93d4
    ensures HH(0x91ca4cb7, 0x76fd93d4, 0x4497169d, 0xc5dc8c15, 0, 16, 0xd4ef3085) == 0xfd95f243
    ensures HH(0xc5dc8c15, 0xfd95f243, 0x76fd93d4, 0x4497169d, 0, 23, 0x04881d05) == 0x0fe32453
    ensures HH(0x4497169d, 0x0fe32453, 0xfd95f243, 0x76fd93d4, 0, 4, 0xd9d4d039) == 0x3f55edfd
    ensures HH(0x76fd93d4, 0x3f55edfd, 0x0fe32453, 0xfd95f243, 0, 11, 0xe6db99e5) == 0x22a31f54
    ensures HH(0xfd95f243, 0x22a31f54, 0x3f55edfd, 0x0fe32453, 0, 16, 0x1fa27cf8) == 0x68d84ea2
    ensures HH(0x0fe32453, 0x68d84ea2, 0x22a31f54, 0x3f55edfd, 0, 23, 0xc4ac5665) == 0xca7d2dbd
  {}

  lemma EmptyThirdRound(s: Chain, x: seq<bv32>)
    requires EmptyBlock(x) && Steps(32, s, x) == Chain(0x13707036, 0xa2205f1f, 0x1c31c384, 0xae7813db)
    ensures Steps(48, s, x) == Chain(0x3f55edfd, 0xca7d2dbd, 0x68d84ea2, 0x22a31f54)
  {
    hide FF, GG, HH, II, WordIndex, Shift, Sine, Steps;
    ThirdParameters();
    ThirdSines();
    EmptyHH();
    FourStepsOfThird(32, 33, 34, 35, s, x);
    FourStepsOfThird(36, 37, 38, 39, s, x);
    FourStepsOfThird(40, 41, 42, 43, s, x);
    FourStepsOfThird(44, 45, 46, 47, s, x);
  }

  lemma EmptyII()
    ensures II(0x3f55edfd, 0xca7d2dbd, 0x68d84ea2, 0x22a31f54, 0x00000080, 6, 0xf4292244) == 0x93aa2577
    ensures II(0x22a31f54, 0x93aa2577, 0xca7d2dbd, 0x68d84ea2, 0, 10, 0x432aff97) == 0x1688dc85
    ensures II(0x68d84ea2, 0x1688dc85, 0x93aa2577, 0xca7d2dbd, 0, 15, 0xab9423a7) == 0xcd85b8cb
    ensures II(0xca7d2dbd, 0xcd85b8cb, 0x1688dc85, 0x93aa2577, 0, 21, 0xfc93a039) == 0x561e0689
    ensures II(0x93aa2577, 0x561e0689, 0xcd85b8cb, 0x1688dc85, 0, 6, 0x655b59c3) == 0x5625a114
    ensures II(0x1688dc85, 0x5625a114, 0x561e0689, 0xcd85b8cb, 0, 10, 0x8f0ccc92) == 0x3450f42b
    ensures II(0xcd85b8cb, 0x3450f42b, 0x5625a114, 0x561e0689, 0, 15, 0xffeff47d) == 0x392ad0d0
    ensures II(0x561e0689, 0x392ad0d0, 0x3450f42b, 0x5625a114, 0, 21, 0x85845dd1) == 0x1e77fa61
    ensures II(0x5625a114, 0x1e77fa61, 0x392ad0d0, 0x3450f42b, 0, 6, 0x6fa87e4f) == 0x474a9c8c
    ensures II(0x3450f42b, 0x474a9c8c, 0x1e77fa61, 0x392ad0d0, 0, 10, 0xfe2ce6e0) == 0xdfce00bc
    ensures II(0x392ad0d0, 0xdfce00bc, 0x474a9c8c, 0x1e77fa61, 0, 15, 0xa3014314) == 0x36594b14
    ensures II(0x1e77fa61, 0x36594b14, 0xdfce00bc, 0x474a9c8c, 0, 21, 0x4e0811a1) == 0x30130182
    ensures II(0x474a9c8c, 0x30130182, 0x36594b14, 0xdfce00bc, 0, 6, 0xf7537e82) == 0x7246fad3
    ensures II(0xdfce00bc, 0x7246fad3, 0x30130182, 0x36594b14, 0, 10, 0xbd3af235) == 0x6e10a476
    ensures II(0x36594b14, 0x6e10a476, 0x7246fad3, 0x30130182, 0, 15, 0x2ad7d2bb) == 0xff4ea3eb
    ensures II(0x30130182, 0xff4ea3eb, 0x6e10a476, 0x7246fad3, 0, 21, 0xeb86d391) == 0x14e45506
  {}

  lemma EmptyFourthRound(s: Chain, x: seq<bv32>)
    requires EmptyBlock(x) && Steps(48, s, x) == Chain(0x3f55edfd, 0xca7d2dbd, 0x68d84ea2, 0x22a31f54)
    ensures Steps(64, s, x) == Chain(0x7246fad3, 0x14e45506, 0xff4ea3eb, 0x6e10a476)
  {
    hide FF, GG, HH, II, WordIndex, Shift, Sine, Steps;
    FourthParameters();
    FourthSines();
    EmptyII();
    FourStepsOfFourth(48, 49, 50, 51, s, x);
    FourStepsOfFourth(52, 53, 54, 55, s, x);
    FourStepsOfFourth(56, 57, 58, 59, s, x);
    FourStepsOfFourth(60, 61, 62, 63, s, x);
  }

  lemma EmptySteps(s: Chain, x: seq<bv32>)
    requires EmptyBlock(x) && s == Chain(0x67452301, 0xefcdab89, 0x98badcfe, 0x10325476)
    ensures Steps(64, s, x) == Chain(0x7246fad3, 0x14e45506, 0xff4ea3eb, 0x6e10a476)
  {
    assert Steps(0, s, x) == s;
    hide Steps;
    EmptyFirstRound(s, x);
    EmptySecondRound(s, x);
    EmptyThirdRound(s, x);
    EmptyFourthRound(s, x);
  }

  lemma EmptyPadded()
    ensures |Padded([])| == BLOCK && Padded([])[0] == 0x80 && forall i :: 1 <= i < BLOCK ==> Padded([])[i] == 0
  {
    hide LittleEndianBytes;
    ZeroBytes(8);
    assert Padded([]) == [0x80] + Zeros(55) + Zeros(8);
  }

  lemma EmptyWords(block: seq<byte>)
    requires |block| == BLOCK && block[0] == 0x80 && forall i :: 1 <= i < BLOCK ==> block[i] == 0
    ensures EmptyBlock(Words(block))
  {
    assert Word([0x80, 0, 0, 0]) == 0x80 && Word([0, 0, 0, 0]) == 0;
    hide Word;
    assert block[0..4] == [0x80, 0, 0, 0];
    forall k | 1 <= k < 16
      ensures Words(block)[k] == 0
    {
      assert block[4 * k..4 * k + 4] == [0, 0, 0, 0];
    }
  }

  /** The digest of the empty message. */
  lemma DigestOfNothing()
    ensures Digest([]) == [0xd4, 0x1d, 0x8c, 0xd9, 0x8f, 0x00, 0xb2, 0x04, 0xe9, 0x80, 0x09, 0x98, 0xec, 0xf8, 0x42, 0x7e]
  {
    hide Steps, Words, Padded, Fold, Compress, ChainBytes;
    EmptyPadded();
    OneBlock(INITIAL, Padded([]));
    EmptyCompressed(Padded([]));
    DigestBytes();
  }

  lemma OneBlock(s: Chain, m: seq<byte>)
    requires |m| == BLOCK
    ensures Fold(s, m) == Compress(s, m)
  {
    hide Compress;
    assert m[..BLOCK] == m && |m[BLOCK..]| == 0;
  }

  lemma EmptyCompressed(m: seq<byte>)
    requires |m| == BLOCK && m[0] == 0x80 && forall i :: 1 <= i < BLOCK ==> m[i] == 0
    ensures Compress(INITIAL, m) == Chain(0xd98c1dd4, 0x04b2008f, 0x980980e9, 0x7e42f8ec)
  {
    EmptyWords(m);
    hide Words, EmptyBlock, Steps;
    EmptySteps(INITIAL, Words(m));
  }

  lemma DigestBytes()
    ensures ChainBytes(Chain(0xd98c1dd4, 0x04b2008f, 0x980980e9, 0x7e42f8ec)) ==
      [0xd4, 0x1d, 0x8c, 0xd9, 0x8f, 0x00, 0xb2, 0x04, 0xe9, 0x80, 0x09, 0x98, 0xec, 0xf8, 0x42, 0x7e]
  {}
}
