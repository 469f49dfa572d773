/** CRC-32 as crypt.cpp computes it (a 256-entry table, eight bytes per loop turn) and the bit-serial
    reflected CRC of section 8 of RFC 1952 that it must agree with. */
module Crc32 {
  import opened Bytes

  const POLYNOMIAL: bv32 := 0xEDB88320
  const ALL_ONES: bv32 := 0xFFFFFFFF

  // ---------- machine operations, named so that proofs can reason by their laws ----------

  function Xor(a: bv32, b: bv32): bv32 { a ^ b }

  function Half(a: bv32): bv32 { a >> 1 }

  function Double(a: bv32): bv32 { a << 1 }

  predicate Low(a: bv32) { a & 1 == 1 }

  predicate Top(a: bv32) { a & 0x80000000 != 0 }

  lemma XorLaws(a: bv32, b: bv32)
    ensures Xor(a, b) == Xor(b, a)
    ensures Xor(Xor(a, b), b) == a
    ensures Xor(a, 0) == a
    ensures Xor(a, b) == 0 ==> a == b
    ensures Xor(a, a) == 0
  {}

  lemma XorAssociates(a: bv32, b: bv32, c: bv32)
    ensures Xor(Xor(a, b), c) == Xor(a, Xor(b, c))
  {}

  lemma XorSwaps(a: bv32, b: bv32, c: bv32)
    ensures Xor(Xor(a, b), c) == Xor(Xor(a, c), b)
    ensures Xor(Xor(a, c), Xor(b, c)) == Xor(a, b)
  {
    hide Xor;
    XorAssociates(a, b, c);
    XorAssociates(a, c, b);
    XorLaws(b, c);
    XorAssociates(a, c, Xor(b, c));
    XorLaws(c, Xor(b, c));
  }

  lemma HalfOfXor(a: bv32, b: bv32)
    ensures Half(Xor(a, b)) == Xor(Half(a), Half(b))
    ensures Low(Xor(a, b)) <==> Low(a) != Low(b)
  {}

  lemma HalfOfDouble(a: bv32)
    requires !Top(a)
    ensures Half(Double(a)) == a && !Low(Double(a))
  {}

  // ---------- the bit-serial definition ----------

  /** Shifts one bit out of the register. */
  function Bit(c: bv32): bv32 {
    if Low(c) then Xor(Half(c), POLYNOMIAL) else Half(c)
  }

  function Bit8(c: bv32): bv32 {
    Bit(Bit(Bit(Bit(Bit(Bit(Bit(Bit(c))))))))
  }

  /** Feeds one byte, low bit first. */
  function StepByte(c: bv32, b: byte): bv32 {
    Bit8(Xor(c, b as bv32))
  }

  function StepBytes(c: bv32, s: seq<byte>): bv32
    decreases |s|
  {
    if s == [] then c else StepBytes(StepByte(c, s[0]), s[1..])
  }

  /** The CRC of s, started from the CRC of whatever came before it. */
  function Crc(start: bv32, s: seq<byte>): bv32 {
    Xor(StepBytes(Xor(start, ALL_ONES), s), ALL_ONES)
  }

  // ---------- the table, sixteen rows of sixteen ----------

  function CrcTable(i: byte): bv32 {
    if i < 0x10 then Row0(i)
    else if i < 0x20 then Row1(i)
    else if i < 0x30 then Row2(i)
    else if i < 0x40 then Row3(i)
    else if i < 0x50 then Row4(i)
    else if i < 0x60 then Row5(i)
    else if i < 0x70 then Row6(i)
    else if i < 0x80 then Row7(i)
    else if i < 0x90 then Row8(i)
    else if i < 0xa0 then Row9(i)
    else if i < 0xb0 then RowA(i)
    else if i < 0xc0 then RowB(i)
    else if i < 0xd0 then RowC(i)
    else if i < 0xe0 then RowD(i)
    else if i < 0xf0 then RowE(i)
    else RowF(i)
  }

  function Row0(i: byte): bv32 {
    match i
    case 0x00 => 0x00000000 case 0x01 => 0x77073096 case 0x02 => 0xee0e612c case 0x03 => 0x990951ba
    case 0x04 => 0x076dc419 case 0x05 => 0x706af48f case 0x06 => 0xe963a535 case 0x07 => 0x9e6495a3
    case 0x08 => 0x0edb8832 case 0x09 => 0x79dcb8a4 case 0x0a => 0xe0d5e91e case 0x0b => 0x97d2d988
    case 0x0c => 0x09b64c2b case 0x0d => 0x7eb17cbd case 0x0e => 0xe7b82d07 case _ => 0x90bf1d91
  }

  lemma Row0IsBitwise(i: byte)
    requires 0x00 <= i <= 0x0f
    ensures Row0(i) == Bit8(i as bv32)
  {
    match i
    case 0x00 => case 0x01 => case 0x02 => case 0x03 => case 0x04 => case 0x05 => case 0x06 => case 0x07 =>
    case 0x08 => case 0x09 => case 0x0a => case 0x0b => case 0x0c => case 0x0d => case 0x0e => case _ =>
  }

  function Row1(i: byte): bv32 {
    match i
    case 0x10 => 0x1db71064 case 0x11 => 0x6ab020f2 case 0x12 => 0xf3b97148 case 0x13 => 0x84be41de
    case 0x14 => 0x1adad47d case 0x15 => 0x6ddde4eb case 0x16 => 0xf4d4b551 case 0x17 => 0x83d385c7
    case 0x18 => 0x136c9856 case 0x19 => 0x646ba8c0 case 0x1a => 0xfd62f97a case 0x1b => 0x8a65c9ec
    case 0x1c => 0x14015c4f case 0x1d => 0x63066cd9 case 0x1e => 0xfa0f3d63 case _ => 0x8d080df5
  }

  lemma Row1IsBitwise(i: byte)
    requires 0x10 <= i <= 0x1f
    ensures Row1(i) == Bit8(i as bv32)
  {
    match i
    case 0x10 => case 0x11 => case 0x12 => case 0x13 => case 0x14 => case 0x15 => case 0x16 => case 0x17 =>
    case 0x18 => case 0x19 => case 0x1a => case 0x1b => case 0x1c => case 0x1d => case 0x1e => case _ =>
  }

  function Row2(i: byte): bv32 {
    match i
    case 0x20 => 0x3b6e20c8 case 0x21 => 0x4c69105e case 0x22 => 0xd56041e4 case 0x23 => 0xa2677172
    case 0x24 => 0x3c03e4d1 case 0x25 => 0x4b04d447 case 0x26 => 0xd20d85fd case 0x27 => 0xa50ab56b
    case 0x28 => 0x35b5a8fa case 0x29 => 0x42b2986c case 0x2a => 0xdbbbc9d6 case 0x2b => 0xacbcf940
    case 0x2c => 0x32d86ce3 case 0x2d => 0x45df5c75 case 0x2e => 0xdcd60dcf case _ => 0xabd13d59
  }

  lemma Row2IsBitwise(i: byte)
    requires 0x20 <= i <= 0x2f
    ensures Row2(i) == Bit8(i as bv32)
  {
    match i
    case 0x20 => case 0x21 => case 0x22 => case 0x23 => case 0x24 => case 0x25 => case 0x26 => case 0x27 =>
    case 0x28 => case 0x29 => case 0x2a => case 0x2b => case 0x2c => case 0x2d => case 0x2e => case _ =>
  }

  function Row3(i: byte): bv32 {
    match i
    case 0x30 => 0x26d930ac case 0x31 => 0x51de003a case 0x32 => 0xc8d75180 case 0x33 => 0xbfd06116
    case 0x34 => 0x21b4f4b5 case 0x35 => 0x56b3c423 case 0x36 => 0xcfba9599 case 0x37 => 0xb8bda50f
    case 0x38 => 0x2802b89e case 0x39 => 0x5f058808 case 0x3a => 0xc60cd9b2 case 0x3b => 0xb10be924
    case 0x3c => 0x2f6f7c87 case 0x3d => 0x58684c11 case 0x3e => 0xc1611dab case _ => 0xb6662d3d
  }

  lemma Row3IsBitwise(i: byte)
    requires 0x30 <= i <= 0x3f
    ensures Row3(i) == Bit8(i as bv32)
  {
    match i
    case 0x30 => case 0x31 => case 0x32 => case 0x33 => case 0x34 => case 0x35 => case 0x36 => case 0x37 =>
    case 0x38 => case 0x39 => case 0x3a => case 0x3b => case 0x3c => case 0x3d => case 0x3e => case _ =>
  }

  function Row4(i: byte): bv32 {
    match i
    case 0x40 => 0x76dc4190 case 0x41 => 0x01db7106 case 0x42 => 0x98d220bc case 0x43 => 0xefd5102a
    case 0x44 => 0x71b18589 case 0x45 => 0x06b6b51f case 0x46 => 0x9fbfe4a5 case 0x47 => 0xe8b8d433
    case 0x48 => 0x7807c9a2 case 0x49 => 0x0f00f934 case 0x4a => 0x9609a88e case 0x4b => 0xe10e9818
    case 0x4c => 0x7f6a0dbb case 0x4d => 0x086d3d2d case 0x4e => 0x91646c97 case _ => 0xe6635c01
  }

  lemma Row4IsBitwise(i: byte)
    requires 0x40 <= i <= 0x4f
    ensures Row4(i) == Bit8(i as bv32)
  {
    match i
    case 0x40 => case 0x41 => case 0x42 => case 0x43 => case 0x44 => case 0x45 => case 0x46 => case 0x47 =>
    case 0x48 => case 0x49 => case 0x4a => case 0x4b => case 0x4c => case 0x4d => case 0x4e => case _ =>
  }

  function Row5(i: byte): bv32 {
    match i
    case 0x50 => 0x6b6b51f4 case 0x51 => 0x1c6c6162 case 0x52 => 0x856530d8 case 0x53 => 0xf262004e
    case 0x54 => 0x6c0695ed case 0x55 => 0x1b01a57b case 0x56 => 0x8208f4c1 case 0x57 => 0xf50fc457
    case 0x58 => 0x65b0d9c6 case 0x59 => 0x12b7e950 case 0x5a => 0x8bbeb8ea case 0x5b => 0xfcb9887c
    case 0x5c => 0x62dd1ddf case 0x5d => 0x15da2d49 case 0x5e => 0x8cd37cf3 case _ => 0xfbd44c65
  }

  lemma Row5IsBitwise(i: byte)
    requires 0x50 <= i <= 0x5f
    ensures Row5(i) == Bit8(i as bv32)
  {
    match i
    case 0x50 => case 0x51 => case 0x52 => case 0x53 => case 0x54 => case 0x55 => case 0x56 => case 0x57 =>
    case 0x58 => case 0x59 => case 0x5a => case 0x5b => case 0x5c => case 0x5d => case 0x5e => case _ =>
  }

  function Row6(i: byte): bv32 {
    match i
    case 0x60 => 0x4db26158 case 0x61 => 0x3ab551ce case 0x62 => 0xa3bc0074 case 0x63 => 0xd4bb30e2
    case 0x64 => 0x4adfa541 case 0x65 => 0x3dd895d7 case 0x66 => 0xa4d1c46d case 0x67 => 0xd3d6f4fb
    case 0x68 => 0x4369e96a case 0x69 => 0x346ed9fc case 0x6a => 0xad678846 case 0x6b => 0xda60b8d0
    case 0x6c => 0x44042d73 case 0x6d => 0x33031de5 case 0x6e => 0xaa0a4c5f case _ => 0xdd0d7cc9
  }

  lemma Row6IsBitwise(i: byte)
    requires 0x60 <= i <= 0x6f
    ensures Row6(i) == Bit8(i as bv32)
  {
    match i
    case 0x60 => case 0x61 => case 0x62 => case 0x63 => case 0x64 => case 0x65 => case 0x66 => case 0x67 =>
    case 0x68 => case 0x69 => case 0x6a => case 0x6b => case 0x6c => case 0x6d => case 0x6e => case _ =>
  }

  function Row7(i: byte): bv32 {
    match i
    case 0x70 => 0x5005713c case 0x71 => 0x270241aa case 0x72 => 0xbe0b1010 case 0x73 => 0xc90c2086
    case 0x74 => 0x5768b525 case 0x75 => 0x206f85b3 case 0x76 => 0xb966d409 case 0x77 => 0xce61e49f
    case 0x78 => 0x5edef90e case 0x79 => 0x29d9c998 case 0x7a => 0xb0d09822 case 0x7b => 0xc7d7a8b4
    case 0x7c => 0x59b33d17 case 0x7d => 0x2eb40d81 case 0x7e => 0xb7bd5c3b case _ => 0xc0ba6cad
  }

  lemma Row7IsBitwise(i: byte)
    requires 0x70 <= i <= 0x7f
    ensures Row7(i) == Bit8(i as bv32)
  {
    match i
    case 0x70 => case 0x71 => case 0x72 => case 0x73 => case 0x74 => case 0x75 => case 0x76 => case 0x77 =>
    case 0x78 => case 0x79 => case 0x7a => case 0x7b => case 0x7c => case 0x7d => case 0x7e => case _ =>
  }

  function Row8(i: byte): bv32 {
    match i
    case 0x80 => 0xedb88320 case 0x81 => 0x9abfb3b6 case 0x82 => 0x03b6e20c case 0x83 => 0x74b1d29a
    case 0x84 => 0xead54739 case 0x85 => 0x9dd277af case 0x86 => 0x04db2615 case 0x87 => 0x73dc1683
    case 0x88 => 0xe3630b12 case 0x89 => 0x94643b84 case 0x8a => 0x0d6d6a3e case 0x8b => 0x7a6a5aa8
    case 0x8c => 0xe40ecf0b case 0x8d => 0x9309ff9d case 0x8e => 0x0a00ae27 case _ => 0x7d079eb1
  }

  lemma Row8IsBitwise(i: byte)
    requires 0x80 <= i <= 0x8f
    ensures Row8(i) == Bit8(i as bv32)
  {
    match i
    case 0x80 => case 0x81 => case 0x82 => case 0x83 => case 0x84 => case 0x85 => case 0x86 => case 0x87 =>
    case 0x88 => case 0x89 => case 0x8a => case 0x8b => case 0x8c => case 0x8d => case 0x8e => case _ =>
  }

  function Row9(i: byte): bv32 {
    match i
    case 0x90 => 0xf00f9344 case 0x91 => 0x8708a3d2 case 0x92 => 0x1e01f268 case 0x93 => 0x6906c2fe
    case 0x94 => 0xf762575d case 0x95 => 0x806567cb case 0x96 => 0x196c3671 case 0x97 => 0x6e6b06e7
    case 0x98 => 0xfed41b76 case 0x99 => 0x89d32be0 case 0x9a => 0x10da7a5a case 0x9b => 0x67dd4acc
    case 0x9c => 0xf9b9df6f case 0x9d => 0x8ebeeff9 case 0x9e => 0x17b7be43 case _ => 0x60b08ed5
  }

  lemma Row9IsBitwise(i: byte)
    requires 0x90 <= i <= 0x9f
    ensures Row9(i) == Bit8(i as bv32)
  {
    match i
    case 0x90 => case 0x91 => case 0x92 => case 0x93 => case 0x94 => case 0x95 => case 0x96 => case 0x97 =>
    case 0x98 => case 0x99 => case 0x9a => case 0x9b => case 0x9c => case 0x9d => case 0x9e => case _ =>
  }

  function RowA(i: byte): bv32 {
    match i
    case 0xa0 => 0xd6d6a3e8 case 0xa1 => 0xa1d1937e case 0xa2 => 0x38d8c2c4 case 0xa3 => 0x4fdff252
    case 0xa4 => 0xd1bb67f1 case 0xa5 => 0xa6bc5767 case 0xa6 => 0x3fb506dd case 0xa7 => 0x48b2364b
    case 0xa8 => 0xd80d2bda case 0xa9 => 0xaf0a1b4c case 0xaa => 0x36034af6 case 0xab => 0x41047a60
    case 0xac => 0xdf60efc3 case 0xad => 0xa867df55 case 0xae => 0x316e8eef case _ => 0x4669be79
  }

  lemma RowAIsBitwise(i: byte)
    requires 0xa0 <= i <= 0xaf
    ensures RowA(i) == Bit8(i as bv32)
  {
    match i
    case 0xa0 => case 0xa1 => case 0xa2 => case 0xa3 => case 0xa4 => case 0xa5 => case 0xa6 => case 0xa7 =>
    case 0xa8 => case 0xa9 => case 0xaa => case 0xab => case 0xac => case 0xad => case 0xae => case _ =>
  }

  function RowB(i: byte): bv32 {
    match i
    case 0xb0 => 0xcb61b38c case 0xb1 => 0xbc66831a case 0xb2 => 0x256fd2a0 case 0xb3 => 0x5268e236
    case 0xb4 => 0xcc0c7795 case 0xb5 => 0xbb0b4703 case 0xb6 => 0x220216b9 case 0xb7 => 0x5505262f
    case 0xb8 => 0xc5ba3bbe case 0xb9 => 0xb2bd0b28 case 0xba => 0x2bb45a92 case 0xbb => 0x5cb36a04
    case 0xbc => 0xc2d7ffa7 case 0xbd => 0xb5d0cf31 case 0xbe => 0x2cd99e8b case _ => 0x5bdeae1d
  }

  lemma RowBIsBitwise(i: byte)
    requires 0xb0 <= i <= 0xbf
    ensures RowB(i) == Bit8(i as bv32)
  {
    match i
    case 0xb0 => case 0xb1 => case 0xb2 => case 0xb3 => case 0xb4 => case 0xb5 => case 0xb6 => case 0xb7 =>
    case 0xb8 => case 0xb9 => case 0xba => case 0xbb => case 0xbc => case 0xbd => case 0xbe => case _ =>
  }

  function RowC(i: byte): bv32 {
    match i
    case 0xc0 => 0x9b64c2b0 case 0xc1 => 0xec63f226 case 0xc2 => 0x756aa39c case 0xc3 => 0x026d930a
    case 0xc4 => 0x9c0906a9 case 0xc5 => 0xeb0e363f case 0xc6 => 0x72076785 case 0xc7 => 0x05005713
    case 0xc8 => 0x95bf4a82 case 0xc9 => 0xe2b87a14 case 0xca => 0x7bb12bae case 0xcb => 0x0cb61b38
    case 0xcc => 0x92d28e9b case 0xcd => 0xe5d5be0d case 0xce => 0x7cdcefb7 case _ => 0x0bdbdf21
  }

  lemma RowCIsBitwise(i: byte)
    requires 0xc0 <= i <= 0xcf
    ensures RowC(i) == Bit8(i as bv32)
  {
    match i
    case 0xc0 => case 0xc1 => case 0xc2 => case 0xc3 => case 0xc4 => case 0xc5 => case 0xc6 => case 0xc7 =>
    case 0xc8 => case 0xc9 => case 0xca => case 0xcb => case 0xcc => case 0xcd => case 0xce => case _ =>
  }

  function RowD(i: byte): bv32 {
    match i
    case 0xd0 => 0x86d3d2d4 case 0xd1 => 0xf1d4e242 case 0xd2 => 0x68ddb3f8 case 0xd3 => 0x1fda836e
    case 0xd4 => 0x81be16cd case 0xd5 => 0xf6b9265b case 0xd6 => 0x6fb077e1 case 0xd7 => 0x18b74777
    case 0xd8 => 0x88085ae6 case 0xd9 => 0xff0f6a70 case 0xda => 0x66063bca case 0xdb => 0x11010b5c
    case 0xdc => 0x8f659eff case 0xdd => 0xf862ae69 case 0xde => 0x616bffd3 case _ => 0x166ccf45
  }

  lemma RowDIsBitwise(i: byte)
    requires 0xd0 <= i <= 0xdf
    ensures RowD(i) == Bit8(i as bv32)
  {
    match i
    case 0xd0 => case 0xd1 => case 0xd2 => case 0xd3 => case 0xd4 => case 0xd5 => case 0xd6 => case 0xd7 =>
    case 0xd8 => case 0xd9 => case 0xda => case 0xdb => case 0xdc => case 0xdd => case 0xde => case _ =>
  }

  function RowE(i: byte): bv32 {
    match i
    case 0xe0 => 0xa00ae278 case 0xe1 => 0xd70dd2ee case 0xe2 => 0x4e048354 case 0xe3 => 0x3903b3c2
    case 0xe4 => 0xa7672661 case 0xe5 => 0xd06016f7 case 0xe6 => 0x4969474d case 0xe7 => 0x3e6e77db
    case 0xe8 => 0xaed16a4a case 0xe9 => 0xd9d65adc case 0xea => 0x40df0b66 case 0xeb => 0x37d83bf0
    case 0xec => 0xa9bcae53 case 0xed => 0xdebb9ec5 case 0xee => 0x47b2cf7f case _ => 0x30b5ffe9
  }

  lemma RowEIsBitwise(i: byte)
    requires 0xe0 <= i <= 0xef
    ensures RowE(i) == Bit8(i as bv32)
  {
    match i
    case 0xe0 => case 0xe1 => case 0xe2 => case 0xe3 => case 0xe4 => case 0xe5 => case 0xe6 => case 0xe7 =>
    case 0xe8 => case 0xe9 => case 0xea => case 0xeb => case 0xec => case 0xed => case 0xee => case _ =>
  }

  function RowF(i: byte): bv32 {
    match i
    case 0xf0 => 0xbdbdf21c case 0xf1 => 0xcabac28a case 0xf2 => 0x53b39330 case 0xf3 => 0x24b4a3a6
    case 0xf4 => 0xbad03605 case 0xf5 => 0xcdd70693 case 0xf6 => 0x54de5729 case 0xf7 => 0x23d967bf
    case 0xf8 => 0xb3667a2e case 0xf9 => 0xc4614ab8 case 0xfa => 0x5d681b02 case 0xfb => 0x2a6f2b94
    case 0xfc => 0xb40bbe37 case 0xfd => 0xc30c8ea1 case 0xfe => 0x5a05df1b case _ => 0x2d02ef8d
  }

  lemma RowFIsBitwise(i: byte)
    requires 0xf0 <= i <= 0xff
    ensures RowF(i) == Bit8(i as bv32)
  {
    match i
    case 0xf0 => case 0xf1 => case 0xf2 => case 0xf3 => case 0xf4 => case 0xf5 => case 0xf6 => case 0xf7 =>
    case 0xf8 => case 0xf9 => case 0xfa => case 0xfb => case 0xfc => case 0xfd => case 0xfe => case _ =>
  }

  /** Every table entry is what the bit-serial definition gives for its index. */
  lemma TableIsBitwise(i: byte)
    ensures CrcTable(i) == Bit8(i as bv32)
  {
    hide Bit8, Row0, Row1, Row2, Row3, Row4, Row5, Row6, Row7, Row8, Row9, RowA, RowB, RowC, RowD, RowE, RowF;
    if i < 0x10 { Row0IsBitwise(i); } else if i < 0x20 { Row1IsBitwise(i); }
    else if i < 0x30 { Row2IsBitwise(i); } else if i < 0x40 { Row3IsBitwise(i); }
    else if i < 0x50 { Row4IsBitwise(i); } else if i < 0x60 { Row5IsBitwise(i); }
    else if i < 0x70 { Row6IsBitwise(i); } else if i < 0x80 { Row7IsBitwise(i); }
    else if i < 0x90 { Row8IsBitwise(i); } else if i < 0xa0 { Row9IsBitwise(i); }
    else if i < 0xb0 { RowAIsBitwise(i); } else if i < 0xc0 { RowBIsBitwise(i); }
    else if i < 0xd0 { RowCIsBitwise(i); } else if i < 0xe0 { RowDIsBitwise(i); }
    else if i < 0xf0 { RowEIsBitwise(i); } else { RowFIsBitwise(i); }
  }

  // ---------- algebra of one bit step ----------

  lemma BitXor(a: bv32, b: bv32)
    ensures Bit(Xor(a, b)) == Xor(Bit(a), Bit(b))
  {
    hide Xor, Half, Low;
    var x, y := Half(a), Half(b);
    HalfOfXor(a, b);
    XorSwaps(x, y, POLYNOMIAL);
    XorAssociates(x, y, POLYNOMIAL);
  }

  /** A clear low bit is shifted out without feedback. */
  lemma BitOfDouble(a: bv32)
    requires !Top(a)
    ensures Bit(Double(a)) == a
  {
    HalfOfDouble(a);
    hide Xor, Half, Double, Low;
  }

  lemma BitNonZero(d: bv32)
    requires Bit(d) == 0
    ensures d == 0
  {}

  /** The step loses nothing: the register's top bit tells whether the polynomial was fed back. */
  lemma BitInjective(a: bv32, b: bv32)
    requires Bit(a) == Bit(b)
    ensures a == b
  {
    hide Bit, Xor;
    BitXor(a, b);
    XorLaws(Bit(a), Bit(b));
    BitNonZero(Xor(a, b));
    XorLaws(a, b);
  }

  lemma Bit8Xor(a: bv32, b: bv32)
    ensures Bit8(Xor(a, b)) == Xor(Bit8(a), Bit8(b))
  {
    hide Bit, Xor;
    var a1, b1 := Bit(a), Bit(b);
    var a2, b2 := Bit(a1), Bit(b1);
    var a3, b3 := Bit(a2), Bit(b2);
    var a4, b4 := Bit(a3), Bit(b3);
    var a5, b5 := Bit(a4), Bit(b4);
    var a6, b6 := Bit(a5), Bit(b5);
    var a7, b7 := Bit(a6), Bit(b6);
    BitXor(a, b); BitXor(a1, b1); BitXor(a2, b2); BitXor(a3, b3);
    BitXor(a4, b4); BitXor(a5, b5); BitXor(a6, b6); BitXor(a7, b7);
  }

  // ---------- the table-driven step ----------

  /** A C char converted to int. */
  function SignExtend(b: byte): bv32 {
    if b & 0x80 != 0 then (b as bv32) | 0xFFFFFF00 else b as bv32
  }

  function TableIndex(crc: bv32, b: byte): byte {
    (Xor(crc, SignExtend(b)) & 0xff) as byte
  }

  function HighBytes(crc: bv32): bv32 { crc >> 8 }

  /** The DO1 macro. */
  function DoOne(crc: bv32, b: byte): bv32 {
    Xor(CrcTable(TableIndex(crc, b)), HighBytes(crc))
  }

  lemma LowByteMix(crc: bv32, b: byte)
    ensures Xor(TableIndex(crc, b) as bv32, HighBytes(crc) << 8) == Xor(crc, b as bv32)
  {}

  lemma DoublesOf(h: bv32)
    ensures Double(Double(Double(Double(Double(Double(Double(Double(h)))))))) == h << 8
  {}

  lemma DoublesFit(crc: bv32)
    ensures var h := HighBytes(crc);
      !Top(h) && !Top(Double(h)) && !Top(Double(Double(h))) && !Top(Double(Double(Double(h))))
  {}

  lemma MoreDoublesFit(crc: bv32)
    ensures var h := Double(Double(Double(Double(HighBytes(crc)))));
      !Top(h) && !Top(Double(h)) && !Top(Double(Double(h))) && !Top(Double(Double(Double(h))))
  {}

  lemma HighBytesShift(crc: bv32)
    ensures Bit8(HighBytes(crc) << 8) == HighBytes(crc)
  {
    var h := HighBytes(crc);
    DoublesOf(h);
    DoublesFit(crc);
    MoreDoublesFit(crc);
    hide Bit, Double, Top, HighBytes;
    var h1 := Double(h);
    var h2 := Double(h1);
    var h3 := Double(h2);
    var h4 := Double(h3);
    var h5 := Double(h4);
    var h6 := Double(h5);
    var h7 := Double(h6);
    BitOfDouble(h7); BitOfDouble(h6); BitOfDouble(h5); BitOfDouble(h4);
    BitOfDouble(h3); BitOfDouble(h2); BitOfDouble(h1); BitOfDouble(h);
  }

  lemma DoOneIsStep(crc: bv32, b: byte)
    ensures DoOne(crc, b) == StepByte(crc, b)
  {
    hide TableIndex, CrcTable, Bit8, Xor, HighBytes;
    var i := TableIndex(crc, b);
    LowByteMix(crc, b);
    TableIsBitwise(i);
    Bit8Xor(i as bv32, HighBytes(crc) << 8);
    HighBytesShift(crc);
  }

  lemma {:induction false} StepBytesAppend(c: bv32, a: seq<byte>, b: seq<byte>)
    ensures StepBytes(c, a + b) == StepBytes(StepBytes(c, a), b)
    decreases |a|
  {
    hide StepByte;
    if a == [] {
      assert a + b == b;
    } else {
      assert (a + b)[0] == a[0] && (a + b)[1..] == a[1..] + b;
      StepBytesAppend(StepByte(c, a[0]), a[1..], b);
    }
  }

  lemma StepBytesSnoc(c: bv32, a: seq<byte>, b: byte)
    ensures StepBytes(c, a + [b]) == StepByte(StepBytes(c, a), b)
  {
    hide StepByte;
    StepBytesAppend(c, a, [b]);
    assert [b][1..] == [];
  }

  /** Chaining: the CRC of a followed by b is the CRC of b started from the CRC of a. */
  lemma CrcChains(start: bv32, a: seq<byte>, b: seq<byte>)
    ensures Crc(start, a + b) == Crc(Crc(start, a), b)
  {
    hide StepBytes, Xor;
    StepBytesAppend(Xor(start, ALL_ONES), a, b);
    XorLaws(StepBytes(Xor(start, ALL_ONES), a), ALL_ONES);
  }

  /** One DO1: consumes the byte at p. */
  method DoOneAt(data: array<byte>, p: nat, crc: bv32, ghost start: bv32) returns (crc': bv32)
    requires p < data.Length && crc == StepBytes(start, data[..p])
    ensures crc' == StepBytes(start, data[..p + 1])
  {
    hide StepByte, DoOne, StepBytes;
    crc' := DoOne(crc, data[p]);
    DoOneIsStep(crc, data[p]);
    StepBytesSnoc(start, data[..p], data[p]);
    assert data[..p] + [data[p]] == data[..p + 1];
  }

  /** DO8. */
  method DoEightAt(data: array<byte>, p: nat, crc: bv32, ghost start: bv32) returns (crc': bv32)
    requires p + 8 <= data.Length && crc == StepBytes(start, data[..p])
    ensures crc' == StepBytes(start, data[..p + 8])
  {
    hide StepBytes;
    crc' := DoOneAt(data, p, crc, start);
    crc' := DoOneAt(data, p + 1, crc', start);
    crc' := DoOneAt(data, p + 2, crc', start);
    crc' := DoOneAt(data, p + 3, crc', start);
    crc' := DoOneAt(data, p + 4, crc', start);
    crc' := DoOneAt(data, p + 5, crc', start);
    crc' := DoOneAt(data, p + 6, crc', start);
    crc' := DoOneAt(data, p + 7, crc', start);
  }

  /** ssl::crc32: eight table steps a turn, then the rest one by one. It is the bit-serial CRC of the len bytes
      (0 for a null pointer). */
  method TableCrc32(start: bv32, data: array?<byte>, len: nat) returns (r: bv32)
    requires data != null ==> len <= data.Length
    ensures r == if data == null then 0 else Crc(start, data[..len])
  {
    hide StepBytes, StepByte, Xor;
    if data == null { return 0; }
    var crc := Xor(start, ALL_ONES);
    ghost var c0 := crc;
    var p, left := 0, len;
    StepNothing(c0, data[..0]);
    while left >= 8
      invariant 0 <= p && p + left == len
      invariant crc == StepBytes(c0, data[..p])
    {
      crc := DoEightAt(data, p, crc, c0);
      p, left := p + 8, left - 8;
    }
    while left > 0
      invariant 0 <= p && p + left == len
      invariant crc == StepBytes(c0, data[..p])
    {
      crc := DoOneAt(data, p, crc, c0);
      p, left := p + 1, left - 1;
    }
    r := Xor(crc, ALL_ONES);
  }

  lemma StepNothing(c: bv32, s: seq<byte>)
    requires s == []
    ensures StepBytes(c, s) == c
  {}

  /** ssl::sslChecksum. */
  method Checksum(data: array?<byte>, len: nat, key: bv32) returns (ok: bool)
    requires data != null ==> len <= data.Length
    ensures ok <==> key == if data == null then 0 else Crc(0, data[..len])
  {
    var r := TableCrc32(0, data, len);
    ok := key == r;
  }

  // ---------- burst detection ----------

  function StepBits(c: bv32, bits: seq<bool>): bv32
    decreases |bits|
  {
    if bits == [] then c else StepBits(Bit(Xor(c, BitValue(bits[0]))), bits[1..])
  }

  function BitValue(b: bool): bv32 {
    if b then 1 else 0
  }

  function Bits(n: nat, c: bv32): bv32 {
    if n == 0 then c else Bits(n - 1, Bit(c))
  }

  /** The bits as one number, the first one lowest. */
  function Window(bits: seq<bool>): bv32 {
    if bits == [] then 0 else Xor(BitValue(bits[0]), Double(Window(bits[1..])))
  }

  /** The mask of all positions from n up. */
  function High(n: nat): bv32 {
    if n == 0 then ALL_ONES else Double(High(n - 1))
  }

  predicate Disjoint(a: bv32, b: bv32) { a & b == 0 }

  predicate Includes(a: bv32, b: bv32) { a & b == b }

  lemma IncludesDoubles(h: bv32)
    requires Includes(h, Double(h))
    ensures Includes(Double(h), Double(Double(h)))
    ensures Top(Double(h)) ==> Top(h)
  {}

  lemma {:induction false} HighUpwardClosed(n: nat)
    ensures Includes(High(n), Double(High(n)))
  {
    if n > 0 {
      HighUpwardClosed(n - 1);
      hide Includes, Double;
      IncludesDoubles(High(n - 1));
    }
  }

  lemma High31()
    ensures Top(High(31))
  {
    assert High(6) == 0xFFFFFFC0 by { assert High(3) == 0xFFFFFFF8; }
    assert High(12) == 0xFFFFF000 by { assert High(9) == 0xFFFFFE00; }
    assert High(18) == 0xFFFC0000 by { assert High(15) == 0xFFFF8000; }
    assert High(24) == 0xFF000000 by { assert High(21) == 0xFFE00000; }
    assert High(30) == 0xC0000000 by { assert High(27) == 0xF8000000; }
  }

  lemma {:induction false} HighHasTop(n: nat)
    requires n <= 31
    ensures Top(High(n))
    decreases 31 - n
  {
    hide Top, Includes, Double;
    if n == 31 {
      High31();
    } else {
      HighHasTop(n + 1);
      HighUpwardClosed(n);
      IncludesDoubles(High(n));
    }
  }

  lemma DisjointDoubles(w: bv32, h: bv32, b: bool)
    requires Disjoint(w, h)
    ensures Disjoint(Xor(BitValue(b), Double(w)), Double(h))
    ensures Top(h) ==> !Top(w)
  {}

  lemma {:induction false} WindowFits(bits: seq<bool>)
    ensures Disjoint(Window(bits), High(|bits|))
  {
    if bits != [] {
      WindowFits(bits[1..]);
      hide Disjoint, Xor, Double, BitValue;
      DisjointDoubles(Window(bits[1..]), High(|bits| - 1), bits[0]);
    }
  }

  lemma TopClear(bits: seq<bool>)
    requires |bits| <= 31
    ensures !Top(Window(bits))
  {
    hide *;
    WindowFits(bits);
    HighHasTop(|bits|);
    DisjointDoubles(Window(bits), High(|bits|), false);
  }

  /** Up to 32 bits fed one at a time amount to mixing them in at once and shifting. */
  lemma {:induction false} StepBitsIsShift(c: bv32, bits: seq<bool>)
    requires |bits| <= 32
    ensures StepBits(c, bits) == Bits(|bits|, Xor(c, Window(bits)))
    decreases |bits|
  {
    hide Bit, Xor, Double, Top, BitValue;
    if bits == [] {
      XorLaws(c, 0);
    } else {
      var b, w := BitValue(bits[0]), Window(bits[1..]);
      TopClear(bits[1..]);
      BitXor(Xor(c, b), Double(w));
      BitOfDouble(w);
      XorAssociates(c, b, Double(w));
      StepBitsIsShift(Bit(Xor(c, b)), bits[1..]);
    }
  }

  lemma {:induction false} BitsInjective(n: nat, a: bv32, b: bv32)
    requires Bits(n, a) == Bits(n, b)
    ensures a == b
    decreases n
  {
    hide Bit;
    if n > 0 {
      BitsInjective(n - 1, Bit(a), Bit(b));
      BitInjective(a, b);
    }
  }

  lemma {:induction false} WindowInjective(x: seq<bool>, y: seq<bool>)
    requires |x| == |y| <= 32 && Window(x) == Window(y)
    ensures x == y
    decreases |x|
  {
    hide Xor, Double, Top, BitValue;
    if x != [] {
      TopClear(x[1..]);
      TopClear(y[1..]);
      WindowInjectiveStep(x[0], y[0], Window(x[1..]), Window(y[1..]));
      WindowInjective(x[1..], y[1..]);
      assert x == [x[0]] + x[1..] && y == [y[0]] + y[1..];
    }
  }

  lemma WindowInjectiveStep(a: bool, b: bool, v: bv32, w: bv32)
    requires !Top(v) && !Top(w)
    requires Xor(BitValue(a), Double(v)) == Xor(BitValue(b), Double(w))
    ensures a == b && v == w
  {}

  lemma {:induction false} StepBitsAppend(c: bv32, a: seq<bool>, b: seq<bool>)
    ensures StepBits(c, a + b) == StepBits(StepBits(c, a), b)
    decreases |a|
  {
    hide Bit, BitValue, Xor;
    if a == [] {
      assert a + b == b;
    } else {
      assert (a + b)[0] == a[0] && (a + b)[1..] == a[1..] + b;
      StepBitsAppend(Bit(Xor(c, BitValue(a[0]))), a[1..], b);
    }
  }

  lemma {:induction false} StepBitsInjective(a: bv32, b: bv32, bits: seq<bool>)
    requires StepBits(a, bits) == StepBits(b, bits)
    ensures a == b
    decreases |bits|
  {
    hide Bit, BitValue, Xor;
    if bits != [] {
      var v := BitValue(bits[0]);
      StepBitsInjective(Bit(Xor(a, v)), Bit(Xor(b, v)), bits[1..]);
      BitInjective(Xor(a, v), Xor(b, v));
      XorLaws(a, v);
      XorLaws(b, v);
    }
  }

  /** Two bit strings that differ inside a window of at most 32 bits leave different registers. */
  lemma BurstChangesRegister(c: bv32, pre: seq<bool>, x: seq<bool>, y: seq<bool>, post: seq<bool>)
    requires |x| == |y| <= 32 && x != y
    ensures StepBits(c, pre + x + post) != StepBits(c, pre + y + post)
  {
    hide *;
    StepBitsAppend(c, pre + x, post);
    StepBitsAppend(c, pre + y, post);
    StepBitsAppend(c, pre, x);
    StepBitsAppend(c, pre, y);
    var s := StepBits(c, pre);
    if StepBits(c, pre + x + post) == StepBits(c, pre + y + post) {
      StepBitsInjective(StepBits(s, x), StepBits(s, y), post);
      StepBitsIsShift(s, x);
      StepBitsIsShift(s, y);
      BitsInjective(|x|, Xor(s, Window(x)), Xor(s, Window(y)));
      XorLaws(Window(x), s);
      XorLaws(Window(y), s);
      XorLaws(s, Window(x));
      XorLaws(s, Window(y));
      WindowInjective(x, y);
    }
  }

  // ---------- bytes as bits ----------

  function BitsOfByte(b: byte): (r: seq<bool>)
    ensures |r| == 8
  {
    [b & 1 == 1, b & 2 == 2, b & 4 == 4, b & 8 == 8, b & 16 == 16, b & 32 == 32, b & 64 == 64, b & 128 == 128]
  }

  function BitsOf(s: seq<byte>): (r: seq<bool>)
    ensures |r| == 8 * |s|
  {
    if s == [] then [] else BitsOfByte(s[0]) + BitsOf(s[1..])
  }

  lemma WindowFrom(r: seq<bool>, i: nat)
    requires i <= |r|
    ensures Window(r[i..]) == if i == |r| then 0 else Xor(BitValue(r[i]), Double(Window(r[i + 1..])))
  {
    hide Xor, Double, BitValue;
    assert i < |r| ==> r[i..][1..] == r[i + 1..];
  }

  lemma WindowOfFour(r: seq<bool>, i: nat, w: bv32)
    requires i + 4 <= |r| && Window(r[i + 4..]) == w
    ensures Window(r[i..]) ==
      Xor(BitValue(r[i]), Double(Xor(BitValue(r[i + 1]), Double(Xor(BitValue(r[i + 2]), Double(Xor(BitValue(r[i + 3]), Double(w))))))))
  {
    hide Xor, Double, BitValue, Window;
    WindowFrom(r, i);
    WindowFrom(r, i + 1);
    WindowFrom(r, i + 2);
    WindowFrom(r, i + 3);
  }

  lemma WindowOfEight(r: seq<bool>)
    requires |r| == 8
    ensures Window(r) == Xor(BitValue(r[0]), Double(Xor(BitValue(r[1]), Double(Xor(BitValue(r[2]), Double(Xor(BitValue(r[3]),
      Double(Xor(BitValue(r[4]), Double(Xor(BitValue(r[5]), Double(Xor(BitValue(r[6]), Double(Xor(BitValue(r[7]), Double(0))))))))))))))))
  {
    hide Xor, Double, BitValue, Window;
    WindowFrom(r, 8);
    WindowOfFour(r, 4, 0);
    WindowOfFour(r, 0, Window(r[4..]));
    assert r[0..] == r;
  }

  lemma ByteBitsSum(b: byte)
    ensures Xor(BitValue(b & 1 == 1), Double(Xor(BitValue(b & 2 == 2), Double(Xor(BitValue(b & 4 == 4), Double(Xor(BitValue(b & 8 == 8),
      Double(Xor(BitValue(b & 16 == 16), Double(Xor(BitValue(b & 32 == 32), Double(Xor(BitValue(b & 64 == 64),
      Double(Xor(BitValue(b & 128 == 128), Double(0)))))))))))))))) == b as bv32
  {}

  lemma ByteWindow(b: byte)
    ensures Window(BitsOfByte(b)) == b as bv32
  {
    hide Xor, Double, BitValue, Window;
    WindowOfEight(BitsOfByte(b));
    ByteBitsSum(b);
  }

  lemma BitsTwo(n: nat, x: bv32)
    ensures Bits(n + 2, x) == Bits(n, Bit(Bit(x)))
    ensures Bits(0, x) == x
  {}

  lemma StepByteIsBits(c: bv32, b: byte)
    ensures StepByte(c, b) == StepBits(c, BitsOfByte(b))
  {
    hide Bit, Bits, BitsOfByte, StepBits, Window, Xor;
    BitsTwo(0, Bit8(Xor(c, b as bv32)));
    StepBitsIsShift(c, BitsOfByte(b));
    ByteWindow(b);
    var x := Xor(c, b as bv32);
    BitsTwo(6, x);
    BitsTwo(4, Bit(Bit(x)));
    BitsTwo(2, Bit(Bit(Bit(Bit(x)))));
    BitsTwo(0, Bit(Bit(Bit(Bit(Bit(Bit(x)))))));
  }

  lemma NoBits(c: bv32)
    ensures StepBits(c, []) == c
  {}

  lemma {:induction false} StepBytesIsBits(c: bv32, s: seq<byte>)
    ensures StepBytes(c, s) == StepBits(c, BitsOf(s))
    decreases |s|
  {
    hide StepByte, BitsOfByte, StepBits;
    NoBits(c);
    if s != [] {
      StepByteIsBits(c, s[0]);
      StepBitsAppend(c, BitsOfByte(s[0]), BitsOf(s[1..]));
      StepBytesIsBits(StepByte(c, s[0]), s[1..]);
    }
  }

  lemma CrcIsBits(start: bv32, s: seq<byte>)
    ensures Crc(start, s) == Xor(StepBits(Xor(start, ALL_ONES), BitsOf(s)), ALL_ONES)
  {
    hide StepBytes, StepBits, BitsOf, Xor;
    StepBytesIsBits(Xor(start, ALL_ONES), s);
  }

  lemma ByteBitsInjective(a: byte, b: byte)
    requires BitsOfByte(a) == BitsOfByte(b)
    ensures a == b
  {
    ByteWindow(a);
    ByteWindow(b);
    hide BitsOfByte, Window;
    assert a as bv32 == b as bv32;
  }

  lemma {:induction false} BitsOfInjective(a: seq<byte>, b: seq<byte>)
    requires |a| == |b| && BitsOf(a) == BitsOf(b)
    ensures a == b
  {
    hide BitsOfByte;
    if a != [] {
      assert BitsOf(a)[..8] == BitsOfByte(a[0]) && BitsOf(b)[..8] == BitsOfByte(b[0]);
      assert BitsOf(a)[8..] == BitsOf(a[1..]) && BitsOf(b)[8..] == BitsOf(b[1..]);
      ByteBitsInjective(a[0], b[0]);
      BitsOfInjective(a[1..], b[1..]);
      assert a == [a[0]] + a[1..] && b == [b[0]] + b[1..];
    }
  }

  lemma {:induction false} BitsOfAppend(a: seq<byte>, b: seq<byte>)
    ensures BitsOf(a + b) == BitsOf(a) + BitsOf(b)
  {
    hide BitsOfByte;
    if a == [] {
      assert a + b == b;
    } else {
      assert (a + b)[0] == a[0] && (a + b)[1..] == a[1..] + b;
      BitsOfAppend(a[1..], b);
    }
  }

  lemma AgreeOutside<T>(b: seq<T>, b': seq<T>, p: nat, q: nat)
    requires |b| == |b'| && p <= q <= |b|
    requires forall i :: 0 <= i < |b| && !(p <= i < q) ==> b[i] == b'[i]
    ensures b == b[..p] + b[p..q] + b[q..]
    ensures b' == b[..p] + b'[p..q] + b[q..]
  {}

  /** Burst detection, at any bit offset: two different messages of equal length whose bits agree outside
      a window of 32 consecutive bits never have the same CRC. */
  lemma BurstDetected(start: bv32, m: seq<byte>, m': seq<byte>, p: nat)
    requires |m| == |m'| && m != m' && p <= 8 * |m|
    requires forall i :: 0 <= i < 8 * |m| && !(p <= i < p + 32) ==> BitsOf(m)[i] == BitsOf(m')[i]
    ensures Crc(start, m) != Crc(start, m')
  {
    hide *;
    var b, b' := BitsOf(m), BitsOf(m');
    var q := if p + 32 <= |b| then p + 32 else |b|;
    AgreeOutside(b, b', p, q);
    var pre, x, x', post := b[..p], b[p..q], b'[p..q], b[q..];
    assert x != x' by { if x == x' { BitsOfInjective(m, m'); } }
    BurstChangesCrc(start, m, m', pre, x, x', post);
  }

  lemma BurstChangesCrc(start: bv32, m: seq<byte>, m': seq<byte>, pre: seq<bool>, x: seq<bool>, y: seq<bool>, post: seq<bool>)
    requires |x| == |y| <= 32 && x != y
    requires BitsOf(m) == pre + x + post && BitsOf(m') == pre + y + post
    ensures Crc(start, m) != Crc(start, m')
  {
    hide *;
    var c := Xor(start, ALL_ONES);
    BurstChangesRegister(c, pre, x, y, post);
    CrcIsBits(start, m);
    CrcIsBits(start, m');
    XorLaws(StepBits(c, pre + x + post), ALL_ONES);
    XorLaws(StepBits(c, pre + y + post), ALL_ONES);
  }

  /** In particular any change confined to four consecutive bytes is detected. */
  lemma FourByteChangeDetected(start: bv32, pre: seq<byte>, x: seq<byte>, y: seq<byte>, post: seq<byte>)
    requires |x| == |y| <= 4 && x != y
    ensures Crc(start, pre + x + post) != Crc(start, pre + y + post)
  {
    hide Crc, BitsOf;
    var m, m' := pre + x + post, pre + y + post;
    BitsOfAppend(pre + x, post);
    BitsOfAppend(pre, x);
    BitsOfAppend(pre + y, post);
    BitsOfAppend(pre, y);
    assert m != m' by { assert m[|pre|..|pre| + |x|] == x && m'[|pre|..|pre| + |x|] == y; }
    BurstDetected(start, m, m', 8 * |pre|);
  }
}
