/** The table cipher of crypt.cpp: every byte is replaced through one of ten 256-entry rows, chosen by a nonce byte
    and the position, and xored with the key; a reversed table undoes it. */
module Cipher {
  import opened Bytes

  const ROWS: nat := 10
  const ENTRIES: nat := 256

  const BLANK: seq<byte> := seq(ENTRIES, i => 0)

  type Row = s: seq<byte> | |s| == ENTRIES witness BLANK
  type Dictionary = d: seq<Row> | |d| == ROWS witness seq<Row>(ROWS, i => BLANK)

  /** The position of the first entry equal to value, or 256. */
  function FirstIndex(row: Row, value: byte, k: nat): (r: nat)
    requires k <= ENTRIES
    ensures k <= r <= ENTRIES
    ensures r < ENTRIES ==> row[r] == value
    ensures forall i :: k <= i < r ==> row[i] != value
    decreases ENTRIES - k
  {
    if k == ENTRIES || row[k] == value then k else FirstIndex(row, value, k + 1)
  }

  /** The reversed row: for each byte, where it stands (position 256 is stored as 0). */
  function Reverse(row: Row): (r: Row) {
    seq(ENTRIES, j requires 0 <= j < ENTRIES => ByteOf(FirstIndex(row, ByteOf(j), 0) % 0x100))
  }

  predicate DuplicateFree(row: Row) {
    forall i, j :: 0 <= i < j < ENTRIES ==> row[i] != row[j]
  }

  function At(row: Row, b: byte): byte {
    row[ByteValue(b)]
  }

  /** The innermost scan of sslInitDictionary. */
  method Scan(row: Row, value: byte) returns (k: nat)
    ensures k == FirstIndex(row, value, 0)
  {
    k := 0;
    while k < ENTRIES
      invariant 0 <= k <= ENTRIES
      invariant FirstIndex(row, value, 0) == FirstIndex(row, value, k)
    {
      if row[k] == value {
        break;
      }
      k := k + 1;
    }
  }

  method ReverseRow(row: Row) returns (reversed: Row)
    ensures reversed == Reverse(row)
  {
    hide ByteOf, FirstIndex;
    var line: seq<byte> := [];
    var j := 0;
    while j < ENTRIES
      invariant 0 <= j <= ENTRIES && |line| == j
      invariant forall n :: 0 <= n < j ==> line[n] == Reverse(row)[n]
    {
      var k := Scan(row, ByteOf(j));
      line := line + [ByteOf(k % 0x100)];
      j := j + 1;
    }
    reversed := line;
  }

  /** sslInitDictionary: for every row and every byte, scan for the byte and note where the scan stopped. */
  method InitDictionary(dictionary: Dictionary) returns (reversed: Dictionary)
    ensures reversed == Reversed(dictionary)
  {
    hide Reverse;
    var rows: seq<Row> := [];
    var i := 0;
    while i < ROWS
      invariant 0 <= i <= ROWS && |rows| == i
      invariant forall n :: 0 <= n < i ==> rows[n] == Reverse(dictionary[n])
    {
      var row := ReverseRow(dictionary[i]);
      rows := rows + [row];
      i := i + 1;
    }
    reversed := rows;
  }

  // ---------- the reversed row is the inverse ----------

  lemma ReverseAt(row: Row, b: byte)
    ensures ByteValue(At(Reverse(row), b)) == FirstIndex(row, b, 0) % 0x100
  {
    hide ByteOf, ByteValue;
    ByteOfValue(b);
    ByteRoundTrip(FirstIndex(row, b, 0) % 0x100);
  }

  /** Reversing undoes exactly the duplicate-free rows. */
  lemma ReverseUndoesIff(row: Row)
    ensures DuplicateFree(row) <==> forall b: byte :: At(Reverse(row), At(row, b)) == b
  {
    if DuplicateFree(row) {
      forall b: byte ensures At(Reverse(row), At(row, b)) == b {
        ReverseUndoes(row, b);
      }
    }
    if forall b: byte :: At(Reverse(row), At(row, b)) == b {
      forall i, j | 0 <= i < j < ENTRIES
        ensures row[i] != row[j]
      {
        ByteRoundTrip(i);
        ByteRoundTrip(j);
        hide ByteOf, ByteValue;
        assert At(Reverse(row), At(row, ByteOf(i))) == ByteOf(i);
        assert At(Reverse(row), At(row, ByteOf(j))) == ByteOf(j);
      }
    }
  }

  lemma ReverseUndoes(row: Row, b: byte)
    requires DuplicateFree(row)
    ensures At(Reverse(row), At(row, b)) == b
  {
    hide ByteOf, ByteValue, Reverse;
    var k := FirstIndex(row, At(row, b), 0);
    assert k == ByteValue(b);
    ReverseAt(row, At(row, b));
    ByteValueInjective(At(Reverse(row), At(row, b)), b);
  }

  lemma {:induction false} DistinctCount(s: seq<byte>)
    requires forall i, j :: 0 <= i < j < |s| ==> s[i] != s[j]
    ensures |set x | x in s| == |s|
  {
    if s != [] {
      var t := s[..|s| - 1];
      DistinctCount(t);
      assert (set x | x in s) == (set x | x in t) + {s[|s| - 1]};
    }
  }

  function AllBytes(n: nat): (s: set<byte>)
    requires n <= ENTRIES
  {
    if n == 0 then {} else AllBytes(n - 1) + {ByteOf(n - 1)}
  }

  lemma {:induction false} AllBytesCount(n: nat)
    requires n <= ENTRIES
    ensures |AllBytes(n)| <= n
    ensures forall b: byte :: ByteValue(b) < n ==> b in AllBytes(n)
  {
    hide ByteOf, ByteValue;
    if n > 0 {
      AllBytesCount(n - 1);
      forall b: byte | ByteValue(b) < n ensures b in AllBytes(n) {
        if ByteValue(b) == n - 1 { ByteOfValue(b); }
      }
    }
  }

  function Held(row: Row): set<byte> {
    set x | x in row
  }

  lemma HoldsEveryByte(row: Row, b: byte)
    requires DuplicateFree(row)
    ensures b in Held(row)
  {
    DistinctCount(row);
    AllBytesCount(ENTRIES);
    SubsetOfAll(Held(row));
    hide AllBytes;
    if b !in Held(row) {
      Smaller(Held(row), AllBytes(ENTRIES), b);
    }
  }

  /** A duplicate-free row holds every byte, so the reversed row is its inverse from both sides. */
  lemma ReverseIsInverse(row: Row, b: byte)
    requires DuplicateFree(row)
    ensures At(Reverse(row), At(row, b)) == b && At(row, At(Reverse(row), b)) == b
  {
    hide DuplicateFree, At, Reverse, FirstIndex;
    ReverseUndoes(row, b);
    HoldsEveryByte(row, b);
    FoundAgain(row, b);
  }

  lemma FoundAgain(row: Row, b: byte)
    requires b in row
    ensures At(row, At(Reverse(row), b)) == b
  {
    hide ByteOf, ByteValue, Reverse, FirstIndex;
    var k := FirstIndex(row, b, 0);
    var i :| 0 <= i < ENTRIES && row[i] == b;
    assert k <= i;
    ReverseAt(row, b);
    assert k % 0x100 == k;
  }

  lemma SubsetOfAll(held: set<byte>)
    ensures held <= AllBytes(ENTRIES) && forall b: byte :: b in AllBytes(ENTRIES)
  {
    AllBytesCount(ENTRIES);
    hide ByteValue, AllBytes;
    forall b: byte ensures b in AllBytes(ENTRIES) { assert ByteValue(b) < ENTRIES; }
  }

  lemma Smaller(s: set<byte>, t: set<byte>, b: byte)
    requires s <= t && b in t && b !in s
    ensures |s| < |t|
  {
    assert s <= t - {b};
    SubsetSize(s, t - {b});
  }

  lemma SubsetSize(s: set<byte>, t: set<byte>)
    requires s <= t
    ensures |s| <= |t|
  {
    assert t == s + (t - s) && s * (t - s) == {};
  }

  // ---------- encryption ----------

  function Mix(b: byte, key: byte): byte { b ^ key }

  /** The dictionary row used at position i. */
  function RowAt(d: Dictionary, nonce: byte, i: nat): Row {
    d[(ByteValue(nonce) + i) % ROWS]
  }

  function EncryptByte(d: Dictionary, key: byte, nonce: byte, i: nat, b: byte): byte {
    Mix(At(RowAt(d, nonce, i), b), key)
  }

  function DecryptByte(r: Dictionary, key: byte, nonce: byte, i: nat, b: byte): byte {
    At(RowAt(r, nonce, i), Mix(b, key))
  }

  /** The ciphertext: every byte replaced, the nonce appended. */
  function Encrypt(d: Dictionary, key: byte, nonce: byte, s: seq<byte>): (c: seq<byte>)
    ensures |c| == |s| + 1
  {
    seq(|s|, i requires 0 <= i < |s| => EncryptByte(d, key, nonce, i, s[i])) + [nonce]
  }

  /** The plaintext recovered from a non-empty ciphertext. */
  function Decrypt(r: Dictionary, key: byte, c: seq<byte>): (s: seq<byte>)
    requires c != []
    ensures |s| == |c| - 1
  {
    seq(|c| - 1, i requires 0 <= i < |c| - 1 => DecryptByte(r, key, c[|c| - 1], i, c[i]))
  }

  function Reversed(d: Dictionary): Dictionary {
    seq(ROWS, i requires 0 <= i < ROWS => Reverse(d[i]))
  }

  lemma XorTwice(a: byte, k: byte)
    ensures Mix(Mix(a, k), k) == a
  {}

  /** What becomes of the byte at position i: through its row, and back through the reversed row. */
  lemma ThereAndBack(d: Dictionary, key: byte, nonce: byte, s: seq<byte>, i: nat)
    requires i < |s|
    ensures var row := RowAt(d, nonce, i);
      Decrypt(Reversed(d), key, Encrypt(d, key, nonce, s))[i] == At(Reverse(row), At(row, s[i]))
  {
    hide Mix, At, Reverse, ByteValue, Encrypt, Decrypt, Reversed;
    var c := Encrypt(d, key, nonce, s);
    EncryptAt(d, key, nonce, s, i);
    DecryptAt(Reversed(d), key, c, i);
    ReversedAt(d, nonce, i);
    XorTwice(At(RowAt(d, nonce, i), s[i]), key);
  }

  lemma EncryptAt(d: Dictionary, key: byte, nonce: byte, s: seq<byte>, i: nat)
    requires i < |s|
    ensures var c := Encrypt(d, key, nonce, s); c[i] == Mix(At(RowAt(d, nonce, i), s[i]), key) && c[|s|] == nonce
  {
    hide Mix, At, ByteValue;
  }

  lemma DecryptAt(r: Dictionary, key: byte, c: seq<byte>, i: nat)
    requires i + 1 < |c|
    ensures Decrypt(r, key, c)[i] == At(RowAt(r, c[|c| - 1], i), Mix(c[i], key))
  {
    hide Mix, At, ByteValue;
  }

  lemma ReversedAt(d: Dictionary, nonce: byte, i: nat)
    ensures RowAt(Reversed(d), nonce, i) == Reverse(RowAt(d, nonce, i))
  {
    hide Reverse, ByteValue;
  }

  /** Decrypting an encryption returns the original, whatever the key, the nonce and the bytes. */
  lemma RoundTrip(d: Dictionary, key: byte, nonce: byte, s: seq<byte>)
    requires forall i :: 0 <= i < ROWS ==> DuplicateFree(d[i])
    ensures Decrypt(Reversed(d), key, Encrypt(d, key, nonce, s)) == s
  {
    var p := Decrypt(Reversed(d), key, Encrypt(d, key, nonce, s));
    hide ByteValue, At, Reverse, DuplicateFree, Encrypt, Decrypt, Reversed;
    forall i | 0 <= i < |s|
      ensures p[i] == s[i]
    {
      ThereAndBack(d, key, nonce, s, i);
      ReverseUndoes(RowAt(d, nonce, i), s[i]);
    }
  }

  /** The round trip works for every key, nonce and input if and only if every row of the dictionary is duplicate-free. */
  lemma RoundTripIff(d: Dictionary)
    ensures (forall key: byte, nonce: byte, s: seq<byte> {:trigger Encrypt(d, key, nonce, s)} ::
               Decrypt(Reversed(d), key, Encrypt(d, key, nonce, s)) == s)
      <==> forall i :: 0 <= i < ROWS ==> DuplicateFree(d[i])
  {
    if forall i :: 0 <= i < ROWS ==> DuplicateFree(d[i]) {
      forall key: byte, nonce: byte, s: seq<byte>
        ensures Decrypt(Reversed(d), key, Encrypt(d, key, nonce, s)) == s
      {
        RoundTrip(d, key, nonce, s);
      }
    }
    if forall key: byte, nonce: byte, s: seq<byte> {:trigger Encrypt(d, key, nonce, s)} ::
         Decrypt(Reversed(d), key, Encrypt(d, key, nonce, s)) == s
    {
      forall i | 0 <= i < ROWS
        ensures DuplicateFree(d[i])
      {
        OneByteRoundTrips(d, i);
      }
    }
  }

  lemma OneByteRoundTrips(d: Dictionary, i: nat)
    requires i < ROWS
    requires forall key: byte, nonce: byte, s: seq<byte> {:trigger Encrypt(d, key, nonce, s)} ::
      Decrypt(Reversed(d), key, Encrypt(d, key, nonce, s)) == s
    ensures DuplicateFree(d[i])
  {
    hide ByteValue, ByteOf, At, Reverse, DuplicateFree, Encrypt, Decrypt, Reversed;
    var nonce := ByteOf(i);
    ByteRoundTrip(i);
    forall b: byte
      ensures At(Reverse(d[i]), At(d[i], b)) == b
    {
      var c := Encrypt(d, 0, nonce, [b]);
      assert Decrypt(Reversed(d), 0, c) == [b];
      ThereAndBack(d, 0, nonce, [b], 0);
    }
    ReverseUndoesIff(d[i]);
  }

  /** The row is chosen by the nonce and the position; the key is mixed in behind the row, and taken out in front of it. */
  lemma EncryptByteIs(d: Dictionary, key: byte, nonce: byte, i: nat, b: byte)
    ensures EncryptByte(d, key, nonce, i, b) == d[(ByteValue(nonce) + i) % 10][ByteValue(b)] ^ key
  {
    hide ByteValue;
  }

  lemma DecryptByteIs(r: Dictionary, key: byte, nonce: byte, i: nat, b: byte)
    ensures DecryptByte(r, key, nonce, i, b) == r[(ByteValue(nonce) + i) % 10][ByteValue(b ^ key)]
  {
    hide ByteValue;
  }

  /** sslEncrypt. The output may be the input buffer. */
  method EncryptInto(d: Dictionary, key: byte, nonce: byte, input: array<byte>, len: nat, output: array<byte>) returns (n: nat)
    requires len <= input.Length && len + 1 <= output.Length
    modifies output
    ensures key == 0 ==> n == len && output[..] == old(output[..])
    ensures key != 0 ==> n == len + 1 && output[..n] == Encrypt(d, key, nonce, old(input[..len]))
    ensures key != 0 ==> forall i :: 0 <= i < len ==> output[i] == d[(ByteValue(nonce) + i) % 10][ByteValue(old(input[i]))] ^ key
    ensures key != 0 ==> output[len] == nonce
    ensures output[len + 1..] == old(output[len + 1..])
  {
    hide EncryptByte, ByteValue;
    if key == 0 { return len; }
    var i := 0;
    while i < len
      invariant 0 <= i <= len
      invariant forall k :: 0 <= k < i ==> output[k] == EncryptByte(d, key, nonce, k, old(input[k]))
      invariant forall k :: i <= k < len ==> input[k] == old(input[k])
      invariant forall k :: len <= k < output.Length ==> output[k] == old(output[k])
    {
      output[i] := EncryptByte(d, key, nonce, i, input[i]);
      i := i + 1;
    }
    output[len] := nonce;
    forall k | 0 <= k < len
      ensures output[k] == d[(ByteValue(nonce) + k) % 10][ByteValue(old(input[k]))] ^ key
    {
      EncryptByteIs(d, key, nonce, k, old(input[k]));
    }
    n := len + 1;
  }

  /** sslDecrypt. It also overwrites the position of the nonce, which the returned length leaves out. */
  method DecryptInto(r: Dictionary, key: byte, input: array<byte>, len: nat, output: array<byte>) returns (n: nat)
    requires len <= input.Length && len <= output.Length && (key != 0 ==> len > 0)
    modifies output
    ensures key == 0 ==> n == len && output[..] == old(output[..])
    ensures key != 0 ==> n == len - 1 && output[..n] == Decrypt(r, key, old(input[..len]))
    ensures key != 0 ==> forall i :: 0 <= i < len - 1 ==>
      output[i] == r[(ByteValue(old(input[len - 1])) + i) % 10][ByteValue(old(input[i]) ^ key)]
    ensures output[len..] == old(output[len..])
  {
    hide DecryptByte, ByteValue;
    if key == 0 { return len; }
    var nonce := input[len - 1];
    var i := 0;
    while i < len
      invariant 0 <= i <= len
      invariant forall k :: 0 <= k < i ==> output[k] == DecryptByte(r, key, nonce, k, old(input[k]))
      invariant forall k :: i <= k < len ==> input[k] == old(input[k])
      invariant forall k :: len <= k < output.Length ==> output[k] == old(output[k])
    {
      output[i] := DecryptByte(r, key, nonce, i, input[i]);
      i := i + 1;
    }
    forall k | 0 <= k < len
      ensures output[k] == r[(ByteValue(nonce) + k) % 10][ByteValue(old(input[k]) ^ key)]
    {
      DecryptByteIs(r, key, nonce, k, old(input[k]));
    }
    n := len - 1;
  }
}
