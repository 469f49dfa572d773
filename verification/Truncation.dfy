/** What becomes of packets whose bytes run out, or claim more than there is (packet_interface.h over thread_buffer.h). */
module Truncation {
  import opened Bytes
  import opened Packet

  // ---------- one read ----------

  /** A read to the last byte rewinds the buffer, so that a further read succeeds exactly when it fits the whole packet
      again, and then returns its first bytes. */
  lemma PastTheEnd(data: seq<byte>, pos: nat, n: nat, m: nat)
    requires pos + n == |data|
    ensures Read(data, pos, n) == Ok((data[pos..], 0))
    ensures Read(data, 0, m).Ok? <==> m <= |data|
    ensures m <= |data| ==> Read(data, 0, m).value.0 == data[..m]
  {
    assert data[pos..pos + n] == data[pos..];
  }

  /** A string overruns the packet exactly when its size word claims more bytes than are left behind it. */
  lemma OverrunIff(less: Less, data: seq<byte>, pos: nat)
    ensures var size := Read(data, pos, 4);
      Decode(less, Str, data, pos) == Overrun <==> size.Ok? && LittleEndian(size.value.0) > |data| - size.value.1
  {
    hide LittleEndian;
  }

  predicate NoStrings(ty: Ty) {
    match ty
    case Scalar(w) => true
    case Str => false
    case ListOf(e) => NoStrings(e)
    case SetOf(e) => NoStrings(e)
    case MapOf(e) => NoStrings(e)
    case Pair(a, b) => NoStrings(a) && NoStrings(b)
  }

  /** Only strings can overrun. */
  lemma {:induction false} NoOverrun(less: Less, ty: Ty, data: seq<byte>, pos: nat)
    requires TypeOk(ty) && NoStrings(ty)
    ensures Decode(less, ty, data, pos) != Overrun
    decreases ty, 0, 0
  {
    hide LittleEndian, Collect;
    match ty
    case Scalar(w) =>
    case ListOf(e) => NoOverrunInside(less, ty, e, data, pos);
    case SetOf(e) => NoOverrunInside(less, ty, e, data, pos);
    case MapOf(e) => NoOverrunInside(less, ty, e, data, pos);
    case Pair(a, b) =>
      NoOverrun(less, a, data, pos);
      var r := Decode(less, a, data, pos);
      if r.Ok? {
        NoOverrun(less, b, data, r.value.1);
      }
  }

  lemma {:induction false} NoOverrunInside(less: Less, ty: Ty, e: Ty, data: seq<byte>, pos: nat)
    requires TypeOk(e) && NoStrings(e) && (ty.MapOf? ==> e.Pair?)
    ensures DecodeContainer(less, ty, e, data, pos) != Overrun
    decreases e, 2, 0
  {
    hide LittleEndian, Collect, DecodeItems;
    var n := Read(data, pos, 4);
    if n.Ok? {
      NoOverrunItems(less, e, data, n.value.1, LittleEndian(n.value.0));
    }
  }

  lemma {:induction false} NoOverrunItems(less: Less, e: Ty, data: seq<byte>, pos: nat, n: nat)
    requires TypeOk(e) && NoStrings(e)
    ensures DecodeItems(less, e, data, pos, n) != Overrun
    decreases e, 1, n
  {
    hide Decode;
    if n > 0 {
      NoOverrunItems(less, e, data, pos, n - 1);
      var r := DecodeItems(less, e, data, pos, n - 1);
      if r.Ok? {
        NoOverrun(less, e, data, r.value.1);
      }
    }
  }

  // ---------- cut packets ----------

  /** Reading v has a read - of a scalar or of a size word - that ends exactly k bytes into it. */
  predicate EndsRead(v: Value, k: nat)
    decreases v
  {
    match v
    case Raw(b) => k == |b|
    case Text(b) => k == 4
    case Many(s) => k == 4 || (k > 4 && EndsFirst(v, |s|, k - 4))
    case Two(a, b) => EndsRead(a, k) || (k >= |Encode(a)| && EndsRead(b, k - |Encode(a)|))
  }

  predicate EndsFirst(v: Value, n: nat, k: nat)
    requires v.Many? && n <= |v.items|
    decreases v, n
  {
    n > 0 && (EndsFirst(v, n - 1, k) ||
              (k >= |EncodeFirst(v, n - 1)| && EndsRead(v.items[n - 1], k - |EncodeFirst(v, n - 1)|)))
  }

  /** Byte k of the encoding of v belongs to the text of a string. */
  predicate InText(v: Value, k: nat)
    decreases v
  {
    match v
    case Raw(b) => false
    case Text(b) => k > 4
    case Many(s) => k > 4 && InFirst(v, |s|, k - 4)
    case Two(a, b) => if k < |Encode(a)| then InText(a, k) else InText(b, k - |Encode(a)|)
  }

  predicate InFirst(v: Value, n: nat, k: nat)
    requires v.Many? && n <= |v.items|
    decreases v, n
  {
    n > 0 && if k < |EncodeFirst(v, n - 1)| then InFirst(v, n - 1, k) else InText(v.items[n - 1], k - |EncodeFirst(v, n - 1)|)
  }

  /** data ends k bytes into enc, which stands at pos. */
  predicate Cut(data: seq<byte>, pos: nat, enc: seq<byte>, k: nat) {
    k < |enc| && pos + k == |data| && data[pos..] == enc[..k]
  }

  function Refusal(inText: bool): Result<(Value, nat)> {
    if inText then Overrun else Err
  }

  lemma CutFirst(data: seq<byte>, pos: nat, a: seq<byte>, b: seq<byte>, k: nat)
    requires Cut(data, pos, a + b, k)
    ensures if k < |a| then Cut(data, pos, a, k) else At(data, pos, a) && Cut(data, pos + |a|, b, k - |a|)
  {
    if k < |a| {
      assert (a + b)[..k] == a[..k];
    } else {
      assert data[pos..pos + |a|] == data[pos..][..|a|] == (a + b)[..k][..|a|] == a;
      assert data[pos + |a|..] == data[pos..][|a|..] == (a + b)[..k][|a|..] == b[..k - |a|];
    }
  }

  /** The last read of a value ends where the value ends, unless it ends with text. */
  lemma {:induction false} LastRead(v: Value)
    ensures EndsInText(v) || EndsRead(v, |Encode(v)|)
    decreases v
  {
    hide SizeWord;
    match v
    case Raw(b) =>
    case Text(b) =>
    case Many(s) =>
      if s != [] {
        LastRead(s[|s| - 1]);
        assert |Encode(v)| == 4 + |EncodeFirst(v, |s| - 1)| + |Encode(s[|s| - 1])|;
        NotBefore(v, |s|);
      }
    case Two(a, b) =>
      LastRead(b);
  }

  lemma NotBefore(v: Value, n: nat)
    requires v.Many? && 0 < n <= |v.items| && (EndsInText(v.items[n - 1]) || EndsRead(v.items[n - 1], |Encode(v.items[n - 1])|))
    ensures |EncodeFirst(v, n)| == |EncodeFirst(v, n - 1)| + |Encode(v.items[n - 1])|
    ensures EndsInText(v.items[n - 1]) || EndsFirst(v, n, |EncodeFirst(v, n)|)
  {}

  lemma CutSize(data: seq<byte>, pos: nat, n: nat, b: seq<byte>, k: nat)
    requires Cut(data, pos, SizeWord(n) + b, k) && n < 0x1_0000_0000 && k != 4
    ensures k < 4 ==> Read(data, pos, 4) == Err
    ensures k > 4 ==> Read(data, pos, 4) == Ok((SizeWord(n), pos + 4)) && LittleEndian(SizeWord(n)) == n && Cut(data, pos + 4, b, k - 4)
  {
    hide LittleEndian, SizeWord;
    CutFirst(data, pos, SizeWord(n), b, k);
    if k > 4 {
      ReadSize(data, pos, n);
    }
  }

  /** A packet cut short in the middle of a value is refused, for every type and value and every place of the cut, as
      long as the cut does not fall exactly behind a scalar or a size word: inside a string's text the reading overruns
      the packet, anywhere else it throws. */
  lemma {:induction false} CutIsRefused(less: Less, ty: Ty, v: Value, data: seq<byte>, pos: nat, k: nat)
    requires TypeOk(ty) && Typed(less, ty, v) && Sized(v) && Cut(data, pos, Encode(v), k) && !EndsRead(v, k)
    ensures Decode(less, ty, data, pos) == Refusal(InText(v, k))
    decreases v
  {
    hide SizeWord, LittleEndian, Collect, DecodeContainer, Cut;
    match ty
    case Scalar(w) => ScalarCut(less, w, v, data, pos, k);
    case Str => TextCut(less, v, data, pos, k);
    case ListOf(e) => ContainerCut(less, ty, e, v, data, pos, k);
    case SetOf(e) => ContainerCut(less, ty, e, v, data, pos, k);
    case MapOf(e) => ContainerCut(less, ty, e, v, data, pos, k);
    case Pair(a, b) => PairCut(less, a, b, v, data, pos, k);
  }

  lemma {:induction false} PairCut(less: Less, a: Ty, b: Ty, v: Value, data: seq<byte>, pos: nat, k: nat)
    requires TypeOk(Pair(a, b)) && Typed(less, Pair(a, b), v) && Sized(v) && Cut(data, pos, Encode(v), k) && !EndsRead(v, k)
    ensures Decode(less, Pair(a, b), data, pos) == Refusal(InText(v, k))
    decreases v, 0
  {
    hide TypeOk, Typed, Sized, Encode, Decode, EndsRead, InText, Cut, At, EndsInText;
    PairParts(less, a, b, v);
    PairCutParts(v, k);
    PairDecoded(less, a, b, data, pos);
    CutFirst(data, pos, Encode(v.first), Encode(v.second), k);
    if k < |Encode(v.first)| {
      CutIsRefused(less, a, v.first, data, pos, k);
    } else {
      LastRead(v.first);
      CutPosition(data, pos, Encode(v), k);
      RoundTrip(less, a, v.first, data, pos);
      CutIsRefused(less, b, v.second, data, pos + |Encode(v.first)|, k - |Encode(v.first)|);
    }
  }

  lemma PairCutParts(v: Value, k: nat)
    requires v.Two? && !EndsRead(v, k)
    ensures !EndsRead(v.first, k) && (k >= |Encode(v.first)| ==> !EndsRead(v.second, k - |Encode(v.first)|))
    ensures InText(v, k) == if k < |Encode(v.first)| then InText(v.first, k) else InText(v.second, k - |Encode(v.first)|)
  {}

  lemma CutPosition(data: seq<byte>, pos: nat, enc: seq<byte>, k: nat)
    requires Cut(data, pos, enc, k)
    ensures pos + k == |data| && k < |enc|
  {}

  lemma ScalarCut(less: Less, w: nat, v: Value, data: seq<byte>, pos: nat, k: nat)
    requires v.Raw? && |v.bytes| == w && Cut(data, pos, v.bytes, k)
    ensures Decode(less, Scalar(w), data, pos) == Err
  {}

  lemma TextCut(less: Less, v: Value, data: seq<byte>, pos: nat, k: nat)
    requires v.Text? && Sized(v) && Cut(data, pos, Encode(v), k) && k != 4
    ensures Decode(less, Str, data, pos) == Refusal(k > 4)
  {
    CutSize(data, pos, |v.bytes|, v.bytes, k);
    hide SizeWord, LittleEndian, Read;
  }

  lemma {:induction false} ContainerCut(less: Less, ty: Ty, e: Ty, v: Value, data: seq<byte>, pos: nat, k: nat)
    requires TypeOk(ty) && Typed(less, ty, v) && Sized(v) && Cut(data, pos, Encode(v), k) && !EndsRead(v, k)
    requires ty == ListOf(e) || ty == SetOf(e) || ty == MapOf(e)
    ensures DecodeContainer(less, ty, e, data, pos) == Refusal(InText(v, k))
    decreases v, |v.items| + 1
  {
    hide SizeWord, LittleEndian, Read, Collect, Typed, Sized, TypeOk, Encode, EncodeFirst, EndsRead, InText, EndsFirst, InFirst, Cut;
    hide DecodeItems;
    ContainerParts(less, ty, e, v);
    CutParts(v, k);
    var n := |v.items|;
    CutSize(data, pos, n, EncodeFirst(v, n), k);
    if k > 4 {
      ItemsCut(less, e, v, data, pos + 4, n, k - 4);
    }
  }

  lemma CutParts(v: Value, k: nat)
    requires v.Many? && !EndsRead(v, k)
    ensures k != 4 && (k > 4 ==> !EndsFirst(v, |v.items|, k - 4) && InText(v, k) == InFirst(v, |v.items|, k - 4))
    ensures k < 4 ==> !InText(v, k)
  {}

  lemma {:induction false} ItemsCut(less: Less, e: Ty, v: Value, data: seq<byte>, pos: nat, n: nat, k: nat)
    requires TypeOk(e) && v.Many? && n <= |v.items| && AllTyped(less, e, v.items) && Sized(v)
    requires Cut(data, pos, EncodeFirst(v, n), k) && !EndsFirst(v, n, k)
    ensures DecodeItems(less, e, data, pos, n) == if InFirst(v, n, k) then Overrun else Err
    decreases v, n
  {
    hide TypeOk, Decode, Typed, Encode, Sized, AllTyped, At, EndsInText, EndsRead, InText, Cut;
    CutPosition(data, pos, EncodeFirst(v, n), k);
    var x, before := v.items[n - 1], EncodeFirst(v, n - 1);
    CutFirst(data, pos, before, Encode(x), k);
    ItemParts(less, e, v, n);
    if k < |before| {
      ItemsCut(less, e, v, data, pos, n - 1, k);
    } else {
      ItemsBefore(less, e, v, data, pos, n, k);
      CutIsRefused(less, e, x, data, pos + |before|, k - |before|);
    }
  }

  lemma ItemParts(less: Less, e: Ty, v: Value, n: nat)
    requires v.Many? && 0 < n <= |v.items| && AllTyped(less, e, v.items) && Sized(v)
    ensures Typed(less, e, v.items[n - 1]) && Sized(v.items[n - 1])
  {}

  /** The items in front of the one that is cut are read, and leave the buffer behind them. */
  lemma {:induction false} ItemsBefore(less: Less, e: Ty, v: Value, data: seq<byte>, pos: nat, n: nat, k: nat)
    requires TypeOk(e) && v.Many? && 0 < n <= |v.items| && AllTyped(less, e, v.items) && Sized(v)
    requires At(data, pos, EncodeFirst(v, n - 1)) && pos + k == |data| && k >= |EncodeFirst(v, n - 1)|
    requires !EndsFirst(v, n, k)
    ensures DecodeItems(less, e, data, pos, n - 1) == Ok((v.items[..n - 1], pos + |EncodeFirst(v, n - 1)|))
  {
    hide TypeOk, Decode, Typed, Encode, Sized, AllTyped, At, EndsInText, EndsRead;
    if n > 1 {
      LastRead(v.items[n - 2]);
      NotBefore(v, n - 1);
      ItemsRoundTrip(less, e, v, data, pos, n - 1);
    } else {
      NoItems(less, e, data, pos);
    }
  }

  // ---------- sequences of scalars ----------

  /** A struct of scalars with the given widths. */
  function Fields(ws: seq<nat>): Ty
    requires ws != []
  {
    if |ws| == 1 then Scalar(ws[0]) else Pair(Scalar(ws[0]), Fields(ws[1..]))
  }

  predicate Widths(ws: seq<nat>) {
    forall i :: 0 <= i < |ws| ==> ws[i] > 0
  }

  lemma {:induction false} FieldsOk(ws: seq<nat>)
    requires ws != [] && Widths(ws)
    ensures TypeOk(Fields(ws))
  {
    if |ws| > 1 {
      FieldsOk(ws[1..]);
    }
  }

  function Sum(ws: seq<nat>): nat {
    if ws == [] then 0 else ws[0] + Sum(ws[1..])
  }

  /** Scalars of these widths can be read one after the other from a packet of the given length. */
  predicate Accepts(ws: seq<nat>, length: nat, pos: nat)
    decreases |ws|
  {
    ws == [] || (pos + ws[0] <= length && Accepts(ws[1..], length, if pos + ws[0] == length then 0 else pos + ws[0]))
  }

  lemma {:induction false} AcceptsIff(less: Less, ws: seq<nat>, data: seq<byte>, pos: nat)
    requires ws != [] && Widths(ws)
    ensures TypeOk(Fields(ws)) && (Decode(less, Fields(ws), data, pos).Ok? <==> Accepts(ws, |data|, pos))
    decreases |ws|
  {
    FieldsOk(ws);
    if |ws| > 1 {
      var w := ws[0];
      if pos + w <= |data| {
        AcceptsIff(less, ws[1..], data, if pos + w == |data| then 0 else pos + w);
      }
    } else {
      assert ws[1..] == [];
    }
  }

  /** The packet ends behind the k-th of the fields, and the others are accepted from its start. */
  predicate Round(ws: seq<nat>, length: nat, pos: nat, k: nat) {
    0 < k < |ws| && pos + Sum(ws[..k]) == length && Accepts(ws[k..], length, 0)
  }

  lemma RoundLater(ws: seq<nat>, length: nat, pos: nat, k: nat)
    requires ws != [] && k > 0
    ensures Round(ws, length, pos, k + 1) <==> Round(ws[1..], length, pos + ws[0], k)
  {
    if k < |ws[1..]| {
      assert ws[..k + 1][1..] == ws[1..][..k] && ws[k + 1..] == ws[1..][k..];
      hide Accepts;
    }
  }

  lemma RoundFirst(ws: seq<nat>, length: nat, pos: nat)
    requires |ws| > 1
    ensures Round(ws, length, pos, 1) <==> pos + ws[0] == length && Accepts(ws[1..], length, 0)
  {
    assert ws[..1][0] == ws[0] && ws[..1][1..] == [];
    assert Sum(ws[..1]) == ws[0] + Sum([]);
    hide Accepts;
  }

  lemma {:induction false} AcceptsRounds(ws: seq<nat>, length: nat, pos: nat)
    requires Widths(ws) && pos < length < pos + Sum(ws)
    ensures Accepts(ws, length, pos) <==> exists k :: Round(ws, length, pos, k)
    decreases |ws|
  {
    var rest, next := ws[1..], pos + ws[0];
    hide Round;
    if next < length {
      AcceptsRounds(rest, length, next);
      RoundFirst(ws, length, pos);
      forall k | k > 0
        ensures Round(ws, length, pos, k + 1) <==> Round(rest, length, next, k)
      {
        RoundLater(ws, length, pos, k);
      }
      RoundsPositive(ws, length, pos);
      RoundsPositive(rest, length, next);
      if k: nat :| Round(ws, length, pos, k) {
        assert Round(rest, length, next, k - 1);
      }
      if k: nat :| Round(rest, length, next, k) {
        assert Round(ws, length, pos, k + 1);
      }
    } else if |ws| == 1 {
      assert rest == [] && forall k: nat :: !Round(ws, length, pos, k) by { NoRoundOfOne(ws, length, pos); }
    } else {
      RoundFirst(ws, length, pos);
      NoLaterRound(ws, length, pos);
    }
  }

  lemma RoundsPositive(ws: seq<nat>, length: nat, pos: nat)
    ensures forall k :: Round(ws, length, pos, k) ==> k > 0
  {}

  lemma NoRoundOfOne(ws: seq<nat>, length: nat, pos: nat)
    requires |ws| == 1
    ensures forall k: nat :: !Round(ws, length, pos, k)
  {}

  lemma NoLaterRound(ws: seq<nat>, length: nat, pos: nat)
    requires |ws| > 1 && Widths(ws) && pos + ws[0] >= length
    ensures forall k :: Round(ws, length, pos, k) ==> k == 1
    ensures pos + ws[0] > length ==> forall k :: !Round(ws, length, pos, k)
  {
    forall k | 1 < k < |ws|
      ensures pos + Sum(ws[..k]) > length
    {
      var t := ws[..k][1..];
      assert t[0] == ws[1] && Sum(ws[..k]) == ws[0] + Sum(t) && Sum(t) >= t[0];
    }
    assert ws[..1][1..] == [];
  }

  /** A struct of scalars read from fewer bytes than it needs is accepted exactly when the bytes end behind one of its
      fields and the remaining fields are accepted from the start of the packet again. */
  lemma TruncatedFieldsIff(less: Less, ws: seq<nat>, data: seq<byte>)
    requires ws != [] && Widths(ws) && 0 < |data| < Sum(ws)
    ensures TypeOk(Fields(ws)) && (Decode(less, Fields(ws), data, 0).Ok? <==> exists k :: Round(ws, |data|, 0, k))
  {
    FieldsOk(ws);
    AcceptsIff(less, ws, data, 0);
    AcceptsRounds(ws, |data|, 0);
  }

  /** The packet head: message number, transaction id, flag. */
  const HEAD: Ty := Pair(Scalar(2), Pair(Scalar(4), Scalar(4)))

  /** A head cut short is refused, except after exactly six bytes: then the flag is read from the first four bytes again,
      and a head nobody wrote is accepted. */
  lemma TruncatedHeadIff(less: Less, data: seq<byte>)
    requires |data| < 10
    ensures Decode(less, HEAD, data, 0).Ok? <==> |data| == 6
    ensures |data| == 6 ==> Decode(less, HEAD, data, 0) == Ok((Two(Raw(data[..2]), Two(Raw(data[2..6]), Raw(data[..4]))), 4))
  {}
}
