/** Packets cut short exactly behind a scalar or a size word: the buffer rewinds, and reading goes on at the packet's
    first byte. */
module Restarts {
  import opened Bytes
  import opened Packet
  import opened Truncation

  type GoodTy = ty: Ty | TypeOk(ty) witness Str

  /** What is still to be read: a whole value, or the bytes of a text whose size is known already. */
  datatype Todo = Whole(ty: GoodTy) | Rest(size: nat)

  function ReadOne(less: Less, data: seq<byte>, t: Todo, pos: nat): Result<nat> {
    match t
    case Whole(ty) => Outcome(Decode(less, ty, data, pos))
    case Rest(n) => Outcome(Take(data, pos, n))
  }

  /** Reading one thing after the other, up to the first failure. */
  function ReadAll(less: Less, data: seq<byte>, ts: seq<Todo>, pos: nat): Result<nat> {
    if ts == [] then Ok(pos)
    else
      var p :- ReadOne(less, data, ts[0], pos);
      ReadAll(less, data, ts[1..], p)
  }

  lemma {:induction false} ReadAllSnoc(less: Less, data: seq<byte>, ts: seq<Todo>, t: Todo, pos: nat)
    ensures ReadAll(less, data, ts + [t], pos) ==
      var r := ReadAll(less, data, ts, pos);
      if r.Ok? then ReadOne(less, data, t, r.value) else r
  {
    hide ReadOne;
    if ts == [] {
      assert (ts + [t])[0] == t && (ts + [t])[1..] == [];
    } else {
      assert (ts + [t])[0] == ts[0] && (ts + [t])[1..] == ts[1..] + [t];
      var r := ReadOne(less, data, ts[0], pos);
      if r.Ok? {
        ReadAllSnoc(less, data, ts[1..], t, r.value);
      }
    }
  }

  function Times(e: GoodTy, n: nat): seq<Todo> {
    if n == 0 then [] else Times(e, n - 1) + [Whole(e)]
  }

  /** What follows the read that ends k bytes into v. */
  function Remaining(less: Less, ty: Ty, v: Value, k: nat): seq<Todo>
    requires TypeOk(ty) && Typed(less, ty, v) && EndsRead(v, k)
    decreases v
  {
    match ty
    case Scalar(w) => []
    case Str => [Rest(|v.bytes|)]
    case ListOf(e) => RemainingInside(less, e, v, k)
    case SetOf(e) => RemainingInside(less, e, v, k)
    case MapOf(e) => RemainingInside(less, e, v, k)
    case Pair(a, b) =>
      if EndsRead(v.first, k) then Remaining(less, a, v.first, k) + [Whole(b)]
      else Remaining(less, b, v.second, k - |Encode(v.first)|)
  }

  function RemainingInside(less: Less, e: Ty, v: Value, k: nat): seq<Todo>
    requires TypeOk(e) && v.Many? && AllTyped(less, e, v.items) && EndsRead(v, k)
    decreases v, |v.items| + 1
  {
    if k == 4 then Times(e, |v.items|) else RemainingFirst(less, e, v, |v.items|, k - 4)
  }

  function RemainingFirst(less: Less, e: Ty, v: Value, n: nat, k: nat): seq<Todo>
    requires TypeOk(e) && v.Many? && n <= |v.items| && AllTyped(less, e, v.items) && EndsFirst(v, n, k)
    decreases v, n
  {
    if EndsFirst(v, n - 1, k) then RemainingFirst(less, e, v, n - 1, k) + [Whole(e)]
    else Remaining(less, e, v.items[n - 1], k - |EncodeFirst(v, n - 1)|)
  }

  /** data ends k bytes into enc, or with it. */
  predicate Stops(data: seq<byte>, pos: nat, enc: seq<byte>, k: nat) {
    k <= |enc| && pos + k == |data| && data[pos..] == enc[..k]
  }

  lemma StopsFirst(data: seq<byte>, pos: nat, a: seq<byte>, b: seq<byte>, k: nat)
    requires Stops(data, pos, a + b, k)
    ensures if k <= |a| then Stops(data, pos, a, k) else At(data, pos, a) && Stops(data, pos + |a|, b, k - |a|)
  {
    if k <= |a| {
      assert (a + b)[..k] == a[..k];
    } else {
      assert data[pos..pos + |a|] == data[pos..][..|a|] == (a + b)[..k][..|a|] == a;
      assert data[pos + |a|..] == data[pos..][|a|..] == (a + b)[..k][|a|..] == b[..k - |a|];
    }
  }

  lemma StopsAt(data: seq<byte>, pos: nat, enc: seq<byte>, k: nat)
    requires Stops(data, pos, enc, k)
    ensures pos + k == |data| && k <= |enc|
    ensures k == |enc| ==> At(data, pos, enc)
  {
    assert k == |enc| ==> enc[..k] == enc && data[pos..pos + k] == data[pos..];
  }

  /** A read ends inside the value it belongs to, and not before its first byte. */
  lemma {:induction false} EndsWithin(less: Less, ty: Ty, v: Value, k: nat)
    requires TypeOk(ty) && Typed(less, ty, v) && EndsRead(v, k)
    ensures 0 < k <= |Encode(v)|
    decreases v
  {
    hide SizeWord;
    match ty
    case Scalar(w) =>
    case Str =>
    case ListOf(e) => EndsWithinMany(less, e, v, k);
    case SetOf(e) => EndsWithinMany(less, e, v, k);
    case MapOf(e) => EndsWithinMany(less, e, v, k);
    case Pair(a, b) =>
      if EndsRead(v.first, k) {
        EndsWithin(less, a, v.first, k);
      } else {
        EndsWithin(less, b, v.second, k - |Encode(v.first)|);
      }
  }

  lemma {:induction false} EndsWithinMany(less: Less, e: Ty, v: Value, k: nat)
    requires TypeOk(e) && v.Many? && AllTyped(less, e, v.items) && EndsRead(v, k)
    ensures 0 < k <= |Encode(v)|
    decreases v, |v.items| + 1
  {
    hide SizeWord, AllTyped;
    assert |Encode(v)| == 4 + |EncodeFirst(v, |v.items|)|;
    if k > 4 {
      EndsWithinFirst(less, e, v, |v.items|, k - 4);
    }
  }

  lemma {:induction false} EndsWithinFirst(less: Less, e: Ty, v: Value, n: nat, k: nat)
    requires TypeOk(e) && v.Many? && n <= |v.items| && AllTyped(less, e, v.items) && EndsFirst(v, n, k)
    ensures 0 < k <= |EncodeFirst(v, n)|
    decreases v, n
  {
    hide Typed, Encode, EndsRead;
    assert |EncodeFirst(v, n)| == |EncodeFirst(v, n - 1)| + |Encode(v.items[n - 1])|;
    if EndsFirst(v, n - 1, k) {
      EndsWithinFirst(less, e, v, n - 1, k);
    } else {
      EndsWithin(less, e, v.items[n - 1], k - |EncodeFirst(v, n - 1)|);
    }
  }

  /** The exact outcome of reading a packet that ends with a read, for every type, value and place: whatever was still to
      be read is read from the packet's first byte. */
  lemma {:induction false} CutRestarts(less: Less, ty: Ty, v: Value, data: seq<byte>, pos: nat, k: nat)
    requires TypeOk(ty) && Typed(less, ty, v) && Sized(v) && Stops(data, pos, Encode(v), k) && EndsRead(v, k)
    ensures Outcome(Decode(less, ty, data, pos)) == ReadAll(less, data, Remaining(less, ty, v, k), 0)
    decreases v
  {
    hide SizeWord, LittleEndian, Collect, DecodeContainer, RemainingInside, Stops, AllTyped;
    match ty
    case Scalar(w) => StopsAt(data, pos, Encode(v), k);
    case Str => TextRestarts(less, v, data, pos, k);
    case ListOf(e) => ContainerRestarts(less, ty, e, v, data, pos, k);
    case SetOf(e) => ContainerRestarts(less, ty, e, v, data, pos, k);
    case MapOf(e) => ContainerRestarts(less, ty, e, v, data, pos, k);
    case Pair(a, b) => PairRestarts(less, a, b, v, data, pos, k);
  }

  lemma TextRestarts(less: Less, v: Value, data: seq<byte>, pos: nat, k: nat)
    requires v.Text? && Sized(v) && Stops(data, pos, Encode(v), k) && EndsRead(v, k)
    ensures Outcome(Decode(less, Str, data, pos)) == ReadAll(less, data, [Rest(|v.bytes|)], 0)
  {
    StopsFirst(data, pos, SizeWord(|v.bytes|), v.bytes, 4);
    StopsAt(data, pos, SizeWord(|v.bytes|), 4);
    ReadSize(data, pos, |v.bytes|);
    hide SizeWord, LittleEndian, Take;
    assert [Rest(|v.bytes|)][1..] == [];
  }

  lemma PairEnds(v: Value, k: nat)
    requires v.Two? && EndsRead(v, k) && !EndsRead(v.first, k)
    ensures k >= |Encode(v.first)| && EndsRead(v.second, k - |Encode(v.first)|)
  {}

  lemma PairRemaining(less: Less, a: Ty, b: Ty, v: Value, k: nat)
    requires TypeOk(Pair(a, b)) && Typed(less, Pair(a, b), v) && EndsRead(v, k)
    ensures Remaining(less, Pair(a, b), v, k) ==
      if EndsRead(v.first, k) then Remaining(less, a, v.first, k) + [Whole(b)]
      else Remaining(less, b, v.second, k - |Encode(v.first)|)
  {}

  lemma {:induction false} PairRestarts(less: Less, a: Ty, b: Ty, v: Value, data: seq<byte>, pos: nat, k: nat)
    requires TypeOk(Pair(a, b)) && Typed(less, Pair(a, b), v) && Sized(v)
    requires Stops(data, pos, Encode(v), k) && EndsRead(v, k)
    ensures Outcome(Decode(less, Pair(a, b), data, pos)) == ReadAll(less, data, Remaining(less, Pair(a, b), v, k), 0)
    decreases v, 0
  {
    hide TypeOk, Typed, Sized, Encode, EndsRead, Remaining, Decode, Stops, ReadAll;
    PairParts(less, a, b, v);
    PairRemaining(less, a, b, v, k);
    PairDecoded(less, a, b, data, pos);
    if EndsRead(v.first, k) {
      EndsWithin(less, a, v.first, k);
      StopsFirst(data, pos, Encode(v.first), Encode(v.second), k);
      CutRestarts(less, a, v.first, data, pos, k);
      ReadAllSnoc(less, data, Remaining(less, a, v.first, k), Whole(b), 0);
    } else {
      PairEnds(v, k);
      FirstIsRead(less, a, b, v, data, pos, k);
      CutRestarts(less, b, v.second, data, pos + |Encode(v.first)|, k - |Encode(v.first)|);
    }
  }

  lemma FirstIsRead(less: Less, a: Ty, b: Ty, v: Value, data: seq<byte>, pos: nat, k: nat)
    requires TypeOk(Pair(a, b)) && Typed(less, Pair(a, b), v) && Sized(v)
    requires Stops(data, pos, Encode(v), k) && EndsRead(v, k) && !EndsRead(v.first, k)
    ensures TypeOk(a) && Decode(less, a, data, pos) == Ok((v.first, pos + |Encode(v.first)|))
    ensures k >= |Encode(v.first)| && Stops(data, pos + |Encode(v.first)|, Encode(v.second), k - |Encode(v.first)|)
  {
    hide TypeOk, Typed, Sized, Encode, EndsRead, Decode, Stops, At, EndsInText;
    PairParts(less, a, b, v);
    PairEnds(v, k);
    EndsWithin(less, b, v.second, k - |Encode(v.first)|);
    StopsFirst(data, pos, Encode(v.first), Encode(v.second), k);
    StopsAt(data, pos, Encode(v), k);
    RoundTrip(less, a, v.first, data, pos);
  }

  lemma {:induction false} ItemsAll(less: Less, e: Ty, data: seq<byte>, pos: nat, n: nat)
    requires TypeOk(e)
    ensures Outcome(DecodeItems(less, e, data, pos, n)) == ReadAll(less, data, Times(e, n), pos)
  {
    hide Decode;
    if n > 0 {
      ItemsAll(less, e, data, pos, n - 1);
      ReadAllSnoc(less, data, Times(e, n - 1), Whole(e), pos);
      hide ReadAll;
    }
  }

  lemma ContainerOutcome(less: Less, ty: Ty, e: Ty, data: seq<byte>, pos: nat, next: nat, n: nat)
    requires TypeOk(e) && (ty.MapOf? ==> e.Pair?)
    requires Read(data, pos, 4) == Ok((SizeWord(n), next)) && LittleEndian(SizeWord(n)) == n
    ensures Outcome(DecodeContainer(less, ty, e, data, pos)) == Outcome(DecodeItems(less, e, data, next, n))
  {
    hide Read, SizeWord, LittleEndian, Collect, DecodeItems;
  }

  /** The size word has been read: how the items go on. */
  lemma ContainerOpens(less: Less, ty: Ty, e: Ty, v: Value, data: seq<byte>, pos: nat, k: nat)
    requires ty == ListOf(e) || ty == SetOf(e) || ty == MapOf(e)
    requires TypeOk(ty) && Typed(less, ty, v) && Sized(v) && Stops(data, pos, Encode(v), k) && EndsRead(v, k)
    ensures v.Many? && TypeOk(e) && AllTyped(less, e, v.items) && (ty.MapOf? ==> e.Pair?)
    ensures var (n, next) := (|v.items|, if k == 4 then 0 else pos + 4);
      Outcome(DecodeContainer(less, ty, e, data, pos)) == Outcome(DecodeItems(less, e, data, next, n))
    ensures k == 4 || (k > 4 && EndsFirst(v, |v.items|, k - 4) && Stops(data, pos + 4, EncodeFirst(v, |v.items|), k - 4))
  {
    hide TypeOk, Typed, Sized, Encode, EncodeFirst, EndsFirst, AllTyped, SizeWord, LittleEndian, Read, Collect, Stops, At, DecodeContainer, DecodeItems;
    ContainerParts(less, ty, e, v);
    var n := |v.items|;
    SizedMany(v);
    StopsAt(data, pos, Encode(v), k);
    StopsFirst(data, pos, SizeWord(n), EncodeFirst(v, n), k);
    if k == 4 {
      StopsAt(data, pos, SizeWord(n), 4);
    }
    ReadSize(data, pos, n);
    ContainerOutcome(less, ty, e, data, pos, if k == 4 then 0 else pos + 4, n);
  }

  lemma SizedMany(v: Value)
    requires v.Many? && Sized(v)
    ensures |v.items| < 0x1_0000_0000
  {}

  lemma {:induction false} ContainerRestarts(less: Less, ty: Ty, e: Ty, v: Value, data: seq<byte>, pos: nat, k: nat)
    requires ty == ListOf(e) || ty == SetOf(e) || ty == MapOf(e)
    requires TypeOk(ty) && Typed(less, ty, v) && Sized(v) && Stops(data, pos, Encode(v), k) && EndsRead(v, k)
    ensures AllTyped(less, e, v.items)
    ensures Outcome(DecodeContainer(less, ty, e, data, pos)) == ReadAll(less, data, RemainingInside(less, e, v, k), 0)
    decreases v, |v.items| + 1
  {
    hide TypeOk, Typed, Sized, Encode, EncodeFirst, EndsRead, EndsFirst, Stops, AllTyped, ReadAll, RemainingFirst, Times, DecodeContainer, DecodeItems;
    ContainerOpens(less, ty, e, v, data, pos, k);
    if k == 4 {
      ItemsAll(less, e, data, 0, |v.items|);
    } else {
      ItemsRestart(less, e, v, data, pos + 4, |v.items|, k - 4);
    }
  }

  lemma {:induction false} ItemsRestart(less: Less, e: Ty, v: Value, data: seq<byte>, pos: nat, n: nat, k: nat)
    requires TypeOk(e) && v.Many? && n <= |v.items| && AllTyped(less, e, v.items) && Sized(v)
    requires EndsFirst(v, n, k) && Stops(data, pos, EncodeFirst(v, n), k)
    ensures Outcome(DecodeItems(less, e, data, pos, n)) == ReadAll(less, data, RemainingFirst(less, e, v, n, k), 0)
    decreases v, n
  {
    hide TypeOk, Decode, Typed, Encode, Sized, AllTyped, At, Stops, EndsRead, ReadAll;
    var x, before := v.items[n - 1], EncodeFirst(v, n - 1);
    StopsAt(data, pos, EncodeFirst(v, n), k);
    StopsFirst(data, pos, before, Encode(x), k);
    ItemParts(less, e, v, n);
    if EndsFirst(v, n - 1, k) {
      EndsWithinFirst(less, e, v, n - 1, k);
      ItemsRestart(less, e, v, data, pos, n - 1, k);
      ReadAllSnoc(less, data, RemainingFirst(less, e, v, n - 1, k), Whole(e), 0);
    } else {
      EndsWithin(less, e, x, k - |before|);
      ItemsInFront(less, e, v, data, pos, n, k);
      CutRestarts(less, e, x, data, pos + |before|, k - |before|);
    }
  }

  /** Items that end before the packet does are read, and leave the buffer behind them. */
  lemma ItemsInFront(less: Less, e: Ty, v: Value, data: seq<byte>, pos: nat, n: nat, k: nat)
    requires TypeOk(e) && v.Many? && 0 < n <= |v.items| && AllTyped(less, e, v.items) && Sized(v)
    requires At(data, pos, EncodeFirst(v, n - 1)) && pos + k == |data| && k > |EncodeFirst(v, n - 1)|
    ensures DecodeItems(less, e, data, pos, n - 1) == Ok((v.items[..n - 1], pos + |EncodeFirst(v, n - 1)|))
  {
    hide TypeOk, Decode, Typed, Encode, Sized, AllTyped, At, EndsInText;
    if n > 1 {
      ItemsRoundTrip(less, e, v, data, pos, n - 1);
    } else {
      NoItems(less, e, data, pos);
    }
  }

  /** When a packet cut short in the middle of a value is accepted, for every type, value and place of the cut: exactly
      when the cut falls behind a scalar or a size word and the rest can be read from the packet's start. */
  lemma CutIsAcceptedIff(less: Less, ty: Ty, v: Value, data: seq<byte>, pos: nat, k: nat)
    requires TypeOk(ty) && Typed(less, ty, v) && Sized(v) && Cut(data, pos, Encode(v), k)
    ensures Decode(less, ty, data, pos).Ok? <==> EndsRead(v, k) && ReadAll(less, data, Remaining(less, ty, v, k), 0).Ok?
  {
    assert Stops(data, pos, Encode(v), k);
    hide Decode, Typed, Sized, Cut, Stops, Encode, EndsRead, ReadAll, Remaining;
    if EndsRead(v, k) {
      CutRestarts(less, ty, v, data, pos, k);
    } else {
      CutIsRefused(less, ty, v, data, pos, k);
    }
  }

  /** A pair of x and what the second half reads. */
  function Completed(x: Value, second: Result<(Value, nat)>): Result<(Value, nat)> {
    match second
    case Ok(y) => Ok((Two(x, y.0), y.1))
    case Err => Err
    case Overrun => Overrun
  }

  /** A packet that ends behind the first half of a pair: the second half is whatever the first half's bytes spell. */
  lemma SecondFromFirst(less: Less, a: Ty, b: Ty, x: Value)
    requires TypeOk(a) && TypeOk(b) && Typed(less, a, x) && Sized(x) && !EndsInText(x)
    ensures Decode(less, Pair(a, b), Encode(x), 0) == Completed(x, Decode(less, b, Encode(x), 0))
  {
    var data := Encode(x);
    AtStart(data);
    hide Typed, Sized, Encode, EndsInText, Decode, At;
    RoundTrip(less, a, x, data, 0);
    EndsOutsideText(data, |data|, x);
    PairDecoded(less, a, b, data, 0);
  }

  lemma AtStart(data: seq<byte>)
    ensures At(data, 0, data)
  {}

  function ListAndCounter(w: nat): (ty: GoodTy)
    requires w > 0
    ensures ty.Pair? && ty.left == ListOf(Scalar(w)) && ty.right == Scalar(4) && TypeOk(ty.left)
  {
    assert TypeOk(Scalar(w)) && TypeOk(Scalar(4));
    assert TypeOk(ListOf(Scalar(w)));
    Pair(ListOf(Scalar(w)), Scalar(4))
  }

  /** So a list of scalars and a counter, cut behind the list, is accepted with the list's own size for a counter. */
  lemma SizeForACounter(less: Less, w: nat, x: Value)
    requires w > 0 && Typed(less, ListOf(Scalar(w)), x) && Sized(x)
    ensures Decode(less, ListAndCounter(w), Encode(x), 0) ==
      Ok((Two(x, Raw(SizeWord(|x.items|))), if x.items == [] then 0 else 4))
  {
    hide SizeWord, DecodeContainer;
    var data, n := Encode(x), |x.items|;
    assert data == SizeWord(n) + EncodeFirst(x, n) && data[0..4] == SizeWord(n);
    if n > 0 {
      NeverEmpty(less, Scalar(w), x.items[n - 1]);
    }
    assert Decode(less, Scalar(4), data, 0) == Ok((Raw(SizeWord(n)), if n == 0 then 0 else 4));
    SecondFromFirst(less, ListOf(Scalar(w)), Scalar(4), x);
  }
}
