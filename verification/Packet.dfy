/** The packet serializer (packet_interface.h over thread_buffer.h): values of nested container types written to a
    bounded buffer and read back from a received one. */
module Packet {
  import opened Bytes

  /** What the operators are instantiated with. A map's entries are pairs; a struct is nested pairs. */
  datatype Ty = Scalar(width: nat) | Str | ListOf(item: Ty) | SetOf(item: Ty) | MapOf(entry: Ty) | Pair(left: Ty, right: Ty)

  /** Raw: a scalar's memory. Many: the elements of a container in iteration order. */
  datatype Value = Raw(bytes: seq<byte>) | Text(bytes: seq<byte>) | Many(items: seq<Value>) | Two(first: Value, second: Value)

  /** Err: an exception. Overrun: memory behind the packet is read, and nothing is known from then on. */
  datatype Result<+T> = Ok(value: T) | Err | Overrun {
    predicate IsFailure() {
      !Ok?
    }

    function PropagateFailure<U>(): Result<U>
      requires IsFailure()
    {
      if Err? then Err else Overrun
    }

    function Extract(): T
      requires !IsFailure()
    {
      value
    }
  }

  /** operator< of the element types. */
  type Less = (Value, Value) -> bool

  /** The types the operators exist for: no empty scalars. */
  predicate TypeOk(ty: Ty) {
    match ty
    case Scalar(w) => w > 0
    case Str => true
    case ListOf(e) => TypeOk(e)
    case SetOf(e) => TypeOk(e)
    case MapOf(e) => e.Pair? && TypeOk(e)
    case Pair(a, b) => TypeOk(a) && TypeOk(b)
  }

  /** The iteration order of std::set. */
  predicate Ascending(less: Less, s: seq<Value>) {
    forall i, j :: 0 <= i < j < |s| ==> less(s[i], s[j])
  }

  function Key(v: Value): Value {
    if v.Two? then v.first else v
  }

  predicate KeysAscending(less: Less, s: seq<Value>) {
    forall i, j :: 0 <= i < j < |s| ==> less(Key(s[i]), Key(s[j]))
  }

  predicate Typed(less: Less, ty: Ty, v: Value)
    decreases v
  {
    match ty
    case Scalar(w) => v.Raw? && |v.bytes| == w
    case Str => v.Text?
    case ListOf(e) => v.Many? && forall i :: 0 <= i < |v.items| ==> Typed(less, e, v.items[i])
    case SetOf(e) => v.Many? && (forall i :: 0 <= i < |v.items| ==> Typed(less, e, v.items[i])) && Ascending(less, v.items)
    case MapOf(e) => v.Many? && (forall i :: 0 <= i < |v.items| ==> v.items[i].Two? && Typed(less, e, v.items[i])) && KeysAscending(less, v.items)
    case Pair(a, b) => v.Two? && Typed(less, a, v.first) && Typed(less, b, v.second)
  }

  /** Sizes that an unsigned int holds. */
  predicate Sized(v: Value) {
    match v
    case Raw(b) => true
    case Text(b) => |b| < 0x1_0000_0000
    case Many(s) => |s| < 0x1_0000_0000 && forall i :: 0 <= i < |s| ==> Sized(s[i])
    case Two(a, b) => Sized(a) && Sized(b)
  }

  // ---------- writing ----------

  /** (unsigned int)size. */
  function SizeWord(n: nat): (b: seq<byte>)
    ensures |b| == 4
  {
    LittleEndianBytes(n % 0x1_0000_0000, 4)
  }

  /** The bytes of a value. */
  function Encode(v: Value): seq<byte>
    decreases v
  {
    match v
    case Raw(b) => b
    case Text(b) => SizeWord(|b|) + b
    case Many(s) => SizeWord(|s|) + EncodeFirst(v, |s|)
    case Two(a, b) => Encode(a) + Encode(b)
  }

  /** The bytes of the first n elements. */
  function EncodeFirst(v: Value, n: nat): seq<byte>
    requires v.Many? && n <= |v.items|
    decreases v, n
  {
    if n == 0 then [] else EncodeFirst(v, n - 1) + Encode(v.items[n - 1])
  }

  // ---------- reading ----------

  /** thread_recv_buffer::read. A read that takes the very last byte rewinds the buffer. */
  function Read(data: seq<byte>, pos: nat, n: nat): Result<(seq<byte>, nat)> {
    if pos + n > |data| then Err
    else Ok((data[pos..pos + n], if pos + n == |data| then 0 else pos + n))
  }

  /** A string's bytes: copied first, and only then checked, by an assertion that release builds leave out. No rewinding. */
  function Take(data: seq<byte>, pos: nat, n: nat): Result<(seq<byte>, nat)> {
    if pos + n > |data| then Overrun else Ok((data[pos..pos + n], pos + n))
  }

  /** The first place at which v does not come after the element there. */
  function LowerBound(less: Less, s: seq<Value>, v: Value): (i: nat)
    ensures i <= |s|
    ensures forall j :: 0 <= j < i ==> less(s[j], v)
    ensures i < |s| ==> !less(s[i], v)
  {
    if s == [] || !less(s[0], v) then 0 else 1 + LowerBound(less, s[1..], v)
  }

  /** std::set::insert. */
  function Insert(less: Less, s: seq<Value>, v: Value): seq<Value> {
    var i := LowerBound(less, s, v);
    if i < |s| && !less(v, s[i]) then s else s[..i] + [v] + s[i..]
  }

  function Keys(s: seq<Value>): (r: seq<Value>)
    ensures |r| == |s|
    ensures forall i :: 0 <= i < |s| ==> r[i] == Key(s[i])
  {
    seq(|s|, i requires 0 <= i < |s| => Key(s[i]))
  }

  /** m[key] = value. */
  function Assign(less: Less, s: seq<Value>, v: Value): seq<Value>
    requires v.Two?
  {
    var i := LowerBound(less, Keys(s), v.first);
    if i < |s| && !less(v.first, Key(s[i])) then s[i := Two(Key(s[i]), v.second)] else s[..i] + [v] + s[i..]
  }

  /** The container built from elements read one by one. */
  function Collect(less: Less, ty: Ty, read: seq<Value>): seq<Value>
    requires ty.MapOf? ==> forall i :: 0 <= i < |read| ==> read[i].Two?
  {
    if read == [] || ty.ListOf? then read
    else
      var s := Collect(less, ty, read[..|read| - 1]);
      if ty.MapOf? then Assign(less, s, read[|read| - 1]) else Insert(less, s, read[|read| - 1])
  }

  function Decode(less: Less, ty: Ty, data: seq<byte>, pos: nat): (r: Result<(Value, nat)>)
    requires TypeOk(ty)
    ensures r.Ok? && ty.Pair? ==> r.value.0.Two?
    decreases ty, 0, 0
  {
    match ty
    case Scalar(w) =>
      var r :- Read(data, pos, w);
      Ok((Raw(r.0), r.1))
    case Str =>
      var n :- Read(data, pos, 4);
      var r :- Take(data, n.1, LittleEndian(n.0));
      Ok((Text(r.0), r.1))
    case ListOf(e) => DecodeContainer(less, ty, e, data, pos)
    case SetOf(e) => DecodeContainer(less, ty, e, data, pos)
    case MapOf(e) => DecodeContainer(less, ty, e, data, pos)
    case Pair(a, b) =>
      var r :- Decode(less, a, data, pos);
      var q :- Decode(less, b, data, r.1);
      Ok((Two(r.0, q.0), q.1))
  }

  /** A size word, then that many elements. */
  function DecodeContainer(less: Less, ty: Ty, e: Ty, data: seq<byte>, pos: nat): (r: Result<(Value, nat)>)
    requires TypeOk(e) && (ty.MapOf? ==> e.Pair?)
    decreases e, 2, 0
  {
    var n :- Read(data, pos, 4);
    var r :- DecodeItems(less, e, data, n.1, LittleEndian(n.0));
    Ok((Many(Collect(less, ty, r.0)), r.1))
  }

  function DecodeItems(less: Less, e: Ty, data: seq<byte>, pos: nat, n: nat): (r: Result<(seq<Value>, nat)>)
    requires TypeOk(e)
    ensures r.Ok? ==> |r.value.0| == n
    ensures r.Ok? && e.Pair? ==> forall i :: 0 <= i < n ==> r.value.0[i].Two?
    decreases e, 1, n
  {
    if n == 0 then Ok(([], pos))
    else
      var r :- DecodeItems(less, e, data, pos, n - 1);
      var x :- Decode(less, e, data, r.1);
      Ok((r.0 + [x.0], x.1))
  }

  // ---------- the round trip ----------

  /** enc stands in data at pos; anything may follow. */
  predicate At(data: seq<byte>, pos: nat, enc: seq<byte>) {
    pos + |enc| <= |data| && data[pos..pos + |enc|] == enc
  }

  /** Reading the value ends with the text of a non-empty string, which never rewinds. */
  predicate EndsInText(v: Value) {
    match v
    case Raw(b) => false
    case Text(b) => b != []
    case Many(s) => s != [] && EndsInText(s[|s| - 1])
    case Two(a, b) => EndsInText(b)
  }

  /** Where reading v up to `end` leaves the buffer. */
  function After(data: seq<byte>, end: nat, v: Value): nat {
    if end == |data| && !EndsInText(v) then 0 else end
  }

  lemma AtParts(data: seq<byte>, pos: nat, a: seq<byte>, b: seq<byte>)
    requires At(data, pos, a + b)
    ensures At(data, pos, a) && At(data, pos + |a|, b)
  {
    var w := data[pos..pos + |a + b|];
    assert w[..|a|] == a && w[|a|..] == b;
    assert data[pos..pos + |a|] == w[..|a|];
    assert data[pos + |a|..pos + |a| + |b|] == w[|a|..];
  }

  lemma AtBytes(data: seq<byte>, pos: nat, b: seq<byte>)
    requires At(data, pos, b)
    ensures pos + |b| <= |data|
    ensures b != [] ==> Take(data, pos, |b|) == Ok((b, pos + |b|))
    ensures b == [] ==> Take(data, pos, 0) == Ok((b, pos)) && Take(data, 0, 0) == Ok((b, 0))
  {}

  lemma SizeWordIs(n: nat)
    requires n < 0x1_0000_0000
    ensures SizeWord(n) == LittleEndianBytes(n, 4)
  {
    hide LittleEndianBytes;
    assert n % 0x1_0000_0000 == n;
  }

  lemma SizeRoundTrip(n: nat)
    requires n < 0x1_0000_0000
    ensures LittleEndian(SizeWord(n)) == n
  {
    SizeWordIs(n);
    hide LittleEndianBytes, LittleEndian, SizeWord, Power256;
    WordFits(n);
    LittleEndianRoundTrip(n, 4);
  }

  lemma ReadSize(data: seq<byte>, pos: nat, n: nat)
    requires n < 0x1_0000_0000 && At(data, pos, SizeWord(n))
    ensures Read(data, pos, 4) == Ok((SizeWord(n), if pos + 4 == |data| then 0 else pos + 4))
    ensures LittleEndian(SizeWord(n)) == n
  {
    hide LittleEndian, SizeWord;
    SizeRoundTrip(n);
  }

  lemma {:induction false} NeverEmpty(less: Less, ty: Ty, v: Value)
    requires TypeOk(ty) && Typed(less, ty, v)
    ensures Encode(v) != []
    decreases v
  {
    if ty.Pair? {
      NeverEmpty(less, ty.left, v.first);
    }
  }

  lemma InsertLast(less: Less, r: seq<Value>, x: Value)
    requires forall i :: 0 <= i < |r| ==> less(r[i], x)
    ensures Insert(less, r, x) == r + [x]
  {
    assert LowerBound(less, r, x) == |r|;
    assert r[..|r|] + [x] + r[|r|..] == r + [x];
  }

  lemma AssignLast(less: Less, r: seq<Value>, x: Value)
    requires x.Two? && forall i :: 0 <= i < |r| ==> less(Key(r[i]), x.first)
    ensures Assign(less, r, x) == r + [x]
  {
    assert LowerBound(less, Keys(r), x.first) == |r|;
    assert r[..|r|] + [x] + r[|r|..] == r + [x];
  }

  /** A set's elements, read in its own order, rebuild it; so do a map's entries. */
  lemma {:induction false} CollectAscending(less: Less, ty: Ty, s: seq<Value>)
    requires ty.ListOf? || (ty.SetOf? && Ascending(less, s)) || (ty.MapOf? && KeysAscending(less, s))
    requires ty.MapOf? ==> forall i :: 0 <= i < |s| ==> s[i].Two?
    ensures Collect(less, ty, s) == s
  {
    if s != [] && !ty.ListOf? {
      var r, x := s[..|s| - 1], s[|s| - 1];
      CollectAscending(less, ty, r);
      hide Insert, Assign;
      assert r + [x] == s;
      if ty.MapOf? {
        AssignLast(less, r, x);
      } else {
        InsertLast(less, r, x);
      }
    }
  }

  lemma PairParts(less: Less, a: Ty, b: Ty, v: Value)
    requires TypeOk(Pair(a, b)) && Typed(less, Pair(a, b), v) && Sized(v)
    ensures v.Two? && TypeOk(a) && TypeOk(b) && Encode(v) == Encode(v.first) + Encode(v.second)
    ensures Typed(less, a, v.first) && Sized(v.first) && Typed(less, b, v.second) && Sized(v.second)
    ensures EndsInText(v) == EndsInText(v.second)
  {}

  /** Where a reading ends, or how it fails. */
  function Outcome<T>(r: Result<(T, nat)>): Result<nat> {
    match r
    case Ok(x) => Ok(x.1)
    case Err => Err
    case Overrun => Overrun
  }

  lemma PairDecoded(less: Less, a: Ty, b: Ty, data: seq<byte>, pos: nat)
    requires TypeOk(a) && TypeOk(b)
    ensures var (first, whole) := (Decode(less, a, data, pos), Decode(less, Pair(a, b), data, pos));
      if !first.Ok? then Outcome(whole) == Outcome(first)
      else var second := Decode(less, b, data, first.value.1);
        if second.Ok? then whole == Ok((Two(first.value.0, second.value.0), second.value.1)) else Outcome(whole) == Outcome(second)
  {
    hide Read, Take, LittleEndian, DecodeContainer;
  }

  /** Reading back what was written, for every type and value, whatever follows in the buffer: the same value, and the
      position just behind it - unless it ends the buffer, which is then rewound. */
  lemma {:induction false} RoundTrip(less: Less, ty: Ty, v: Value, data: seq<byte>, pos: nat)
    requires TypeOk(ty) && Typed(less, ty, v) && Sized(v) && At(data, pos, Encode(v))
    ensures Decode(less, ty, data, pos) == Ok((v, After(data, pos + |Encode(v)|, v)))
    decreases v
  {
    hide SizeWord, LittleEndian, Collect, DecodeContainer, Take, AllTyped;
    match ty
    case Scalar(w) =>
    case Str => TextRoundTrip(v, data, pos);
    case ListOf(e) => ContainerRoundTrip(less, ty, e, v, data, pos);
    case SetOf(e) => ContainerRoundTrip(less, ty, e, v, data, pos);
    case MapOf(e) => ContainerRoundTrip(less, ty, e, v, data, pos);
    case Pair(a, b) => PairRoundTrip(less, a, b, v, data, pos);
  }

  lemma {:induction false} PairRoundTrip(less: Less, a: Ty, b: Ty, v: Value, data: seq<byte>, pos: nat)
    requires TypeOk(Pair(a, b)) && Typed(less, Pair(a, b), v) && Sized(v) && At(data, pos, Encode(v))
    ensures Decode(less, Pair(a, b), data, pos) == Ok((v, After(data, pos + |Encode(v)|, v)))
    decreases v, 0
  {
    hide TypeOk, Typed, Sized, Encode, Decode, At, EndsInText;
    PairParts(less, a, b, v);
    AtParts(data, pos, Encode(v.first), Encode(v.second));
    AtWithin(data, pos + |Encode(v.first)|, Encode(v.second));
    NeverEmpty(less, b, v.second);
    RoundTrip(less, a, v.first, data, pos);
    RoundTrip(less, b, v.second, data, pos + |Encode(v.first)|);
    PairDecoded(less, a, b, data, pos);
  }

  lemma AtWithin(data: seq<byte>, pos: nat, enc: seq<byte>)
    requires At(data, pos, enc)
    ensures pos + |enc| <= |data|
  {}

  lemma TextRoundTrip(v: Value, data: seq<byte>, pos: nat)
    requires v.Text? && Sized(v) && At(data, pos, Encode(v))
    ensures Decode((a, b) => false, Str, data, pos) == Ok((v, After(data, pos + |Encode(v)|, v)))
  {
    hide SizeWord, LittleEndian, At, Read;
    AtParts(data, pos, SizeWord(|v.bytes|), v.bytes);
    AtBytes(data, pos + 4, v.bytes);
    ReadSize(data, pos, |v.bytes|);
  }

  lemma ContainerParts(less: Less, ty: Ty, e: Ty, v: Value)
    requires TypeOk(ty) && Typed(less, ty, v) && Sized(v)
    requires ty == ListOf(e) || ty == SetOf(e) || ty == MapOf(e)
    ensures v.Many? && TypeOk(e) && AllTyped(less, e, v.items) && |v.items| < 0x1_0000_0000
    ensures Encode(v) == SizeWord(|v.items|) + EncodeFirst(v, |v.items|)
    ensures EncodeFirst(v, 0) == [] && EndsInText(v) == (v.items != [] && EndsInText(v.items[|v.items| - 1]))
    ensures ty.MapOf? ==> e.Pair? && forall i :: 0 <= i < |v.items| ==> v.items[i].Two?
    ensures Collect(less, ty, v.items) == v.items
  {
    hide Collect, SizeWord;
    CollectAscending(less, ty, v.items);
  }

  predicate AllTyped(less: Less, e: Ty, s: seq<Value>) {
    forall i :: 0 <= i < |s| ==> Typed(less, e, s[i])
  }

  lemma ContainerStands(v: Value, data: seq<byte>, pos: nat)
    requires v.Many? && Sized(v) && At(data, pos, Encode(v))
    ensures var n := |v.items|;
      && At(data, pos + 4, EncodeFirst(v, n)) && pos + 4 + |EncodeFirst(v, n)| <= |data|
      && Read(data, pos, 4) == Ok((SizeWord(n), if pos + 4 == |data| then 0 else pos + 4)) && LittleEndian(SizeWord(n)) == n
      && |Encode(v)| == 4 + |EncodeFirst(v, n)|
  {
    var n := |v.items|;
    assert Encode(v) == SizeWord(n) + EncodeFirst(v, n);
    hide Encode, EncodeFirst, Sized, SizeWord, LittleEndian, Read;
    AtParts(data, pos, SizeWord(n), EncodeFirst(v, n));
    ReadSize(data, pos, n);
  }

  lemma NoItems(less: Less, e: Ty, data: seq<byte>, pos: nat)
    requires TypeOk(e)
    ensures DecodeItems(less, e, data, pos, 0) == Ok(([], pos))
  {}

  lemma ContainerDone(less: Less, ty: Ty, e: Ty, v: Value, data: seq<byte>, pos: nat, next: nat, q: nat)
    requires TypeOk(e) && v.Many? && (ty.MapOf? ==> e.Pair?)
    requires Read(data, pos, 4) == Ok((SizeWord(|v.items|), next)) && LittleEndian(SizeWord(|v.items|)) == |v.items|
    requires DecodeItems(less, e, data, next, |v.items|) == Ok((v.items, q))
    requires (ty.MapOf? ==> forall i :: 0 <= i < |v.items| ==> v.items[i].Two?) && Collect(less, ty, v.items) == v.items
    ensures DecodeContainer(less, ty, e, data, pos) == Ok((v, q))
  {
    hide TypeOk, Read, SizeWord, LittleEndian, Collect, DecodeItems;
  }

  lemma EndsAlike(data: seq<byte>, end: nat, v: Value, w: Value)
    requires EndsInText(v) == EndsInText(w)
    ensures After(data, end, v) == After(data, end, w)
  {
    hide EndsInText;
  }

  lemma EndsOutsideText(data: seq<byte>, end: nat, v: Value)
    requires !EndsInText(v)
    ensures After(data, end, v) == if end == |data| then 0 else end
  {
    hide EndsInText;
  }

  lemma {:induction false} ContainerRoundTrip(less: Less, ty: Ty, e: Ty, v: Value, data: seq<byte>, pos: nat)
    requires TypeOk(ty) && Typed(less, ty, v) && Sized(v) && At(data, pos, Encode(v))
    requires ty == ListOf(e) || ty == SetOf(e) || ty == MapOf(e)
    ensures DecodeContainer(less, ty, e, data, pos) == Ok((v, After(data, pos + |Encode(v)|, v)))
    decreases v, |v.items| + 1
  {
    hide TypeOk, At, Read, SizeWord, LittleEndian, Collect, Typed, Sized, Encode, EncodeFirst, AllTyped;
    hide DecodeItems, DecodeContainer, EndsInText, After;
    ContainerParts(less, ty, e, v);
    ContainerStands(v, data, pos);
    var n, q := |v.items|, After(data, pos + |Encode(v)|, v);
    if n == 0 {
      EndsOutsideText(data, pos + 4, v);
      NoItems(less, e, data, q);
      ContainerDone(less, ty, e, v, data, pos, q, q);
    } else {
      ItemsRoundTrip(less, e, v, data, pos + 4, n);
      EndsAlike(data, pos + |Encode(v)|, v, v.items[n - 1]);
      assert v.items[..n] == v.items;
      ContainerDone(less, ty, e, v, data, pos, pos + 4, q);
    }
  }

  lemma NextItem(less: Less, e: Ty, data: seq<byte>, pos: nat, n: nat, s: seq<Value>, p: nat, x: Value, q: nat)
    requires TypeOk(e) && 0 < n <= |s| && s[n - 1] == x
    requires DecodeItems(less, e, data, pos, n - 1) == Ok((s[..n - 1], p)) && Decode(less, e, data, p) == Ok((x, q))
    ensures DecodeItems(less, e, data, pos, n) == Ok((s[..n], q))
  {
    hide TypeOk, Decode;
    assert s[..n] == s[..n - 1] + [x];
  }

  lemma ItemStands(less: Less, e: Ty, v: Value, data: seq<byte>, pos: nat, n: nat)
    requires TypeOk(e) && v.Many? && 0 < n <= |v.items| && AllTyped(less, e, v.items) && Sized(v)
    requires At(data, pos, EncodeFirst(v, n))
    ensures At(data, pos, EncodeFirst(v, n - 1)) && At(data, pos + |EncodeFirst(v, n - 1)|, Encode(v.items[n - 1]))
    ensures Typed(less, e, v.items[n - 1]) && Sized(v.items[n - 1])
    ensures pos + |EncodeFirst(v, n - 1)| < |data|
    ensures |EncodeFirst(v, n)| == |EncodeFirst(v, n - 1)| + |Encode(v.items[n - 1])|
    ensures EncodeFirst(v, 0) == []
  {
    NeverEmpty(less, e, v.items[n - 1]);
    AtParts(data, pos, EncodeFirst(v, n - 1), Encode(v.items[n - 1]));
    hide TypeOk, Encode, Typed;
  }

  lemma {:induction false} ItemsRoundTrip(less: Less, e: Ty, v: Value, data: seq<byte>, pos: nat, n: nat)
    requires TypeOk(e) && v.Many? && 0 < n <= |v.items| && AllTyped(less, e, v.items) && Sized(v)
    requires At(data, pos, EncodeFirst(v, n))
    ensures pos < |data|
    ensures DecodeItems(less, e, data, pos, n) == Ok((v.items[..n], After(data, pos + |EncodeFirst(v, n)|, v.items[n - 1])))
    decreases v, n
  {
    hide TypeOk, Decode, Typed, Encode, Sized, AllTyped, EncodeFirst, At, EndsInText, DecodeItems;
    ItemStands(less, e, v, data, pos, n);
    var x, p := v.items[n - 1], pos + |EncodeFirst(v, n - 1)|;
    RoundTrip(less, e, x, data, p);
    if n > 1 {
      ItemsRoundTrip(less, e, v, data, pos, n - 1);
    } else {
      NoItems(less, e, data, pos);
      assert v.items[..0] == [];
    }
    NextItem(less, e, data, pos, n, v.items, p, x, After(data, p + |Encode(x)|, x));
  }

  // ---------- limits ----------

  /** Writes in the order of the operators, each refused when it would reach the buffer's end: what the sender's buffer
      holds after writing v behind `out`, or nothing if it threw. */
  function Write(cap: nat, out: seq<byte>, b: seq<byte>): Result<seq<byte>> {
    if |out| + |b| >= cap then Err else Ok(out + b)
  }

  function WriteValue(cap: nat, out: seq<byte>, v: Value): Result<seq<byte>>
    decreases v
  {
    match v
    case Raw(b) => Write(cap, out, b)
    case Text(b) =>
      var r :- Write(cap, out, SizeWord(|b|));
      Write(cap, r, b)
    case Many(s) =>
      var r :- Write(cap, out, SizeWord(|s|));
      WriteFirst(cap, r, v, |s|)
    case Two(a, b) =>
      var r :- WriteValue(cap, out, a);
      WriteValue(cap, r, b)
  }

  function WriteFirst(cap: nat, out: seq<byte>, v: Value, n: nat): Result<seq<byte>>
    requires v.Many? && n <= |v.items|
    decreases v, n
  {
    if n == 0 then Ok(out)
    else
      var r :- WriteFirst(cap, out, v, n - 1);
      WriteValue(cap, r, v.items[n - 1])
  }

  /** Writing succeeds exactly when the buffer has room to spare for the whole value, and then appends its bytes. */
  lemma {:induction false} WriteSucceedsIff(cap: nat, out: seq<byte>, v: Value)
    requires |out| < cap
    ensures WriteValue(cap, out, v) == if |out| + |Encode(v)| < cap then Ok(out + Encode(v)) else Err
    decreases v
  {
    hide SizeWord;
    match v
    case Raw(b) =>
    case Text(b) => assert out + SizeWord(|b|) + b == out + Encode(v);
    case Many(s) =>
      var w := SizeWord(|s|);
      if |out| + 4 < cap {
        WriteFirstSucceedsIff(cap, out + w, v, |s|);
        assert out + w + EncodeFirst(v, |s|) == out + Encode(v);
      }
    case Two(a, b) =>
      WriteSucceedsIff(cap, out, a);
      if |out| + |Encode(a)| < cap {
        WriteSucceedsIff(cap, out + Encode(a), b);
        assert out + Encode(a) + Encode(b) == out + Encode(v);
      }
  }

  lemma {:induction false} WriteFirstSucceedsIff(cap: nat, out: seq<byte>, v: Value, n: nat)
    requires |out| < cap && v.Many? && n <= |v.items|
    ensures WriteFirst(cap, out, v, n) == if |out| + |EncodeFirst(v, n)| < cap then Ok(out + EncodeFirst(v, n)) else Err
    decreases v, n
  {
    if n == 0 {
      assert out + [] == out;
    } else {
      var e := EncodeFirst(v, n - 1);
      WriteFirstSucceedsIff(cap, out, v, n - 1);
      if |out| + |e| < cap {
        WriteSucceedsIff(cap, out + e, v.items[n - 1]);
        assert out + e + Encode(v.items[n - 1]) == out + EncodeFirst(v, n);
      }
    }
  }

  // ---------- whatever is read has the type asked for ----------

  ghost predicate Transitive(less: Less) {
    forall a, b, c :: less(a, b) && less(b, c) ==> less(a, c)
  }

  lemma InsertKeeps(less: Less, s: seq<Value>, v: Value)
    requires Transitive(less) && Ascending(less, s)
    ensures Ascending(less, Insert(less, s, v))
    ensures forall x :: x in Insert(less, s, v) ==> x in s || x == v
  {
    var i := LowerBound(less, s, v);
    if !(i < |s| && !less(v, s[i])) {
      var r := s[..i] + [v] + s[i..];
      forall j, k | 0 <= j < k < |r|
        ensures less(r[j], r[k])
      {
        if j == i && k > i + 1 {
          assert less(v, s[i]) && less(s[i], s[k - 1]);
        }
      }
    }
  }

  lemma AssignOrdered(less: Less, s: seq<Value>, v: Value)
    requires Transitive(less) && KeysAscending(less, s) && v.Two?
    ensures KeysAscending(less, Assign(less, s, v))
  {
    var i := LowerBound(less, Keys(s), v.first);
    var r := Assign(less, s, v);
    hide LowerBound, Assign;
    if i < |s| && !less(v.first, Key(s[i])) {
      assert forall j :: 0 <= j < |s| ==> Key(r[j]) == Key(s[j]);
    } else {
      forall j, k | 0 <= j < k < |r|
        ensures less(Key(r[j]), Key(r[k]))
      {
        if j == i && k > i + 1 {
          assert less(v.first, Key(s[i])) && less(Key(s[i]), Key(s[k - 1]));
        } else if j < i && k == i {
          assert less(Keys(s)[j], v.first);
        }
      }
    }
  }

  /** Where the parts of the entries come from. */
  lemma AssignParts(less: Less, s: seq<Value>, v: Value)
    requires v.Two? && forall i :: 0 <= i < |s| ==> s[i].Two?
    ensures forall x :: x in Assign(less, s, v) ==> x.Two? && x.second in Seconds(s) + [v.second] && Key(x) in Keys(s) + [v.first]
  {
    var i := LowerBound(less, Keys(s), v.first);
    var r := Assign(less, s, v);
    var replaced := i < |s| && !less(v.first, Key(s[i]));
    assert r == if replaced then s[i := Two(Key(s[i]), v.second)] else s[..i] + [v] + s[i..];
    hide LowerBound, Assign;
    forall j | 0 <= j < |r|
      ensures r[j].Two? && r[j].second in Seconds(s) + [v.second] && Key(r[j]) in Keys(s) + [v.first]
    {
      var m := if replaced || j < i then j else j - 1;
      if j != i {
        assert Keys(s)[m] == Key(r[j]) && Seconds(s)[m] == r[j].second;
      } else if replaced {
        assert Keys(s)[i] == Key(r[i]);
      }
    }
  }

  function Seconds(s: seq<Value>): (r: seq<Value>)
    requires forall i :: 0 <= i < |s| ==> s[i].Two?
    ensures |r| == |s|
    ensures forall i :: 0 <= i < |s| ==> r[i] == s[i].second
  {
    seq(|s|, i requires 0 <= i < |s| => s[i].second)
  }

  predicate AllSized(s: seq<Value>) {
    forall i :: 0 <= i < |s| ==> Sized(s[i])
  }

  lemma AssignTyped(less: Less, e: Ty, s: seq<Value>, v: Value)
    requires Transitive(less) && e.Pair? && Typed(less, e, v) && Sized(v)
    requires KeysAscending(less, s) && AllTyped(less, e, s) && AllSized(s)
    ensures var r := Assign(less, s, v); KeysAscending(less, r) && AllTyped(less, e, r) && AllSized(r) && |r| <= |s| + 1
  {
    assert forall i :: 0 <= i < |s| ==> Typed(less, e, s[i]) && Sized(s[i]);
    AssignOrdered(less, s, v);
    AssignParts(less, s, v);
    var r := Assign(less, s, v);
    forall i | 0 <= i < |r|
      ensures Typed(less, e, r[i]) && Sized(r[i])
    {
      assert r[i] in r;
      assert Key(r[i]) in Keys(s) + [v.first] && r[i].second in Seconds(s) + [v.second];
      FromParts(less, e, s, v, r[i]);
    }
  }

  lemma FromParts(less: Less, e: Ty, s: seq<Value>, v: Value, x: Value)
    requires e.Pair? && Typed(less, e, v) && Sized(v) && AllTyped(less, e, s) && AllSized(s)
    requires x.Two? && x.first in Keys(s) + [v.first] && x.second in Seconds(s) + [v.second]
    ensures Typed(less, e, x) && Sized(x)
  {
    var i :| 0 <= i < |s| + 1 && (Keys(s) + [v.first])[i] == x.first;
    var j :| 0 <= j < |s| + 1 && (Seconds(s) + [v.second])[j] == x.second;
    if i < |s| {
      assert Typed(less, e, s[i]) && Sized(s[i]);
    }
    if j < |s| {
      assert Typed(less, e, s[j]) && Sized(s[j]);
    }
  }

  lemma InsertTyped(less: Less, e: Ty, s: seq<Value>, v: Value)
    requires Transitive(less) && Typed(less, e, v) && Sized(v)
    requires Ascending(less, s) && AllTyped(less, e, s) && AllSized(s)
    ensures var r := Insert(less, s, v); Ascending(less, r) && AllTyped(less, e, r) && AllSized(r) && |r| <= |s| + 1
  {
    hide Typed, Sized, Ascending, Transitive, Insert;
    InsertKeeps(less, s, v);
    InsertSize(less, s, v);
    var r := Insert(less, s, v);
    forall i | 0 <= i < |r|
      ensures Typed(less, e, r[i]) && Sized(r[i])
    {
      assert r[i] in r;
    }
  }

  lemma InsertSize(less: Less, s: seq<Value>, v: Value)
    ensures |Insert(less, s, v)| <= |s| + 1
  {}

  lemma NothingAscends(less: Less)
    ensures Ascending(less, []) && KeysAscending(less, [])
  {}

  lemma AllButLast(less: Less, e: Ty, read: seq<Value>)
    requires read != [] && AllTyped(less, e, read) && AllSized(read)
    ensures var r, x := read[..|read| - 1], read[|read| - 1];
      AllTyped(less, e, r) && AllSized(r) && Typed(less, e, x) && Sized(x)
  {
    hide Typed, Sized;
  }

  lemma {:induction false} CollectTyped(less: Less, ty: Ty, e: Ty, read: seq<Value>)
    requires ty == ListOf(e) || ty == SetOf(e) || (ty == MapOf(e) && e.Pair?)
    requires Transitive(less) && AllTyped(less, e, read) && AllSized(read)
    requires ty.MapOf? ==> forall i :: 0 <= i < |read| ==> read[i].Two?
    ensures var s := Collect(less, ty, read);
      && AllTyped(less, e, s) && AllSized(s) && |s| <= |read|
      && (ty.SetOf? ==> Ascending(less, s)) && (ty.MapOf? ==> KeysAscending(less, s))
  {
    hide Typed, Sized, AllTyped, AllSized, Insert, Assign, Ascending, KeysAscending, Transitive;
    if read == [] {
      NothingAscends(less);
    } else if !ty.ListOf? {
      var r, x := read[..|read| - 1], read[|read| - 1];
      AllButLast(less, e, read);
      CollectTyped(less, ty, e, r);
      var s := Collect(less, ty, r);
      if ty.MapOf? {
        AssignTyped(less, e, s, x);
      } else {
        InsertTyped(less, e, s, x);
      }
    }
  }

  /** Whatever bytes arrive, what is read without an exception is a value of the type asked for, sets and maps in order. */
  lemma {:induction false} DecodedIsTyped(less: Less, ty: Ty, data: seq<byte>, pos: nat)
    requires Transitive(less) && TypeOk(ty) && pos <= |data| && Decode(less, ty, data, pos).Ok?
    ensures var (v, p) := Decode(less, ty, data, pos).value; Typed(less, ty, v) && Sized(v) && p <= |data|
    decreases ty, 0, 0
  {
    hide Collect, Typed, Sized, Read;
    match ty
    case Scalar(w) => ScalarTyped(less, w, data, pos);
    case Str => TextTyped(less, data, pos);
    case ListOf(e) => ContainerTyped(less, ty, e, data, pos);
    case SetOf(e) => ContainerTyped(less, ty, e, data, pos);
    case MapOf(e) => ContainerTyped(less, ty, e, data, pos);
    case Pair(a, b) =>
      DecodedIsTyped(less, a, data, pos);
      var (x, p) := Decode(less, a, data, pos).value;
      DecodedIsTyped(less, b, data, p);
      PairTyped(less, a, b, x, Decode(less, b, data, p).value.0);
  }

  lemma PairTyped(less: Less, a: Ty, b: Ty, x: Value, y: Value)
    requires Typed(less, a, x) && Sized(x) && Typed(less, b, y) && Sized(y)
    ensures Typed(less, Pair(a, b), Two(x, y)) && Sized(Two(x, y))
  {}

  lemma ScalarTyped(less: Less, w: nat, data: seq<byte>, pos: nat)
    requires Read(data, pos, w).Ok?
    ensures var (b, p) := Read(data, pos, w).value; Typed(less, Scalar(w), Raw(b)) && Sized(Raw(b)) && p <= |data|
  {}

  lemma SizeRead(data: seq<byte>, pos: nat)
    requires Read(data, pos, 4).Ok?
    ensures var (b, p) := Read(data, pos, 4).value; LittleEndian(b) < 0x1_0000_0000 && p <= |data|
  {
    assert Power256(4) == 0x1_0000_0000 by { assert Power256(4) == 0x100 * (0x100 * (0x100 * 0x100)); }
    hide LittleEndian;
  }

  lemma TextTyped(less: Less, data: seq<byte>, pos: nat)
    requires Decode(less, Str, data, pos).Ok?
    ensures var (v, p) := Decode(less, Str, data, pos).value; Typed(less, Str, v) && Sized(v) && p <= |data|
  {
    SizeRead(data, pos);
    hide LittleEndian;
  }

  lemma ContainerIs(less: Less, ty: Ty, e: Ty, s: seq<Value>)
    requires ty == ListOf(e) || ty == SetOf(e) || (ty == MapOf(e) && e.Pair?)
    requires AllTyped(less, e, s) && AllSized(s) && |s| < 0x1_0000_0000
    requires (ty.SetOf? ==> Ascending(less, s)) && (ty.MapOf? ==> KeysAscending(less, s))
    ensures Typed(less, ty, Many(s)) && Sized(Many(s))
  {
    assert forall i :: 0 <= i < |s| ==> Typed(less, e, s[i]) && Sized(s[i]);
  }

  lemma {:induction false} ContainerTyped(less: Less, ty: Ty, e: Ty, data: seq<byte>, pos: nat)
    requires ty == ListOf(e) || ty == SetOf(e) || ty == MapOf(e)
    requires Transitive(less) && TypeOk(ty) && DecodeContainer(less, ty, e, data, pos).Ok?
    ensures var (v, p) := DecodeContainer(less, ty, e, data, pos).value; Typed(less, ty, v) && Sized(v) && p <= |data|
    decreases e, 2, 0
  {
    hide Typed, Sized, AllTyped, AllSized, Collect, LittleEndian, DecodeItems, Read;
    SizeRead(data, pos);
    var (b, p) := Read(data, pos, 4).value;
    ItemsTyped(less, e, data, p, LittleEndian(b));
    var read := DecodeItems(less, e, data, p, LittleEndian(b)).value.0;
    CollectTyped(less, ty, e, read);
    ContainerIs(less, ty, e, Collect(less, ty, read));
  }

  lemma {:induction false} ItemsTyped(less: Less, e: Ty, data: seq<byte>, pos: nat, n: nat)
    requires Transitive(less) && TypeOk(e) && pos <= |data| && DecodeItems(less, e, data, pos, n).Ok?
    ensures var (s, p) := DecodeItems(less, e, data, pos, n).value; AllTyped(less, e, s) && AllSized(s) && p <= |data|
    decreases e, 1, n
  {
    hide Typed, Sized, Decode;
    if n > 0 {
      ItemsTyped(less, e, data, pos, n - 1);
      var (s, p) := DecodeItems(less, e, data, pos, n - 1).value;
      DecodedIsTyped(less, e, data, p);
    }
  }

  /** Reading is canonical: writing a value that was read, from whatever bytes, and reading it again changes nothing. */
  lemma ReadIsStable(less: Less, ty: Ty, data: seq<byte>, pos: nat, rest: seq<byte>)
    requires Transitive(less) && TypeOk(ty) && pos <= |data| && Decode(less, ty, data, pos).Ok?
    ensures var v := Decode(less, ty, data, pos).value.0;
      var again := Decode(less, ty, Encode(v) + rest, 0);
      again.Ok? && again.value.0 == v
  {
    var v := Decode(less, ty, data, pos).value.0;
    DecodedIsTyped(less, ty, data, pos);
    hide Decode, Typed, Sized, Encode;
    assert (Encode(v) + rest)[0..0 + |Encode(v)|] == Encode(v);
    RoundTrip(less, ty, v, Encode(v) + rest, 0);
  }
}
