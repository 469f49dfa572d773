/** PacketSn and PacketUsn as objects over their buffers, with the loops of the container operators. */
module PacketStreams {
  import opened Bytes
  import opened Packet

  /** thread_send_buffer. */
  class SendBuffer {
    const buff: array<byte>
    var pos: nat

    ghost predicate Valid()
      reads this
    {
      pos < buff.Length
    }

    ghost function Contents(): seq<byte>
      requires Valid()
      reads this, buff
    {
      buff[..pos]
    }

    constructor (maxLength: nat)
      requires maxLength > 0
      ensures Valid() && fresh(buff) && buff.Length == maxLength && Contents() == []
    {
      buff := new byte[maxLength](_ => 0);
      pos := 0;
    }

    /** False stands for the exception. */
    method Write(item: seq<byte>) returns (ok: bool)
      requires Valid()
      modifies this, buff
      ensures Valid()
      ensures ok == Packet.Write(buff.Length, old(Contents()), item).Ok?
      ensures Contents() == if ok then Packet.Write(buff.Length, old(Contents()), item).value else old(Contents())
    {
      if pos + |item| >= buff.Length {
        return false;
      }
      var i := 0;
      while i < |item|
        invariant 0 <= i <= |item| && pos + |item| < buff.Length
        invariant buff[..pos] == old(buff[..pos]) && buff[pos..pos + i] == item[..i]
      {
        buff[pos + i] := item[i];
        i := i + 1;
      }
      assert item[..i] == item;
      assert buff[..pos + |item|] == buff[..pos] + buff[pos..pos + |item|];
      pos := pos + |item|;
      ok := true;
    }
  }

  class PacketSn {
    const buffer: SendBuffer

    constructor (buffer: SendBuffer)
      ensures this.buffer == buffer
    {
      this.buffer := buffer;
    }

    /** operator<<, for every type: exactly the bytes of the value are appended, or false for the exception. */
    method Put(v: Value) returns (ok: bool)
      requires buffer.Valid()
      modifies buffer, buffer.buff
      ensures buffer.Valid()
      ensures ok == (|old(buffer.Contents())| + |Encode(v)| < buffer.buff.Length)
      ensures ok ==> buffer.Contents() == old(buffer.Contents()) + Encode(v)
      decreases v
    {
      ghost var cap, out := buffer.buff.Length, buffer.Contents();
      WriteSucceedsIff(cap, out, v);
      hide Encode, SizeWord;
      match v
      case Raw(b) =>
        ok := buffer.Write(b);
      case Text(b) =>
        ok := buffer.Write(SizeWord(|b|));
        if ok {
          ok := buffer.Write(b);
        }
      case Many(s) =>
        ok := buffer.Write(SizeWord(|s|));
        if ok {
          ok := PutItems(v);
        }
      case Two(a, b) =>
        WriteSucceedsIff(cap, out, a);
        ok := Put(a);
        if ok {
          WriteSucceedsIff(cap, out + Encode(a), b);
          ok := Put(b);
        }
    }

    /** The loop of the container operators. */
    method PutItems(v: Value) returns (ok: bool)
      requires buffer.Valid() && v.Many?
      modifies buffer, buffer.buff
      ensures buffer.Valid()
      ensures var r := WriteFirst(buffer.buff.Length, old(buffer.Contents()), v, |v.items|);
        ok == r.Ok? && (ok ==> buffer.Contents() == r.value)
      decreases v, 0
    {
      ghost var cap, out := buffer.buff.Length, buffer.Contents();
      hide Encode, EncodeFirst;
      WriteFirstSucceedsIff(cap, out, v, |v.items|);
      var i := 0;
      while i < |v.items|
        invariant 0 <= i <= |v.items| && buffer.Valid()
        invariant WriteFirst(cap, out, v, i) == Ok(buffer.Contents())
      {
        WriteSucceedsIff(cap, buffer.Contents(), v.items[i]);
        ok := Put(v.items[i]);
        if !ok {
          Stuck(cap, out, v, i + 1, |v.items|);
          return;
        }
        i := i + 1;
      }
      ok := true;
    }

    static lemma {:induction false} Stuck(cap: nat, out: seq<byte>, v: Value, i: nat, n: nat)
      requires v.Many? && i <= n <= |v.items| && WriteFirst(cap, out, v, i) == Err
      ensures WriteFirst(cap, out, v, n) == Err
    {
      if i < n {
        Stuck(cap, out, v, i, n - 1);
      }
    }
  }

  /** thread_recv_buffer. */
  class RecvBuffer {
    const data: seq<byte>
    var pos: nat

    constructor (data: seq<byte>)
      ensures this.data == data && pos == 0
    {
      this.data, pos := data, 0;
    }

    method Read(n: nat) returns (r: Result<seq<byte>>)
      modifies this
      ensures match Packet.Read(data, old(pos), n)
        case Ok(x) => r == Ok(x.0) && pos == x.1
        case Err => r == Err
        case Overrun => r == Overrun
    {
      if pos + n > |data| {
        return Err;
      }
      r := Ok(data[pos..pos + n]);
      pos := pos + n;
      if pos == |data| {
        pos := 0;
      }
    }

    /** getBegin, the string's copy, and addReadLen. The copy is made whatever is left; once it has read behind the
        packet nothing more is claimed, and the position, which then wraps at 2^32, is not followed. */
    method Take(n: nat) returns (r: Result<seq<byte>>)
      modifies this
      ensures match Packet.Take(data, old(pos), n)
        case Ok(x) => r == Ok(x.0) && pos == x.1
        case Err => r == Err
        case Overrun => r == Overrun
    {
      if pos + n > |data| {
        return Overrun;
      }
      r := Ok(data[pos..pos + n]);
      pos := pos + n;
    }
  }

  class PacketUsn {
    const buffer: RecvBuffer
    const less: Less

    constructor (buffer: RecvBuffer, less: Less)
      ensures this.buffer == buffer && this.less == less
    {
      this.buffer, this.less := buffer, less;
    }

    /** operator>>, for every type, into an object that holds `prop`: what comes out - a value, an exception, or a string
        that overruns the packet - depends on the bytes alone. */
    method Get(ty: Ty, prop: Value) returns (r: Result<Value>)
      requires TypeOk(ty)
      modifies buffer
      ensures match Decode(less, ty, buffer.data, old(buffer.pos))
        case Ok(x) => r == Ok(x.0) && buffer.pos == x.1
        case Err => r == Err
        case Overrun => r == Overrun
      decreases ty, 0
    {
      hide LittleEndian, Collect;
      match ty
      case Scalar(w) =>
        var b :- buffer.Read(w);
        return Ok(Raw(b));
      case Str =>
        var n :- buffer.Read(4);
        var b :- buffer.Take(LittleEndian(n));
        return Ok(Text(b));
      case ListOf(e) => r := GetContainer(ty, e, prop);
      case SetOf(e) => r := GetContainer(ty, e, prop);
      case MapOf(e) => r := GetContainer(ty, e, prop);
      case Pair(a, b) =>
        var x :- Get(a, if prop.Two? then prop.first else prop);
        var y :- Get(b, if prop.Two? then prop.second else prop);
        return Ok(Two(x, y));
    }

    /** A container operator: the size, the old contents dropped, then the elements. */
    method GetContainer(ty: Ty, e: Ty, prop: Value) returns (r: Result<Value>)
      requires TypeOk(e) && (ty.MapOf? ==> e.Pair?)
      modifies buffer
      ensures match DecodeContainer(less, ty, e, buffer.data, old(buffer.pos))
        case Ok(x) => r == Ok(x.0) && buffer.pos == x.1
        case Err => r == Err
        case Overrun => r == Overrun
      decreases e, 2
    {
      hide LittleEndian, Collect, DecodeItems;
      var word :- buffer.Read(4);
      var items :- GetItems(ty, e, prop, LittleEndian(word));
      return Ok(Many(items));
    }

    /** The loop: one temporary, first holding anything, serves all elements. */
    method GetItems(ty: Ty, e: Ty, prop: Value, n: nat) returns (r: Result<seq<Value>>)
      requires TypeOk(e) && (ty.MapOf? ==> e.Pair?)
      modifies buffer
      ensures match DecodeItems(less, e, buffer.data, old(buffer.pos), n)
        case Ok(x) => r == Ok(Collect(less, ty, x.0)) && buffer.pos == x.1
        case Err => r == Err
        case Overrun => r == Overrun
      decreases e, 1
    {
      hide TypeOk, Decode, Collect, Add;
      ghost var start := buffer.pos;
      ghost var read: seq<Value> := [];
      var items: seq<Value> := [];
      var temp := prop;
      var i := 0;
      CollectNone(ty);
      while i < n
        invariant 0 <= i <= n
        invariant DecodeItems(less, e, buffer.data, start, i) == Ok((read, buffer.pos))
        invariant items == CollectOf(ty, read)
      {
        var x := Get(e, temp);
        if !x.Ok? {
          hide CollectOf;
          Stuck(e, start, i + 1, n);
          return x.PropagateFailure();
        }
        temp := x.value;
        CollectNext(ty, e, read, temp);
        items := Add(ty, items, temp);
        read := read + [temp];
        i := i + 1;
      }
      r := Ok(items);
    }

    ghost function CollectOf(ty: Ty, read: seq<Value>): seq<Value> {
      if ty.MapOf? && exists i :: 0 <= i < |read| && !read[i].Two? then [] else Collect(less, ty, read)
    }

    lemma CollectNone(ty: Ty)
      ensures CollectOf(ty, []) == []
    {}

    /** push_back, insert, or assignment under the key. */
    function Add(ty: Ty, items: seq<Value>, x: Value): seq<Value>
      requires ty.MapOf? ==> x.Two?
    {
      if ty.MapOf? then Assign(less, items, x) else if ty.ListOf? then items + [x] else Insert(less, items, x)
    }

    lemma CollectNext(ty: Ty, e: Ty, read: seq<Value>, x: Value)
      requires ty.MapOf? ==> x.Two? && forall j :: 0 <= j < |read| ==> read[j].Two?
      ensures CollectOf(ty, read + [x]) == Add(ty, CollectOf(ty, read), x)
    {
      assert (read + [x])[..|read|] == read;
    }

    lemma {:induction false} Stuck(e: Ty, start: nat, i: nat, n: nat)
      requires TypeOk(e) && i <= n && !DecodeItems(less, e, buffer.data, start, i).Ok?
      ensures DecodeItems(less, e, buffer.data, start, n) == DecodeItems(less, e, buffer.data, start, i)
    {
      if i < n {
        Stuck(e, start, i, n - 1);
      }
    }
  }
}
