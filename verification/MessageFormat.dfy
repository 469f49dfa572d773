/** message_interface.cpp: the ten-byte header (length, mask, CRC), optional compression, and the
    receiver's decoding of one frame. */
module MessageFormat {
  import opened Bytes
  import opened Framing
  import Crc32

  const MESSAGE_COMPRESS_LEN: nat := 512

  /** The bit of a mask's high byte that marks a compressed payload. */
  const COMPRESS_BIT: byte := 0x80

  /** A compression library: both directions may fail. */
  datatype Strategy = Strategy(
    compress: seq<byte> -> Option<seq<byte>>,
    uncompress: seq<byte> -> Option<seq<byte>>)

  /** What makeMessage writes into a freshly allocated block whose first ten bytes happen to hold `stale`.
      A payload of fewer than two bytes leaves the header as it was; the mask is only ever or-ed. */
  function Make(stale: seq<byte>, data: seq<byte>, compressed: bool): (frame: seq<byte>)
    requires |stale| == MESSAGE_HEAD_LEN
    ensures |frame| == |data| + MESSAGE_HEAD_LEN
  {
    if |data| > 1 then
      LittleEndianBytes(|data| + MESSAGE_HEAD_LEN, 4)
      + [stale[4], if compressed then stale[5] | COMPRESS_BIT else stale[5]]
      + WordBytes(Crc32.Crc(0, data)) + data
    else stale + data
  }

  /** message_interface::compress: the payload that travels, and whether it is compressed. */
  function Pack(strategy: Option<Strategy>, data: seq<byte>): (seq<byte>, bool) {
    if |data| > MESSAGE_COMPRESS_LEN && strategy.Some? then
      match strategy.value.compress(data)
      case Some(c) => if |c| < |data| then (c, true) else (data, false)
      case None => (data, false)
    else (data, false)
  }

  /** A payload of at most 512 bytes travels as it is, a longer one compressed exactly if the library makes it shorter. */
  lemma PackIff(strategy: Option<Strategy>, data: seq<byte>)
    ensures var (payload, compressed) := Pack(strategy, data);
      && (!compressed ==> payload == data)
      && (compressed ==> |payload| < |data| && strategy.value.compress(data) == Some(payload))
      && (compressed <==> |data| > 512 && strategy.Some? && strategy.value.compress(data).Some?
                          && |strategy.value.compress(data).value| < |data|)
  {}

  function Compress(strategy: Option<Strategy>, stale: seq<byte>, data: seq<byte>): seq<byte>
    requires |stale| == MESSAGE_HEAD_LEN
  {
    var (payload, compressed) := Pack(strategy, data);
    Make(stale, payload, compressed)
  }

  predicate Flagged(frame: seq<byte>)
    requires |frame| >= MESSAGE_HEAD_LEN
  {
    frame[5] & COMPRESS_BIT == COMPRESS_BIT
  }

  /** message_interface::uncompress on one frame (the CRC comparison is commented out in the source). */
  function Uncompress(strategy: Option<Strategy>, frame: seq<byte>): Option<seq<byte>> {
    if |frame| < MESSAGE_HEAD_LEN then None
    else if Flagged(frame) && strategy.Some? then strategy.value.uncompress(frame[MESSAGE_HEAD_LEN..])
    else Some(frame[MESSAGE_HEAD_LEN..])
  }

  function DecoderOf(strategy: Option<Strategy>): Decoder {
    frame => Uncompress(strategy, frame)
  }

  lemma FlagBit(b: byte)
    ensures (b | COMPRESS_BIT) & COMPRESS_BIT == COMPRESS_BIT
  {}

  /** Header of a message of at least two bytes: a truthful length, the payload behind it, and a compression
      flag that is set if asked for or if it was already set in the stale memory. */
  lemma MadeHeader(stale: seq<byte>, data: seq<byte>, compressed: bool)
    requires |stale| == MESSAGE_HEAD_LEN && 1 < |data| <= MAX_MESSAGE_LEN - MESSAGE_HEAD_LEN
    ensures var frame := Make(stale, data, compressed);
      && WholeFrame(frame)
      && frame[MESSAGE_HEAD_LEN..] == data
      && Word(frame[6..MESSAGE_HEAD_LEN]) == Crc32.Crc(0, data)
      && (Flagged(frame) <==> compressed || stale[5] & COMPRESS_BIT == COMPRESS_BIT)
  {
    hide Crc32.Crc, Word, WordBytes, ByteOf, ByteValue;
    WordRoundTrip(Crc32.Crc(0, data));
    var frame := Make(stale, data, compressed);
    var n := |data| + MESSAGE_HEAD_LEN;
    WordFits(n);
    LittleEndianRoundTrip(n, 4);
    assert frame[..4] == LittleEndianBytes(n, 4);
    assert frame[6..MESSAGE_HEAD_LEN] == WordBytes(Crc32.Crc(0, data));
    FlagBit(stale[5]);
  }

  /** What the receiver makes of a frame built by makeMessage. */
  lemma UncompressMade(strategy: Option<Strategy>, stale: seq<byte>, data: seq<byte>, compressed: bool)
    requires |stale| == MESSAGE_HEAD_LEN && 1 < |data| <= MAX_MESSAGE_LEN - MESSAGE_HEAD_LEN
    ensures Uncompress(strategy, Make(stale, data, compressed)) ==
      if (compressed || stale[5] & COMPRESS_BIT == COMPRESS_BIT) && strategy.Some? then strategy.value.uncompress(data)
      else Some(data)
  {
    MadeHeader(stale, data, compressed);
  }

  /** The library inverts itself on everything it shrinks. */
  ghost predicate Lawful(s: Strategy) {
    forall d: seq<byte> {:trigger s.compress(d)} :: s.compress(d).Some? && |s.compress(d).value| < |d| ==>
      s.uncompress(s.compress(d).value) == Some(d)
  }

  /** The stale mask memory already had the compression flag. */
  predicate Dirty(stale: seq<byte>)
    requires |stale| == MESSAGE_HEAD_LEN
  {
    stale[5] & COMPRESS_BIT == COMPRESS_BIT
  }

  /** The receiver's framing accepts the frame of this payload: it fits, and its length field is right - written for two
      bytes or more, whatever the memory held for fewer. */
  predicate Framed(stale: seq<byte>, payload: seq<byte>)
    requires |stale| == MESSAGE_HEAD_LEN
  {
    && |payload| + MESSAGE_HEAD_LEN <= MAX_MESSAGE_LEN
    && (|payload| <= 1 ==> LittleEndian(stale[..4]) == |payload| + MESSAGE_HEAD_LEN)
  }

  /** What the receiver makes of the payload. */
  function Opened(strategy: Option<Strategy>, stale: seq<byte>, payload: seq<byte>, compressed: bool): Option<seq<byte>>
    requires |stale| == MESSAGE_HEAD_LEN
  {
    if strategy.Some? && (Dirty(stale) || (compressed && |payload| > 1)) then strategy.value.uncompress(payload) else Some(payload)
  }

  lemma ShortFrame(stale: seq<byte>, data: seq<byte>, compressed: bool)
    requires |stale| == MESSAGE_HEAD_LEN && |data| <= 1
    ensures var frame := Make(stale, data, compressed);
      && frame[..4] == stale[..4] && frame[MESSAGE_HEAD_LEN..] == data && (Flagged(frame) <==> Dirty(stale))
  {
    var frame := Make(stale, data, compressed);
    assert frame[..4] == stale[..4] && frame[5] == stale[5];
  }

  lemma LongFrame(stale: seq<byte>, data: seq<byte>, compressed: bool)
    requires |stale| == MESSAGE_HEAD_LEN && |data| > MAX_MESSAGE_LEN - MESSAGE_HEAD_LEN
    ensures !WholeFrame(Make(stale, data, compressed))
  {}

  /** A frame made of any payload comes back as `data` exactly when the framing accepts it and the payload opens to data. */
  lemma MadeArrivesIff(strategy: Option<Strategy>, stale: seq<byte>, payload: seq<byte>, compressed: bool, data: seq<byte>)
    requires |stale| == MESSAGE_HEAD_LEN
    ensures FrameOf(DecoderOf(strategy), Make(stale, payload, compressed), data) <==>
      Framed(stale, payload) && Opened(strategy, stale, payload, compressed) == Some(data)
  {
    if |payload| > MAX_MESSAGE_LEN - MESSAGE_HEAD_LEN {
      LongFrame(stale, payload, compressed);
    } else if |payload| > 1 {
      MadeHeader(stale, payload, compressed);
    } else {
      ShortFrame(stale, payload, compressed);
    }
    hide Make, LittleEndian;
  }

  /** Message round trip, for every payload length send_message accepts, with the exact condition under which it holds:
      the packed payload fits a frame of its own length; it has two bytes or more, or the stale length field happens to
      be right; and, if it is compressed, the flag is seen - written for two bytes or more, stale for fewer - or, if it
      is plain, no library takes it for compressed or the library turns it into itself. */
  lemma MessageRoundTrip(strategy: Option<Strategy>, stale: seq<byte>, data: seq<byte>)
    requires |stale| == MESSAGE_HEAD_LEN && 0 < |data| <= MAX_MESSAGE_LEN - 1
    requires strategy.Some? ==> Lawful(strategy.value)
    ensures var (payload, compressed) := Pack(strategy, data);
      FrameOf(DecoderOf(strategy), Compress(strategy, stale, data), data) <==>
        && Framed(stale, payload)
        && if compressed then |payload| > 1 || Dirty(stale)
           else strategy == None || !Dirty(stale) || strategy.value.uncompress(data) == Some(data)
  {
    hide FrameOf, Make, Framed, Dirty, LittleEndian;
    var (payload, compressed) := Pack(strategy, data);
    MadeArrivesIff(strategy, stale, payload, compressed, data);
  }

  /** The same for a session that does not compress, under a library that other sessions of the process may use. */
  lemma PlainRoundTrip(strategy: Option<Strategy>, stale: seq<byte>, data: seq<byte>)
    requires |stale| == MESSAGE_HEAD_LEN && 0 < |data| <= MAX_MESSAGE_LEN - 1
    ensures FrameOf(DecoderOf(strategy), Make(stale, data, false), data) <==>
      && Framed(stale, data)
      && (strategy == None || !Dirty(stale) || strategy.value.uncompress(data) == Some(data))
  {
    hide FrameOf, Make, Framed, Dirty, LittleEndian;
    MadeArrivesIff(strategy, stale, data, false, data);
  }

  /** A payload of at most one byte is sent with whatever header the memory held: it is framed only if the stale length
      field is right by accident, and comes back only if, besides, no library takes it for compressed. */
  lemma ShortPayload(strategy: Option<Strategy>, stale: seq<byte>, data: seq<byte>)
    requires |stale| == MESSAGE_HEAD_LEN && |data| <= 1
    ensures WholeFrame(Make(stale, data, false)) <==> LittleEndian(stale[..4]) == |data| + MESSAGE_HEAD_LEN
    ensures FrameOf(DecoderOf(strategy), Make(stale, data, false), data) <==>
      && LittleEndian(stale[..4]) == |data| + MESSAGE_HEAD_LEN
      && (strategy == None || !Dirty(stale) || strategy.value.uncompress(data) == Some(data))
  {
    ShortFrame(stale, data, false);
    MadeArrivesIff(strategy, stale, data, false, data);
    hide LittleEndian;
  }

  /** A two-byte message from memory whose mask byte was dirty is refused by a receiver with a library that rejects it. */
  lemma DirtyMaskIsRejected()
    ensures var stale := [0, 0, 0, 0, 0, 0x80, 0, 0, 0, 0];
      var s := Strategy(d => None, d => None);
      Lawful(s) && Parse(DecoderOf(Some(s)), Compress(Some(s), stale, [1, 2])).status == Rejected
  {
    var stale: seq<byte> := [0, 0, 0, 0, 0, 0x80, 0, 0, 0, 0];
    var s := Strategy(d => None, d => None);
    var f := Compress(Some(s), stale, [1, 2]);
    MadeHeader(stale, [1, 2], false);
    UncompressMade(Some(s), stale, [1, 2], false);
    ParseHead(DecoderOf(Some(s)), f, []);
    assert f + [] == f;
  }
}
