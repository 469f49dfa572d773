/** The wire format of a message and the greedy parse of a byte stream into messages:
    the specification side of tcp_session's receiving half. */
module Framing {
  import opened Bytes

  const MESSAGE_HEAD_LEN: nat := 10
  const MAX_MESSAGE_LEN: nat := 65000

  /** Turns one whole frame into the message handed to the application, or rejects it. */
  type Decoder = seq<byte> -> Option<seq<byte>>

  /** What became of the reading side: still open, closed and banned for a bad length,
      or closed and banned because the decoder refused a frame. */
  datatype Status = Open | BadLength | Rejected

  /** Messages delivered so far, the verdict, and (while open) the bytes of the incomplete last frame. */
  datatype Reading = Reading(delivered: seq<seq<byte>>, status: Status, rest: seq<byte>)

  function FrameLength(s: seq<byte>): (n: nat)
    requires |s| >= MESSAGE_HEAD_LEN
  {
    LittleEndian(s[..4])
  }

  predicate LengthOk(n: nat) {
    MESSAGE_HEAD_LEN <= n <= MAX_MESSAGE_LEN
  }

  /** One greedy pass over a whole stream. */
  function Parse(decode: Decoder, s: seq<byte>): (r: Reading)
    decreases |s|
  {
    if |s| < MESSAGE_HEAD_LEN then Reading([], Open, s)
    else
      var n := FrameLength(s);
      if !LengthOk(n) then Reading([], BadLength, [])
      else if |s| < n then Reading([], Open, s)
      else match decode(s[..n])
        case None => Reading([], Rejected, [])
        case Some(m) => Deliver(m, Parse(decode, s[n..]))
  }

  function Deliver(m: seq<byte>, r: Reading): Reading {
    Reading([m] + r.delivered, r.status, r.rest)
  }

  /** One read of `chunk` bytes on top of an earlier reading. */
  function Feed(decode: Decoder, r: Reading, chunk: seq<byte>): Reading {
    if r.status != Open then r
    else
      var p := Parse(decode, r.rest + chunk);
      Reading(r.delivered + p.delivered, p.status, p.rest)
  }

  const NOTHING_READ := Reading([], Open, [])

  /** All the reads of one connection, in order. */
  function FeedAll(decode: Decoder, chunks: seq<seq<byte>>): Reading {
    if chunks == [] then NOTHING_READ
    else Feed(decode, FeedAll(decode, chunks[..|chunks| - 1]), chunks[|chunks| - 1])
  }

  /** The leftover bytes are a strict prefix of one frame with an acceptable length. */
  predicate IncompleteFrame(s: seq<byte>) {
    |s| < MESSAGE_HEAD_LEN || (LengthOk(FrameLength(s)) && |s| < FrameLength(s))
  }

  predicate WholeFrame(f: seq<byte>) {
    |f| >= MESSAGE_HEAD_LEN && LengthOk(|f|) && FrameLength(f) == |f|
  }

  /** What the first whole frame contributes. */
  lemma ParseHead(decode: Decoder, f: seq<byte>, t: seq<byte>)
    requires WholeFrame(f)
    ensures Parse(decode, f + t) ==
      if decode(f) == None then Reading([], Rejected, []) else Deliver(decode(f).value, Parse(decode, t))
  {
    var s := f + t;
    assert s[..4] == f[..4] && s[..|f|] == f && s[|f|..] == t;
  }

  /** A stream is closed at once exactly for a length below ten or above 65000; the shortest frame has no payload. */
  lemma BadLengthIff(decode: Decoder, s: seq<byte>)
    requires |s| >= 10
    ensures Parse(decode, s) == Reading([], BadLength, []) <==> FrameLength(s) < 10 || FrameLength(s) > 65_000
  {
    hide LittleEndian;
  }

  /** The first frame of a stream, when the stream holds all of it. */
  lemma SplitHead(s: seq<byte>) returns (f: seq<byte>, t: seq<byte>)
    requires !IncompleteFrame(s) && LengthOk(FrameLength(s))
    ensures WholeFrame(f) && s == f + t && |t| < |s|
    ensures f == s[..FrameLength(s)] && t == s[FrameLength(s)..]
  {
    f, t := s[..FrameLength(s)], s[FrameLength(s)..];
    assert f[..4] == s[..4];
  }

  lemma {:induction false} LeftoverIsIncomplete(decode: Decoder, s: seq<byte>)
    ensures var r := Parse(decode, s);
      |r.rest| <= |s| && IncompleteFrame(r.rest) && |r.rest| < MAX_MESSAGE_LEN
      && (if r.status == Open then r.rest == s[|s| - |r.rest|..] else r.rest == [])
    decreases |s|
  {
    if !IncompleteFrame(s) && LengthOk(FrameLength(s)) {
      var f, t := SplitHead(s);
      ParseHead(decode, f, t);
      LeftoverIsIncomplete(decode, t);
    }
  }

  lemma DeliverFeed(decode: Decoder, m: seq<byte>, r: Reading, b: seq<byte>)
    ensures Feed(decode, Deliver(m, r), b) == Deliver(m, Feed(decode, r, b))
  {
    hide Parse;
    var q := Parse(decode, r.rest + b);
    assert [m] + (r.delivered + q.delivered) == ([m] + r.delivered) + q.delivered;
  }

  /** Parsing a stream that arrives in two pieces is parsing the first piece and feeding the second. */
  lemma {:induction false} ParseSplits(decode: Decoder, a: seq<byte>, b: seq<byte>)
    ensures Parse(decode, a + b) == Feed(decode, Parse(decode, a), b)
    decreases |a|
  {
    if IncompleteFrame(a) {
      IncompleteFeed(decode, a, b);
    } else if !LengthOk(FrameLength(a)) {
      assert (a + b)[..4] == a[..4];
    } else {
      var f, t := SplitHead(a);
      hide *;
      ParseHead(decode, f, t);
      ParseHead(decode, f, t + b);
      assert a + b == f + (t + b);
      ParseSplits(decode, t, b);
      if decode(f).Some? {
        DeliverFeed(decode, decode(f).value, Parse(decode, t), b);
      } else {
        RejectedFeed(decode, b);
      }
    }
  }

  lemma IncompleteFeed(decode: Decoder, a: seq<byte>, b: seq<byte>)
    requires IncompleteFrame(a)
    ensures Parse(decode, a + b) == Feed(decode, Parse(decode, a), b)
  {
    assert Parse(decode, a) == Reading([], Open, a);
    var p := Parse(decode, a + b);
    assert [] + p.delivered == p.delivered;
  }

  lemma RejectedFeed(decode: Decoder, b: seq<byte>)
    ensures Feed(decode, Reading([], Rejected, []), b) == Reading([], Rejected, [])
  {}

  /** Chunking independence: however the stream was cut into reads, the messages delivered, the verdict
      and the bytes held back are those of one greedy parse of the whole stream. */
  lemma {:induction false} ChunkingIndependence(decode: Decoder, chunks: seq<seq<byte>>)
    ensures FeedAll(decode, chunks) == Parse(decode, Flatten(chunks))
    decreases |chunks|
  {
    if chunks != [] {
      var init, last := chunks[..|chunks| - 1], chunks[|chunks| - 1];
      ChunkingIndependence(decode, init);
      ParseSplits(decode, Flatten(init), last);
      FlattenSnoc(init, last);
      assert init + [last] == chunks;
    }
  }

  /** A frame the receiver accepts as message m: a truthful length field, within bounds, that decodes to m. */
  predicate FrameOf(decode: Decoder, frame: seq<byte>, m: seq<byte>) {
    WholeFrame(frame) && decode(frame) == Some(m)
  }

  predicate FramesOf(decode: Decoder, frames: seq<seq<byte>>, messages: seq<seq<byte>>) {
    && |frames| == |messages|
    && forall i :: 0 <= i < |frames| ==> FrameOf(decode, frames[i], messages[i])
  }

  /** Well-formed frames laid end to end parse back to exactly their messages, whatever follows them. */
  lemma {:induction false} ParseFrames(decode: Decoder, frames: seq<seq<byte>>, messages: seq<seq<byte>>, tail: seq<byte>)
    requires FramesOf(decode, frames, messages)
    ensures var p := Parse(decode, tail);
      Parse(decode, Flatten(frames) + tail) == Reading(messages + p.delivered, p.status, p.rest)
    decreases |frames|
  {
    hide Parse, WholeFrame;
    var p := Parse(decode, tail);
    if frames == [] {
      assert Flatten(frames) + tail == tail && messages + p.delivered == p.delivered;
    } else {
      assert FrameOf(decode, frames[0], messages[0]);
      assert Flatten(frames) + tail == frames[0] + (Flatten(frames[1..]) + tail);
      ParseHead(decode, frames[0], Flatten(frames[1..]) + tail);
      ParseFrames(decode, frames[1..], messages[1..], tail);
      assert [messages[0]] + (messages[1..] + p.delivered) == messages + p.delivered;
    }
  }

  /** A prefix of the wire image of well-formed frames delivers a prefix of their messages and stays open. */
  lemma {:induction false} ParsePrefix(decode: Decoder, frames: seq<seq<byte>>, messages: seq<seq<byte>>, s: seq<byte>)
    requires FramesOf(decode, frames, messages)
    requires s <= Flatten(frames)
    ensures Parse(decode, s).status == Open
    ensures Parse(decode, s).delivered <= messages
    decreases |frames|
  {
    hide Parse, WholeFrame, FramesOf;
    FramesParts(decode, frames, messages);
    if frames == [] {
      ParseNothing(decode);
    } else {
      var f, rest := frames[0], Flatten(frames[1..]);
      PrefixCut(f, rest, s);
      if |f| <= |s| {
        ParseHead(decode, f, s[|f|..]);
        ParsePrefix(decode, frames[1..], messages[1..], s[|f|..]);
        assert messages == [messages[0]] + messages[1..];
      } else {
        ParsePart(decode, f, |s|);
      }
    }
  }

  lemma FramesParts(decode: Decoder, frames: seq<seq<byte>>, messages: seq<seq<byte>>)
    requires FramesOf(decode, frames, messages)
    ensures |frames| == |messages|
    ensures frames != [] ==> FrameOf(decode, frames[0], messages[0]) && FramesOf(decode, frames[1..], messages[1..])
  {
    hide FrameOf;
  }

  lemma ParseNothing(decode: Decoder)
    ensures Parse(decode, []) == NOTHING_READ
  {}

  lemma PrefixCut(f: seq<byte>, rest: seq<byte>, s: seq<byte>)
    requires s <= f + rest
    ensures if |f| <= |s| then s == f + s[|f|..] && s[|f|..] <= rest else s == f[..|s|]
  {
    if |f| <= |s| {
      assert s[..|f|] == (f + rest)[..|f|] == f;
      assert s[|f|..] == (f + rest)[|f|..|s|] == rest[..|s| - |f|];
    } else {
      assert (f + rest)[..|s|] == f[..|s|];
    }
  }

  /** Part of a frame is held back. */
  lemma ParsePart(decode: Decoder, f: seq<byte>, n: nat)
    requires WholeFrame(f) && n < |f|
    ensures Parse(decode, f[..n]) == Reading([], Open, f[..n])
  {
    if n >= MESSAGE_HEAD_LEN {
      assert f[..n][..4] == f[..4];
    }
  }
}
