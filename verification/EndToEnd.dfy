/** The two halves of a connection put together: what one side queues is what the other side delivers. */
module EndToEnd {
  import opened Bytes
  import opened Framing
  import Sending
  import opened MessageFormat

  /** Safety, at every moment of every run of the sending side - whatever the interleaving, the batching, write
      errors or closes - and for every way the network has so far re-chunked a prefix of the written bytes: the
      receiver has delivered a prefix of the messages, in order, and has not closed. */
  lemma DeliveredIsPrefix(decode: Decoder, es: seq<Sending.Event>, messages: seq<seq<byte>>, chunks: seq<seq<byte>>)
    requires Sending.Runs(Sending.FRESH, es)
    requires FramesOf(decode, Sending.Exec(Sending.FRESH, es).accepted, messages)
    requires Flatten(chunks) <= Sending.Exec(Sending.FRESH, es).wire
    ensures FeedAll(decode, chunks).status == Open
    ensures FeedAll(decode, chunks).delivered <= messages
  {
    hide Parse, FramesOf, Sending.Exec, FeedAll, Flatten;
    Sending.AccountingOverRuns(es);
    var s := Sending.Exec(Sending.FRESH, es);
    ChunkingIndependence(decode, chunks);
    PrefixOfPrefix(Flatten(chunks), s.wire, Sending.Pending(s), Flatten(s.accepted));
    ParsePrefix(decode, s.accepted, messages, Flatten(chunks));
  }

  lemma PrefixOfPrefix(a: seq<byte>, b: seq<byte>, c: seq<byte>, d: seq<byte>)
    requires a <= b && b + c <= d
    ensures a <= d
  {
    assert b == (b + c)[..|b|];
  }

  /** Delivery: once the sending side is quiescent, still connected and not over its queue limit, a receiver that got
      all the written bytes, in whatever chunks, has delivered exactly the queued messages, once each and in order. */
  lemma DeliveredExactly(decode: Decoder, es: seq<Sending.Event>, messages: seq<seq<byte>>, chunks: seq<seq<byte>>)
    requires Sending.Runs(Sending.FRESH, es)
    requires var s := Sending.Exec(Sending.FRESH, es);
      && Sending.Quiescent(s) && s.connected && !s.full
      && FramesOf(decode, s.accepted, messages)
      && Flatten(chunks) == s.wire
    ensures FeedAll(decode, chunks) == Reading(messages, Open, [])
  {
    hide Parse, FramesOf, Sending.Exec, FeedAll, Flatten;
    Sending.QuiescentMeansSent(es);
    var s := Sending.Exec(Sending.FRESH, es);
    ChunkingIndependence(decode, chunks);
    ParseFrames(decode, s.accepted, messages, []);
    ParseNothing(decode);
    assert s.wire + [] == s.wire && messages + [] == messages;
  }

  /** A payload on its way out: the stale memory of its header, and whether the session sends without compressing. */
  datatype Outgoing = Outgoing(payload: seq<byte>, stale: seq<byte>, plain: bool)

  /** The frame send_message queues. */
  function Framed(strategy: Option<Strategy>, m: Outgoing): seq<byte>
    requires |m.stale| == MESSAGE_HEAD_LEN
  {
    if m.plain then Make(m.stale, m.payload, false) else Compress(strategy, m.stale, m.payload)
  }

  /** The exact conditions of MessageRoundTrip and PlainRoundTrip. */
  predicate Survives(strategy: Option<Strategy>, m: Outgoing) {
    && |m.stale| == MESSAGE_HEAD_LEN && Sending.SendGuard(|m.payload|)
    && var (payload, compressed) := if m.plain then (m.payload, false) else Pack(strategy, m.payload);
       && MessageFormat.Framed(m.stale, payload)
       && if compressed then |payload| > 1 || Dirty(m.stale)
          else strategy == None || !Dirty(m.stale) || strategy.value.uncompress(m.payload) == Some(m.payload)
  }

  lemma SurvivesIff(strategy: Option<Strategy>, m: Outgoing)
    requires strategy.Some? ==> Lawful(strategy.value)
    requires |m.stale| == MESSAGE_HEAD_LEN && Sending.SendGuard(|m.payload|)
    ensures FrameOf(DecoderOf(strategy), Framed(strategy, m), m.payload) <==> Survives(strategy, m)
  {
    hide FrameOf, Make, Compress, Pack, MessageFormat.Framed, Dirty;
    if m.plain {
      PlainRoundTrip(strategy, m.stale, m.payload);
    } else {
      MessageRoundTrip(strategy, m.stale, m.payload);
    }
  }

  /** The frames queued are those send_message makes of the payloads, and each one survives. */
  predicate Queued(strategy: Option<Strategy>, ms: seq<Outgoing>, frames: seq<seq<byte>>) {
    && |ms| == |frames|
    && forall i :: 0 <= i < |frames| ==> Survives(strategy, ms[i]) && frames[i] == Framed(strategy, ms[i])
  }

  function Payloads(ms: seq<Outgoing>): (r: seq<seq<byte>>)
    ensures |r| == |ms|
    ensures forall i :: 0 <= i < |ms| ==> r[i] == ms[i].payload
  {
    seq(|ms|, i requires 0 <= i < |ms| => ms[i].payload)
  }

  /** End to end with the real wire format: payloads of every length send_message accepts that survive packing, compressed
      or plain, come out of the receiver's decoder exactly as they went in, through any batching and any re-chunking. */
  lemma PayloadsDelivered(strategy: Option<Strategy>, ms: seq<Outgoing>, es: seq<Sending.Event>, chunks: seq<seq<byte>>)
    requires strategy.Some? ==> Lawful(strategy.value)
    requires Sending.Runs(Sending.FRESH, es)
    requires var s := Sending.Exec(Sending.FRESH, es);
      && Sending.Quiescent(s) && s.connected && !s.full
      && Queued(strategy, ms, s.accepted)
      && Flatten(chunks) == s.wire
    ensures FeedAll(DecoderOf(strategy), chunks) == Reading(Payloads(ms), Open, [])
  {
    var frames := Sending.Exec(Sending.FRESH, es).accepted;
    hide Sending.Exec, Sending.Runs, FeedAll, Flatten, FrameOf, Framed, DecoderOf;
    forall i | 0 <= i < |frames|
      ensures FrameOf(DecoderOf(strategy), frames[i], Payloads(ms)[i])
    {
      assert Survives(strategy, ms[i]);
      SurvivesIff(strategy, ms[i]);
    }
    DeliveredExactly(DecoderOf(strategy), es, Payloads(ms), chunks);
  }
}
