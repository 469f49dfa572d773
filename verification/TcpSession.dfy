/** tcp_session: one connection's buffers, updated in place, proved against Framing (receiving)
    and Sending (sending). */
module TcpSession {
  import opened Bytes
  import opened Framing
  import opened Sending
  import Reconnects

  class Session {
    // message_interface::uncompress as used by this connection
    const decode: Decoder

    var valid: bool
    var connected: bool
    var closePosted: bool              // close() was called: a handle_close is due
    var closeReported: bool            // _on_close handed on_close to the callback manager

    // receiving
    var recvBuffer: array<byte>
    var buffer: array<byte>            // what async_read_some fills
    var recvPos: nat
    var readArmed: bool                // an async_read_some is outstanding
    var delivered: seq<seq<byte>>      // messages pushed to the server so far
    var status: Status

    // sending
    var limitMode: bool
    var queue: seq<seq<byte>>
    var sendingData: array<byte>
    var sending: bool
    var notSent: int
    var full: bool

    // the I/O service, as far as this session is concerned
    var posted: nat
    var writing: Option<nat>           // length of the outstanding async_write from sendingData
    var finished: seq<nat>

    ghost var accepted: seq<seq<byte>>
    ghost var wire: seq<byte>
    ghost var dropped: nat

    ghost predicate Valid()
      reads this, recvBuffer
    {
      CanReceive() && CanSend() && recvBuffer != sendingData && buffer != sendingData
    }

    /** Whenever a read is armed, the leftover is a strict prefix of one frame and leaves room for a full read. */
    ghost predicate CanReceive()
      reads this, recvBuffer
    {
      && recvBuffer.Length == 2 * MAX_MESSAGE_LEN
      && buffer.Length == MAX_MESSAGE_LEN
      && recvBuffer != buffer
      && recvPos <= recvBuffer.Length
      && (readArmed ==> status == Open)
      && (status == Open ==> recvPos < MAX_MESSAGE_LEN && IncompleteFrame(recvBuffer[..recvPos]))
    }

    ghost predicate CanSend()
      reads this
    {
      && sendingData.Length == MAX_MESSAGE_LEN
      && (writing.Some? ==> writing.value <= MAX_MESSAGE_LEN)
    }

    ghost function Incoming(): Reading
      reads this, recvBuffer
      requires CanReceive()
    {
      Reading(delivered, status, if status == Open then recvBuffer[..recvPos] else [])
    }

    ghost function Outgoing(): Sender
      reads this, sendingData
      requires CanSend()
    {
      Sender(queue, sending, notSent, connected, full, posted,
        if writing == None then None else Some(sendingData[..writing.value]), finished, accepted, wire, dropped)
    }

    /** A session just after handle_accept. */
    constructor (decode: Decoder, limitMode: bool)
      ensures Valid() && Incoming() == NOTHING_READ && Outgoing() == FRESH
      ensures valid && readArmed && this.decode == decode && this.limitMode == limitMode && !closePosted && !closeReported
      ensures fresh(recvBuffer) && fresh(buffer) && fresh(sendingData)
    {
      this.decode, this.limitMode := decode, limitMode;
      valid, connected, closePosted, closeReported := true, true, false, false;
      recvBuffer := new byte[2 * MAX_MESSAGE_LEN];
      buffer := new byte[MAX_MESSAGE_LEN];
      sendingData := new byte[MAX_MESSAGE_LEN];
      recvPos, readArmed, delivered, status := 0, true, [], Open;
      queue, sending, notSent, full := [], false, 0, false;
      posted, writing, finished := 0, None, [];
      accepted, wire, dropped := [], [], 0;
    }

    // ---------- connecting ----------

    /** tcp_client's handle_connect without error: nothing but the flag changes; on_connect is due when it was down. */
    method HandleConnect() returns (onConnectDue: bool)
      requires CanSend()
      modifies this`connected
      ensures CanSend() && Outgoing() == Reconnects.Next(old(Outgoing()), Reconnects.Connected)
      ensures onConnectDue <==> !old(connected)
    {
      onConnectDue := !connected;
      if connected { return; }
      connected := true;
    }

    /** begin_read_message: whatever the last connection left half read is forgotten, and a read is started. */
    method BeginReadMessage()
      requires Valid()
      modifies this`recvPos, this`readArmed, this`status
      ensures Valid() && readArmed && Incoming() == Reading(old(delivered), Open, []) && Outgoing() == old(Outgoing())
    {
      recvPos, readArmed, status := 0, true, Open;
    }

    // ---------- receiving ----------

    /** _uncompress_message: hands one frame's message on, or closes the connection. */
    method UncompressMessage(frame: seq<byte>) returns (ok: bool)
      modifies this`delivered, this`closePosted
      ensures ok <==> decode(frame).Some?
      ensures delivered == if ok then old(delivered) + [decode(frame).value] else old(delivered)
      ensures closePosted == (old(closePosted) || !ok)
    {
      match decode(frame)
      case None =>
        closePosted := true;
        ok := false;
      case Some(m) =>
        delivered := delivered + [m];
        ok := true;
    }

    /** The length field of the header at position p. */
    method ReadLength(p: nat) returns (len: nat)
      requires recvPos <= recvBuffer.Length && p + MESSAGE_HEAD_LEN <= recvPos
      ensures len == FrameLength(recvBuffer[p..recvPos])
    {
      len := LittleEndian(recvBuffer[p..p + 4]);
      assert recvBuffer[p..recvPos][..4] == recvBuffer[p..p + 4];
    }

    /** memcpy of what has just been read behind the bytes held back. */
    method AppendRead(n: nat)
      requires recvBuffer != buffer && n <= buffer.Length && recvPos + n <= recvBuffer.Length
      modifies this`recvPos, recvBuffer
      ensures recvPos == old(recvPos) + n
      ensures recvBuffer[..recvPos] == old(recvBuffer[..recvPos]) + buffer[..n]
    {
      forall i | 0 <= i < n {
        recvBuffer[recvPos + i] := buffer[i];
      }
      recvPos := recvPos + n;
    }

    /** memmove of the leftover to the front of the buffer. */
    method MoveToFront(nowPos: nat)
      requires nowPos <= recvPos <= recvBuffer.Length
      modifies this`recvPos, recvBuffer
      ensures recvPos == old(recvPos) - nowPos
      ensures recvBuffer[..recvPos] == old(recvBuffer[nowPos..recvPos])
    {
      if nowPos > 0 && recvPos > nowPos {
        forall i | 0 <= i < recvPos - nowPos {
          recvBuffer[i] := recvBuffer[nowPos + i];
        }
      }
      recvPos := recvPos - nowPos;
    }

    /** handle_read_some: n bytes have arrived in `buffer`, or the read failed. Whatever the bytes, the connection's
        reading afterwards is the earlier one fed with this chunk. */
    method HandleReadSome(error: bool, n: nat)
      requires Valid() && readArmed && n <= buffer.Length
      modifies this`queue, this`connected, this`closeReported, this`dropped
      modifies this`delivered, this`closePosted, this`status, this`recvPos, this`readArmed, recvBuffer
      ensures Valid()
      ensures !valid || error ==> Incoming() == old(Incoming()) && !readArmed
      ensures valid && !error ==> Incoming() == Feed(decode, old(Incoming()), buffer[..n]) && (readArmed <==> status == Open)
      ensures closePosted == (old(closePosted) || status != Open)
      ensures valid && (error || status == Rejected) ==> Outgoing() == Sending.OnClose(old(Outgoing()))
      ensures !valid || (!error && status != Rejected) ==> Outgoing() == old(Outgoing())
    {
      hide CanReceive, CanSend, Incoming, Outgoing, Feed, Sending.OnClose;
      if !valid {
        StopReading();
        return;
      }
      if error {
        StopReading();
        CloseReading();
        return;
      }
      TakeChunk(n);
      if status == Rejected {
        CloseReading();
      }
    }

    /** ReadChunk, seen from the sending side: nothing moves there. */
    method TakeChunk(n: nat)
      requires Valid() && readArmed && n <= buffer.Length
      modifies this`delivered, this`closePosted, this`status, this`recvPos, this`readArmed, recvBuffer
      ensures Valid() && Incoming() == Feed(decode, old(Incoming()), buffer[..n]) && Outgoing() == old(Outgoing())
      ensures (readArmed <==> status == Open) && closePosted == (old(closePosted) || status != Open)
    {
      hide CanReceive, Incoming, Feed;
      ReadChunk(n);
    }

    /** OnClose, seen from the receiving side: what has been read stays. */
    method CloseReading()
      requires Valid()
      modifies this`queue, this`connected, this`closeReported, this`dropped
      ensures Valid() && Incoming() == old(Incoming()) && Outgoing() == Sending.OnClose(old(Outgoing()))
      ensures closeReported
    {
      hide IncompleteFrame, CanSend, Outgoing, Sending.OnClose;
      OnClose();
    }

    /** The handler ends without asking for more. */
    method StopReading()
      requires Valid() && readArmed
      modifies this`readArmed
      ensures Valid() && !readArmed && status == Open && Incoming() == old(Incoming()) && Outgoing() == old(Outgoing())
    {
      hide IncompleteFrame;
      readArmed := false;
    }

    /** The receiving part of handle_read_some. */
    method ReadChunk(n: nat)
      requires CanReceive() && readArmed && n <= buffer.Length
      modifies this`delivered, this`closePosted, this`status, this`recvPos, this`readArmed, recvBuffer
      ensures CanReceive() && Incoming() == Feed(decode, old(Incoming()), buffer[..n])
      ensures (readArmed <==> status == Open) && closePosted == (old(closePosted) || status != Open)
    {
      hide IncompleteFrame, Parse;
      ghost var stream := recvBuffer[..recvPos] + buffer[..n];
      LeftoverIsIncomplete(decode, stream);
      AppendRead(n);
      var verdict, nowPos := CutFrames(stream);
      if verdict == Open {
        MoveToFront(nowPos);
      }
      status, readArmed := verdict, verdict == Open;
    }

    /** The cutting loop: deliver frames from the front until one is incomplete, has a bad length or is refused. */
    method CutFrames(ghost stream: seq<byte>) returns (verdict: Status, nowPos: nat)
      requires recvPos <= recvBuffer.Length && stream == recvBuffer[..recvPos]
      modifies this`delivered, this`closePosted
      ensures nowPos <= recvPos
      ensures var p := Parse(decode, stream);
        && verdict == p.status
        && delivered == old(delivered) + p.delivered
        && (verdict == Open ==> recvBuffer[nowPos..recvPos] == p.rest)
      ensures closePosted == (old(closePosted) || verdict != Open)
    {
      ghost var whole := Parse(decode, stream);
      ParseShort(decode, stream);
      hide Parse, WholeFrame, FrameLength, Prepend;
      nowPos := 0;
      assert recvBuffer[0..recvPos] == stream;
      if recvPos < MESSAGE_HEAD_LEN {
        return Open, 0;
      }
      var len := ReadLength(0);
      if !LengthOk(len) {
        closePosted := true;
        return BadLength, 0;
      }
      ghost var cut: seq<seq<byte>>, rest := [], stream;
      PrependNothing(whole.delivered, whole.status, whole.rest);
      while recvPos - nowPos >= len
        invariant nowPos <= recvPos && recvBuffer[nowPos..recvPos] == rest
        invariant |rest| >= MESSAGE_HEAD_LEN && LengthOk(len) && len == FrameLength(rest)
        invariant delivered == old(delivered) + cut
        invariant whole == Prepend(cut, Parse(decode, rest))
        invariant closePosted == old(closePosted)
        decreases recvPos - nowPos
      {
        ghost var frame, tail := SplitHead(rest);
        SliceOfSlice(recvBuffer[..], nowPos, recvPos, len);
        assert recvBuffer[nowPos..nowPos + len] == frame && recvBuffer[nowPos + len..recvPos] == tail;
        PrependStep(decode, cut, frame, tail);
        ParseShort(decode, tail);
        PrependNothing(cut + [decode(frame).GetOr([])], BadLength, []);
        var ok := UncompressMessage(recvBuffer[nowPos..nowPos + len]);
        if !ok {
          return Rejected, nowPos;
        }
        cut, rest := cut + [decode(frame).value], tail;
        nowPos := nowPos + len;
        if recvPos - nowPos >= MESSAGE_HEAD_LEN {
          len := ReadLength(nowPos);
          if !LengthOk(len) {
            closePosted := true;
            return BadLength, nowPos;
          }
        } else {
          break;
        }
      }
      ParseShort(decode, rest);
      PrependNothing(cut, Open, rest);
      verdict := Open;
    }

    // ---------- sending ----------

    /** _on_close: drop the queue, shut the socket, report. The byte count is left alone. */
    method OnClose()
      requires CanSend()
      modifies this`queue, this`connected, this`closeReported, this`dropped
      ensures CanSend() && Outgoing() == Sending.OnClose(old(Outgoing()))
      ensures closeReported
    {
      hide Total;
      dropped := dropped + Total(queue);
      queue := [];
      connected := false;
      closeReported := true;
    }

    /** _send_message. */
    method SendMessage(msg: seq<byte>)
      requires CanSend()
      modifies this`queue, this`notSent, this`full, this`closePosted, this`posted, this`accepted
      ensures CanSend() && Outgoing() == Sending.SendMessage(old(Outgoing()), msg, limitMode)
      ensures closePosted == (old(closePosted) || (connected && limitMode && notSent >= QUEUE_MESSAGE_LIMIT_SIZE))
    {
      if !connected { return; }
      queue := queue + [msg];
      accepted := accepted + [msg];
      notSent := notSent + |msg|;
      if limitMode && notSent >= QUEUE_MESSAGE_LIMIT_SIZE {
        closePosted := true;
        full := true;
        return;
      }
      posted := posted + 1;
    }

    /** The packing loop of _write_message: as many messages as fit move from the queue into the send buffer. */
    method PackBatch() returns (len: nat)
      requires sendingData.Length == MAX_MESSAGE_LEN
      modifies this`queue, sendingData
      ensures var k := Fitting(old(queue), 0);
        len <= MAX_MESSAGE_LEN && queue == old(queue)[k..] && sendingData[..len] == Flatten(old(queue)[..k])
    {
      ghost var k := 0;
      len := 0;
      while queue != []
        invariant k <= |old(queue)| && queue == old(queue)[k..] && len <= MAX_MESSAGE_LEN
        invariant Fitting(old(queue), 0) == k + Fitting(queue, len)
        invariant sendingData[..len] == Flatten(old(queue)[..k])
        decreases |queue|
      {
        var msg := queue[0];
        if len + |msg| <= MAX_MESSAGE_LEN {
          CopyOut(len, msg);
          FlattenSnoc(old(queue)[..k], msg);
          assert old(queue)[..k] + [msg] == old(queue)[..k + 1];
          len := len + |msg|;
          queue := queue[1..];
          k := k + 1;
        } else {
          break;
        }
      }
    }

    method CopyOut(at: nat, msg: seq<byte>)
      requires at + |msg| <= sendingData.Length
      modifies sendingData
      ensures sendingData[..at + |msg|] == old(sendingData[..at]) + msg
    {
      forall i | 0 <= i < |msg| {
        sendingData[at + i] := msg[i];
      }
    }

    /** _write_message: packs messages from the head of the queue into the send buffer and starts one write. The
        buffer is only touched when no write from it is outstanding. */
    method WriteMessage(sentSize: int)
      requires CanSend() && Guarded(Outgoing())
      modifies this`notSent, this`queue, this`sending, this`writing, sendingData
      ensures CanSend() && Outgoing() == Sending.WriteMessage(old(Outgoing()), sentSize)
      ensures old(writing).Some? ==> writing == old(writing) && sendingData[..] == old(sendingData[..])
    {
      hide Fitting, Flatten;
      notSent := notSent - sentSize;
      if !connected || sending || queue == [] { return; }
      var len := PackBatch();
      writing := Some(len);
      sending := true;
    }

    /** A posted _write_message(0) runs. */
    method RunPosted()
      requires CanSend() && Guarded(Outgoing()) && posted > 0
      modifies this`notSent, this`queue, this`sending, this`writing, this`posted, sendingData
      ensures CanSend() && Outgoing() == Sending.Step(old(Outgoing()), Event.RunPosted)
    {
      hide Sending.WriteMessage;
      posted := posted - 1;
      WriteMessage(0);
    }

    /** handle_write without error, up to the end of its locked region: from here on another thread may already
        start the next write. */
    method CompleteWrite()
      requires CanSend() && writing.Some?
      modifies this`sending, this`writing, this`finished, this`wire
      ensures CanSend() && Outgoing() == Sending.Step(old(Outgoing()), Event.Complete)
    {
      wire := wire + sendingData[..writing.value];
      finished := finished + [writing.value];
      sending := false;
      writing := None;
    }

    /** The second half of handle_write: _write_message(size). */
    method FinishWrite(i: nat)
      requires CanSend() && Guarded(Outgoing()) && i < |finished|
      modifies this`notSent, this`queue, this`sending, this`writing, this`finished, sendingData
      ensures CanSend() && Outgoing() == Sending.Step(old(Outgoing()), Deduct(i))
    {
      hide Sending.WriteMessage;
      var size := finished[i];
      finished := finished[..i] + finished[i + 1..];
      WriteMessage(size);
    }

    /** handle_write with an error after `sent` bytes have left. */
    method FailWrite(sent: nat)
      requires CanSend() && writing.Some? && sent <= writing.value
      modifies this`queue, this`connected, this`closeReported, this`dropped, this`writing, this`wire
      ensures CanSend() && Outgoing() == Sending.Step(old(Outgoing()), WriteFailed(sent))
      ensures closeReported
    {
      hide Total;
      assert sendingData[..writing.value][..sent] == sendingData[..sent];
      wire := wire + sendingData[..sent];
      dropped := dropped + writing.value;
      writing := None;
      OnClose();
    }

    /** handle_close: the posted close of the socket. */
    method HandleClose()
      requires CanSend()
      modifies this`connected
      ensures CanSend() && Outgoing() == Sending.Step(old(Outgoing()), Event.HandleClose)
    {
      connected := false;
    }
  }

  lemma SliceOfSlice(s: seq<byte>, i: nat, j: nat, n: nat)
    requires i + n <= j <= |s|
    ensures s[i..j][..n] == s[i..i + n] && s[i..j][n..] == s[i + n..j]
  {}

  function Prepend(ms: seq<seq<byte>>, r: Reading): Reading {
    Reading(ms + r.delivered, r.status, r.rest)
  }

  lemma PrependNothing(cut: seq<seq<byte>>, status: Status, rest: seq<byte>)
    ensures Prepend(cut, Reading([], status, rest)) == Reading(cut, status, rest)
    ensures Prepend([], Reading(cut, status, rest)) == Reading(cut, status, rest)
  {
    assert cut + [] == cut == [] + cut;
  }

  /** Where the cutting loop does not start, or stops. */
  lemma ParseShort(decode: Decoder, s: seq<byte>)
    ensures |s| < MESSAGE_HEAD_LEN ==> Parse(decode, s) == Reading([], Open, s)
    ensures |s| >= MESSAGE_HEAD_LEN && !LengthOk(FrameLength(s)) ==> Parse(decode, s) == Reading([], BadLength, [])
    ensures |s| >= MESSAGE_HEAD_LEN && LengthOk(FrameLength(s)) && |s| < FrameLength(s) ==> Parse(decode, s) == Reading([], Open, s)
  {}

  lemma PrependStep(decode: Decoder, cut: seq<seq<byte>>, frame: seq<byte>, tail: seq<byte>)
    requires WholeFrame(frame)
    ensures Prepend(cut, Parse(decode, frame + tail)) ==
      if decode(frame).None? then Reading(cut, Rejected, []) else Prepend(cut + [decode(frame).value], Parse(decode, tail))
  {
    ParseHead(decode, frame, tail);
    hide Parse, WholeFrame;
    if decode(frame).None? {
      assert cut + [] == cut;
    } else {
      var m, p := decode(frame).value, Parse(decode, tail);
      assert cut + ([m] + p.delivered) == (cut + [m]) + p.delivered;
    }
  }
}
