/** The sending half of tcp_session as a state machine: the queue, the batch under asynchronous write,
    and the calls of _write_message still waiting in the I/O service. */
module Sending {
  import opened Bytes
  import opened Framing

  const QUEUE_MESSAGE_LIMIT_SIZE: nat := MAX_MESSAGE_LEN * 30

  function Total(ss: seq<seq<byte>>): nat {
    if ss == [] then 0 else |ss[0]| + Total(ss[1..])
  }

  function Sum(ns: seq<nat>): nat {
    if ns == [] then 0 else ns[0] + Sum(ns[1..])
  }

  /** How many messages at the head of the queue fit behind `used` bytes of one batch. */
  function Fitting(queue: seq<seq<byte>>, used: nat): (k: nat)
    ensures k <= |queue|
  {
    if queue == [] || used + |queue[0]| > MAX_MESSAGE_LEN then 0
    else 1 + Fitting(queue[1..], used + |queue[0]|)
  }

  /**
   * queue, sending, notSent, connected: the session's fields.
   * full: the queue reached its limit, so close() was requested instead of a write.
   * posted: posted calls _write_message(0) not yet run.
   * inFlight: the bytes of the outstanding async_write.
   * finished: sizes of completed writes whose _write_message(size) has not run yet.
   * accepted, wire, dropped: history - messages queued so far, bytes written so far, bytes given up.
   */
  datatype Sender = Sender(
    queue: seq<seq<byte>>, sending: bool, notSent: int, connected: bool, full: bool,
    posted: nat, inFlight: Option<seq<byte>>, finished: seq<nat>,
    accepted: seq<seq<byte>>, wire: seq<byte>, dropped: nat)

  const FRESH := Sender([], false, 0, true, false, 0, None, [], [], [], 0)

  datatype Event =
    | Send(msg: seq<byte>, limited: bool)  // _send_message; limited: the father is in limit mode
    | RunPosted                            // a posted _write_message(0)
    | Complete                             // handle_write without error, up to releasing the lock
    | Deduct(i: nat)                       // its _write_message(size)
    | HandleClose                          // the posted handle_close
    | WriteFailed(sent: nat)               // handle_write with an error after `sent` bytes
    | ReadFailed                           // _on_close from the reading side

  predicate Enabled(s: Sender, e: Event) {
    match e
    case RunPosted => s.posted > 0
    case Complete => s.inFlight.Some?
    case Deduct(i) => i < |s.finished|
    case WriteFailed(n) => s.inFlight.Some? && n <= |s.inFlight.value|
    case _ => true
  }

  /** _write_message(size). */
  function WriteMessage(s: Sender, size: int): Sender {
    var t := s.(notSent := s.notSent - size);
    if !s.connected || s.sending || s.queue == [] then t
    else
      var k := Fitting(s.queue, 0);
      t.(queue := s.queue[k..], inFlight := Some(Flatten(s.queue[..k])), sending := true)
  }

  function SendMessage(s: Sender, msg: seq<byte>, limited: bool): Sender {
    if !s.connected then s
    else
      var t := s.(queue := s.queue + [msg], notSent := s.notSent + |msg|, accepted := s.accepted + [msg]);
      if limited && t.notSent >= QUEUE_MESSAGE_LIMIT_SIZE then t.(full := true)
      else t.(posted := s.posted + 1)
  }

  /** _on_close: the queue is emptied, the byte count is left alone. */
  function OnClose(s: Sender): Sender {
    s.(queue := [], connected := false, dropped := s.dropped + Total(s.queue))
  }

  function Step(s: Sender, e: Event): Sender
    requires Enabled(s, e)
  {
    match e
    case Send(msg, limited) => SendMessage(s, msg, limited)
    case RunPosted => WriteMessage(s.(posted := s.posted - 1), 0)
    case Complete =>
      s.(sending := false, inFlight := None, finished := s.finished + [|s.inFlight.value|], wire := s.wire + s.inFlight.value)
    case Deduct(i) => WriteMessage(s.(finished := s.finished[..i] + s.finished[i + 1..]), s.finished[i])
    case HandleClose => s.(connected := false)
    case WriteFailed(n) =>
      var t := s.(inFlight := None, wire := s.wire + s.inFlight.value[..n], dropped := s.dropped + |s.inFlight.value|);
      OnClose(t)
    case ReadFailed => OnClose(s)
  }

  // ---------- invariants of every step ----------

  function Pending(s: Sender): seq<byte> {
    if s.inFlight.Some? then s.inFlight.value else []
  }

  /** The byte count: bytes queued, in flight, completed but not yet deducted, and given up by a close. */
  predicate Accounted(s: Sender) {
    && (s.connected ==> s.dropped == 0)
    && s.notSent == Total(s.queue) + |Pending(s)| + Sum(s.finished) + s.dropped
  }

  /** A write is outstanding only while m_is_sending_data is set. */
  predicate Guarded(s: Sender) {
    s.inFlight.Some? ==> s.sending
  }

  /** One write at a time, never carrying more than one batch; while connected, the mark stands for a write. */
  predicate OneWrite(s: Sender) {
    && Guarded(s)
    && (s.connected ==> (s.sending ==> s.inFlight.Some?))
    && |Pending(s)| <= MAX_MESSAGE_LEN
  }

  /** What has been written is a prefix of what was queued; while connected nothing is missing in between. */
  predicate InOrder(s: Sender) {
    && s.wire + Pending(s) <= Flatten(s.accepted)
    && (s.connected ==> s.wire + Pending(s) + Flatten(s.queue) == Flatten(s.accepted))
  }

  /** A waiting message is never forgotten: something is still due to run that will look at the queue. */
  predicate Awake(s: Sender) {
    s.connected && s.queue != [] ==> s.sending || s.posted > 0 || s.finished != [] || s.full
  }

  predicate Inv(s: Sender) {
    Accounted(s) && OneWrite(s) && InOrder(s) && Awake(s)
  }

  lemma {:induction false} TotalAppend(a: seq<seq<byte>>, b: seq<seq<byte>>)
    ensures Total(a + b) == Total(a) + Total(b)
  {
    if a == [] {
      assert a + b == b;
    } else {
      assert (a + b)[0] == a[0] && (a + b)[1..] == a[1..] + b;
      TotalAppend(a[1..], b);
    }
  }

  lemma {:induction false} FlattenLength(ss: seq<seq<byte>>)
    ensures |Flatten(ss)| == Total(ss)
  {
    if ss != [] { FlattenLength(ss[1..]); }
  }

  lemma {:induction false} SumAppend(a: seq<nat>, b: seq<nat>)
    ensures Sum(a + b) == Sum(a) + Sum(b)
  {
    if a == [] {
      assert a + b == b;
    } else {
      assert (a + b)[0] == a[0] && (a + b)[1..] == a[1..] + b;
      SumAppend(a[1..], b);
    }
  }

  lemma {:induction false} SumRemove(ns: seq<nat>, i: nat)
    requires i < |ns|
    ensures Sum(ns) == ns[i] + Sum(ns[..i] + ns[i + 1..])
  {
    if i == 0 {
      assert ns[..0] + ns[1..] == ns[1..];
    } else {
      var rest, removed := ns[1..], ns[..i] + ns[i + 1..];
      SumRemove(rest, i - 1);
      assert removed[0] == ns[0] && removed[1..] == rest[..i - 1] + rest[i..];
    }
  }

  /** A batch never exceeds the buffer; stopping early means the next message did not fit. */
  lemma {:induction false} BatchBounds(queue: seq<seq<byte>>, used: nat)
    requires used <= MAX_MESSAGE_LEN
    ensures var k := Fitting(queue, used);
      && used + Total(queue[..k]) <= MAX_MESSAGE_LEN
      && (k < |queue| ==> used + Total(queue[..k]) + |queue[k]| > MAX_MESSAGE_LEN)
  {
    if queue != [] && used + |queue[0]| <= MAX_MESSAGE_LEN {
      BatchBounds(queue[1..], used + |queue[0]|);
      var k := Fitting(queue[1..], used + |queue[0]|);
      assert queue[..k + 1][1..] == queue[1..][..k];
    }
  }

  lemma TotalOfNone()
    ensures Total([]) == 0
  {}

  lemma ConcatAssociates(a: seq<byte>, b: seq<byte>, c: seq<byte>)
    ensures a + (b + c) == (a + b) + c
    ensures a <= a + b
  {}

  lemma QueueSplits(queue: seq<seq<byte>>, k: nat)
    requires k <= |queue|
    ensures Flatten(queue) == Flatten(queue[..k]) + Flatten(queue[k..])
    ensures Total(queue) == |Flatten(queue[..k])| + Total(queue[k..])
  {
    assert queue == queue[..k] + queue[k..];
    FlattenAppend(queue[..k], queue[k..]);
    TotalAppend(queue[..k], queue[k..]);
    FlattenLength(queue[..k]);
  }

  /** _write_message keeps the invariant, apart from the bytes it was told to deduct. */
  lemma WriteMessageKeepsInv(s: Sender, size: nat)
    requires s.notSent == Total(s.queue) + |Pending(s)| + Sum(s.finished) + s.dropped + size
    requires OneWrite(s) && InOrder(s) && (s.connected ==> s.dropped == 0)
    ensures Inv(WriteMessage(s, size))
  {
    var k := Fitting(s.queue, 0);
    QueueSplits(s.queue, k);
    BatchBounds(s.queue, 0);
    FlattenLength(s.queue[..k]);
    var head, tail := Flatten(s.queue[..k]), Flatten(s.queue[k..]);
    ConcatAssociates(s.wire, head, tail);
    ConcatAssociates(s.wire + head, tail, []);
    hide Fitting, Flatten, Total, Sum;
    if s.connected && !s.sending && s.queue != [] {
      assert s.wire + [] == s.wire;
    }
  }

  lemma SendKeepsOrder(s: Sender, msg: seq<byte>, limited: bool)
    requires InOrder(s)
    ensures InOrder(SendMessage(s, msg, limited))
  {
    FlattenSnoc(s.queue, msg);
    FlattenSnoc(s.accepted, msg);
    ConcatAssociates(s.wire + Pending(s), Flatten(s.queue), msg);
    ConcatAssociates(s.wire + Pending(s), Flatten(s.queue) + msg, []);
    hide Flatten;
  }

  lemma SendKeepsInv(s: Sender, msg: seq<byte>, limited: bool)
    requires Inv(s)
    ensures Inv(Step(s, Send(msg, limited)))
  {
    SendKeepsOrder(s, msg, limited);
    TotalAppend(s.queue, [msg]);
    assert Total([msg]) == |msg| by { TotalOfNone(); assert [msg][1..] == []; }
    hide InOrder, Total, Sum;
  }

  lemma RunPostedKeepsInv(s: Sender)
    requires Inv(s) && Enabled(s, RunPosted)
    ensures Inv(Step(s, RunPosted))
  {
    hide Flatten, Total, Fitting, Sum, WriteMessage;
    WriteMessageKeepsInv(s.(posted := s.posted - 1), 0);
  }

  lemma CompleteKeepsInv(s: Sender)
    requires Inv(s) && Enabled(s, Complete)
    ensures Inv(Step(s, Complete))
  {
    hide Flatten, Total;
    SumAppend(s.finished, [|s.inFlight.value|]);
    assert Sum([|s.inFlight.value|]) == |s.inFlight.value|;
    hide Sum;
    assert Step(s, Complete).wire + [] == s.wire + s.inFlight.value;
  }

  lemma DeductKeepsInv(s: Sender, i: nat)
    requires Inv(s) && Enabled(s, Deduct(i))
    ensures Inv(Step(s, Deduct(i)))
  {
    hide Flatten, Total, Fitting, Sum, WriteMessage;
    SumRemove(s.finished, i);
    WriteMessageKeepsInv(s.(finished := s.finished[..i] + s.finished[i + 1..]), s.finished[i]);
  }

  lemma WriteFailedKeepsInv(s: Sender, n: nat)
    requires Inv(s) && Enabled(s, WriteFailed(n))
    ensures Inv(Step(s, WriteFailed(n)))
  {
    TotalOfNone();
    hide Flatten, Total, Sum;
    assert Step(s, WriteFailed(n)).wire + [] == s.wire + s.inFlight.value[..n];
  }

  lemma CloseKeepsInv(s: Sender)
    requires Inv(s)
    ensures Inv(Step(s, HandleClose)) && Inv(Step(s, ReadFailed))
  {
    TotalOfNone();
    hide Flatten, Total, Sum;
  }

  /** Every step keeps the accounting, the single outstanding write, the order of the bytes and the wake-up. */
  lemma StepKeepsInv(s: Sender, e: Event)
    requires Inv(s) && Enabled(s, e)
    ensures Inv(Step(s, e))
  {
    hide Inv, Step;
    match e
    case Send(msg, limited) => SendKeepsInv(s, msg, limited);
    case RunPosted => RunPostedKeepsInv(s);
    case Complete => CompleteKeepsInv(s);
    case Deduct(i) => DeductKeepsInv(s, i);
    case HandleClose => CloseKeepsInv(s);
    case WriteFailed(n) => WriteFailedKeepsInv(s, n);
    case ReadFailed => CloseKeepsInv(s);
  }

  // ---------- runs ----------

  predicate Runs(s: Sender, es: seq<Event>)
    decreases |es|
  {
    es == [] || (Enabled(s, es[0]) && Runs(Step(s, es[0]), es[1..]))
  }

  function Exec(s: Sender, es: seq<Event>): Sender
    requires Runs(s, es)
    decreases |es|
  {
    if es == [] then s else Exec(Step(s, es[0]), es[1..])
  }

  lemma {:induction false} RunKeepsInv(s: Sender, es: seq<Event>)
    requires Inv(s) && Runs(s, es)
    ensures Inv(Exec(s, es))
    decreases |es|
  {
    hide Inv, Step, Enabled;
    if es != [] {
      StepKeepsInv(s, es[0]);
      RunKeepsInv(Step(s, es[0]), es[1..]);
    }
  }

  /** Send accounting, over every interleaving of one connection. */
  lemma AccountingOverRuns(es: seq<Event>)
    requires Runs(FRESH, es)
    ensures Inv(Exec(FRESH, es))
  {
    RunKeepsInv(FRESH, es);
  }

  predicate Quiescent(s: Sender) {
    s.posted == 0 && s.inFlight == None && s.finished == []
  }

  /** Once nothing is due any more, every accepted message has been written out, in order and complete. */
  lemma QuiescentMeansSent(es: seq<Event>)
    requires Runs(FRESH, es)
    requires var s := Exec(FRESH, es); Quiescent(s) && s.connected && !s.full
    ensures var s := Exec(FRESH, es); s.queue == [] && s.wire == Flatten(s.accepted) && s.notSent == 0
  {
    AccountingOverRuns(es);
    var s := Exec(FRESH, es);
    assert s.wire + [] + [] == s.wire;
  }

  /** A message closes a limited connection exactly when it brings what was accepted and not yet deducted to thirty full
      batches; otherwise a write is posted. Without a limit nothing closes. */
  lemma LimitIff(s: Sender, msg: seq<byte>, limited: bool)
    requires Inv(s) && s.connected
    ensures var t := SendMessage(s, msg, limited);
      var outstanding := Total(s.queue) + |Pending(s)| + Sum(s.finished) + |msg|;
      if limited && outstanding >= 1_950_000 then t.full && t.posted == s.posted else t.full == s.full && t.posted == s.posted + 1
  {
    hide InOrder, Total, Sum;
  }

  // ---------- a closed connection ----------

  /** An error and a requested close both end the connection; from then on no message is accepted and no write is
      started, only the one outstanding may still end. */
  lemma ClosedIsSilent(s: Sender, e: Event)
    requires Enabled(s, e)
    ensures e.HandleClose? || e.WriteFailed? || e.ReadFailed? ==> !Step(s, e).connected
    ensures !s.connected ==> var t := Step(s, e);
      !t.connected && t.accepted == s.accepted && t.wire + Pending(t) <= s.wire + Pending(s)
  {
    hide Fitting, Flatten, Total;
    if !s.connected {
      var t := Step(s, e);
      assert s.wire + [] == s.wire && t.wire + [] == t.wire;
    }
  }

  /** Over every run after a close: what is written is at most the rest of the write outstanding at the close. */
  lemma {:induction false} ClosedRun(s: Sender, es: seq<Event>)
    requires !s.connected && Runs(s, es)
    ensures var t := Exec(s, es);
      !t.connected && t.accepted == s.accepted && t.wire + Pending(t) <= s.wire + Pending(s)
    decreases |es|
  {
    if es != [] {
      hide Step, Enabled, Pending;
      ClosedIsSilent(s, es[0]);
      ClosedRun(Step(s, es[0]), es[1..]);
    }
  }

  // ---------- progress ----------

  /** Every queued message fits a batch. */
  predicate AllFit(queue: seq<seq<byte>>) {
    forall m :: m in queue ==> |m| <= MAX_MESSAGE_LEN
  }

  predicate Sends(e: Event) { e.Send? }

  function Work(s: Sender): nat {
    3 * |s.queue| + (if s.inFlight.Some? then 2 else 0) + |s.finished| + s.posted
  }

  /** A _write_message uses up three units of work for every message it takes from the queue. */
  lemma WriteMessageProgress(s: Sender, size: int)
    requires Guarded(s) && AllFit(s.queue)
    ensures Work(WriteMessage(s, size)) <= Work(s) && AllFit(WriteMessage(s, size).queue)
  {
    var k := Fitting(s.queue, 0);
    assert s.queue != [] ==> k >= 1 by { if s.queue != [] { assert s.queue[0] in s.queue; } }
    hide Fitting, Flatten;
  }

  /** When every message fits a batch, each step other than a send or a handle_close uses up work that was already
      due; so after finitely many steps the session is quiescent. */
  lemma StepProgress(s: Sender, e: Event)
    requires Inv(s) && Enabled(s, e) && AllFit(s.queue)
    ensures Sends(e) ==> Work(Step(s, e)) <= Work(s) + 4
    ensures e.HandleClose? || e.ReadFailed? ==> Work(Step(s, e)) <= Work(s)
    ensures !Sends(e) && !e.HandleClose? && !e.ReadFailed? ==> Work(Step(s, e)) < Work(s)
    ensures AllFit(Step(s, e).queue) || (Sends(e) && |e.msg| > MAX_MESSAGE_LEN)
  {
    hide Accounted, InOrder, Awake, WriteMessage, Flatten, Total;
    match e
    case RunPosted => WriteMessageProgress(s.(posted := s.posted - 1), 0);
    case Deduct(i) => WriteMessageProgress(s.(finished := s.finished[..i] + s.finished[i + 1..]), s.finished[i]);
    case _ =>
  }

  /** What the outside world contributes: a send may add four units of work, a close takes one step. */
  function Budget(es: seq<Event>): nat {
    if es == [] then 0
    else (if Sends(es[0]) then 5 else if es[0].HandleClose? || es[0].ReadFailed? then 1 else 0) + Budget(es[1..])
  }

  /** A run is no longer than the work due at its start plus what was sent meanwhile: all writes finish. */
  lemma {:induction false} RunIsFinite(s: Sender, es: seq<Event>)
    requires Inv(s) && Runs(s, es) && AllFit(s.queue)
    requires forall i :: 0 <= i < |es| && es[i].Send? ==> |es[i].msg| <= MAX_MESSAGE_LEN
    ensures |es| <= Work(s) + Budget(es)
    decreases |es|
  {
    if es != [] {
      hide Inv, Step, Enabled, Work;
      StepKeepsInv(s, es[0]);
      StepProgress(s, es[0]);
      assert forall i :: 0 <= i < |es[1..]| ==> es[1..][i] == es[i + 1];
      RunIsFinite(Step(s, es[0]), es[1..]);
    }
  }

  // ---------- a message larger than the batch buffer ----------

  /** send_message's own check of the payload length. */
  predicate SendGuard(len: nat) {
    0 < len <= MAX_MESSAGE_LEN - 1
  }

  predicate Blocked(s: Sender) {
    s.queue != [] && |s.queue[0]| > MAX_MESSAGE_LEN && Pending(s) == []
  }

  /** A batch takes nothing from the queue exactly when the message at its head is larger than the buffer. */
  lemma EmptyBatchIff(queue: seq<seq<byte>>)
    requires queue != []
    ensures Fitting(queue, 0) == 0 <==> |queue[0]| > MAX_MESSAGE_LEN
  {}

  /** The check lets through exactly nine payload lengths whose uncompressed frame fits no batch: sent on a fresh
      connection, such a frame blocks it, and every other one is handed to the network whole. */
  lemma GuardAdmitsOversize(frame: seq<byte>)
    requires |frame| > MESSAGE_HEAD_LEN && SendGuard(|frame| - MESSAGE_HEAD_LEN)
    ensures var s := Step(Step(FRESH, Send(frame, false)), RunPosted);
      && (Blocked(s) <==> 64991 <= |frame| - MESSAGE_HEAD_LEN <= 64999)
      && (!Blocked(s) ==> s.queue == [] && s.inFlight == Some(frame))
  {
    assert [] + [frame] == [frame] && [frame][1..] == [] && frame + [] == frame;
    assert Fitting([frame], 0) == if |frame| > MAX_MESSAGE_LEN then 0 else 1;
    FlattenSnoc([], frame);
    assert [frame][..1] == [frame] && [frame][..0] == [] && [] + frame == frame;
  }

  /** Once an oversize message heads the queue, no step that leaves the connection's queue alive ever writes
      another byte: empty writes follow each other for ever. */
  lemma BlockedForEver(s: Sender, e: Event)
    requires Inv(s) && Blocked(s) && Enabled(s, e) && !e.WriteFailed? && !e.ReadFailed?
    ensures Blocked(Step(s, e)) && Step(s, e).wire == s.wire && Step(s, e).queue[0] == s.queue[0]
  {
    EmptyBatchIff(s.queue);
    hide Fitting, Total, Sum;
    assert s.queue[..0] == [] && s.queue[0..] == s.queue;
    assert Flatten(s.queue[..0]) == [];
  }

  lemma {:induction false} BlockedRun(s: Sender, es: seq<Event>)
    requires Inv(s) && Blocked(s) && Runs(s, es)
    requires forall i :: 0 <= i < |es| ==> !es[i].WriteFailed? && !es[i].ReadFailed?
    ensures Blocked(Exec(s, es)) && Exec(s, es).wire == s.wire
    decreases |es|
  {
    if es != [] {
      hide Inv, Step, Enabled, Blocked;
      StepKeepsInv(s, es[0]);
      BlockedForEver(s, es[0]);
      BlockedRun(Step(s, es[0]), es[1..]);
    }
  }

  /** The empty write that is started then completes into the very same situation. */
  lemma BlockedCycle(s: Sender)
    requires Inv(s) && Blocked(s) && s.connected && s.inFlight.Some? && s.finished == []
    ensures var t := Step(s, Complete);
      Enabled(t, Deduct(0)) && Step(t, Deduct(0)) == s
  {
    EmptyBatchIff(s.queue);
    assert s.queue[..0] == [] && s.queue[0..] == s.queue;
    assert Flatten(s.queue[..0]) == [];
    assert s.inFlight == Some([]);
    var t := Step(s, Complete);
    assert t.finished == [0] && t.finished[..0] + t.finished[1..] == [];
    assert t.wire == s.wire;
  }
}
