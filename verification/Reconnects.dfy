/** tcp_client: one session object that lives through many connections. Connecting again does not reset it. */
module Reconnects {
  import opened Bytes
  import opened Framing
  import opened Sending

  /** What happens to a client: the events of its session, and handle_connect without error. */
  datatype ClientEvent = Session(event: Event) | Connected

  predicate Possible(s: Sender, c: ClientEvent) {
    c.Session? ==> Enabled(s, c.event)
  }

  /** handle_connect raises m_isconnected and leaves every other field of the session as the last connection left it. */
  function Next(s: Sender, c: ClientEvent): Sender
    requires Possible(s, c)
  {
    match c
    case Session(e) => Step(s, e)
    case Connected => s.(connected := true)
  }

  /** The session object before its first connection. */
  const UNCONNECTED := FRESH.(connected := false)

  predicate Lives(s: Sender, cs: seq<ClientEvent>)
    decreases |cs|
  {
    cs == [] || (Possible(s, cs[0]) && Lives(Next(s, cs[0]), cs[1..]))
  }

  function Live(s: Sender, cs: seq<ClientEvent>): Sender
    requires Lives(s, cs)
    decreases |cs|
  {
    if cs == [] then s else Live(Next(s, cs[0]), cs[1..])
  }

  /** m_is_sending_data is set, and no write is outstanding that could clear it. */
  predicate Stuck(s: Sender) {
    s.sending && s.inFlight == None
  }

  predicate WriteFails(c: ClientEvent) {
    c.Session? && c.event.WriteFailed?
  }

  /** One step: only a failed write makes a client stuck, connecting again does not free it, and a stuck client
      writes nothing. */
  lemma StuckStepIff(s: Sender, c: ClientEvent)
    requires Guarded(s) && Possible(s, c)
    ensures Guarded(Next(s, c))
    ensures Stuck(Next(s, c)) <==> Stuck(s) || WriteFails(c)
    ensures Stuck(s) ==> Next(s, c).wire == s.wire
    ensures s.wire <= Next(s, c).wire
  {
    hide Fitting, Flatten, Total;
  }

  lemma {:induction false} LifeIsStuck(s: Sender, cs: seq<ClientEvent>)
    requires Guarded(s) && Lives(s, cs)
    ensures Guarded(Live(s, cs))
    ensures Stuck(Live(s, cs)) <==> Stuck(s) || exists i :: 0 <= i < |cs| && WriteFails(cs[i])
    ensures Stuck(s) ==> Live(s, cs).wire == s.wire
    decreases |cs|
  {
    if cs != [] {
      hide Stuck, Guarded, Next, WriteFails;
      StuckStepIff(s, cs[0]);
      var rest := cs[1..];
      LifeIsStuck(Next(s, cs[0]), rest);
      assert forall i :: 0 <= i < |rest| ==> rest[i] == cs[i + 1];
      if i :| 0 <= i < |cs| && WriteFails(cs[i]) {
        assert i > 0 ==> rest[i - 1] == cs[i];
      }
    }
  }

  /** A client that has just lost its connection and connects again hands its next message to the network exactly when
      the old connection left no write marked; otherwise the message stays in the queue. */
  lemma ReconnectedWritesIff(s: Sender, msg: seq<byte>)
    requires s.queue == [] && Guarded(s) && |msg| <= MAX_MESSAGE_LEN
    ensures var t := Step(Step(Next(s, Connected), Send(msg, false)), RunPosted);
      if s.sending then t.queue == [msg] && t.inFlight == s.inFlight else t.queue == [] && t.inFlight == Some(msg)
  {
    assert [] + [msg] == [msg] && [msg][1..] == [] && Fitting([], |msg|) == 0;
    assert Fitting([msg], 0) == 1;
    assert [msg][..1] == [msg];
    FlattenSnoc([], msg);
    assert [] + msg == msg;
    hide Fitting, Flatten;
  }

  /** Losing the connection, connecting again, queueing a message and writing it. */
  function AnotherTry(msg: seq<byte>): seq<ClientEvent> {
    [Session(ReadFailed), Connected, Session(Send(msg, false)), Session(RunPosted), Session(Complete)]
  }

  lemma TryWorks(s: Sender, msg: seq<byte>)
    requires s.inFlight == None && !s.sending && |msg| <= MAX_MESSAGE_LEN
    ensures Lives(s, AnotherTry(msg)) && Live(s, AnotherTry(msg)).wire == s.wire + msg
  {
    var s1 := Next(s, Session(ReadFailed));
    ReconnectedWritesIff(s1, msg);
    var s2 := Next(s1, Connected);
    var s3 := Next(s2, Session(Send(msg, false)));
    var s4 := Next(s3, Session(RunPosted));
    var s5 := Next(s4, Session(Complete));
    assert s4.inFlight == Some(msg) && s4.wire == s.wire && s5.wire == s.wire + msg;
    assert Possible(s2, Session(Send(msg, false))) && Possible(s3, Session(RunPosted)) && Possible(s4, Session(Complete));
    hide Next, Possible;
    var cs := AnotherTry(msg);
    assert Lives(s5, []);
    assert cs[4..] == [Session(Complete)] && cs[4..][1..] == [];
    assert Lives(s4, cs[4..]) && Live(s4, cs[4..]) == s5;
    assert cs[3..][1..] == cs[4..] && Lives(s3, cs[3..]) && Live(s3, cs[3..]) == s5;
    assert cs[2..][1..] == cs[3..] && Lives(s2, cs[2..]) && Live(s2, cs[2..]) == s5;
    assert cs[1..][1..] == cs[2..] && Lives(s1, cs[1..]) && Live(s1, cs[1..]) == s5;
  }

  /** From here on, some course of events still gets a byte onto the network. */
  ghost predicate CanStillWrite(s: Sender) {
    exists cs :: Lives(s, cs) && Live(s, cs).wire != s.wire
  }

  lemma CanWriteIff(s: Sender)
    requires Guarded(s)
    ensures CanStillWrite(s) <==> !Stuck(s)
  {
    hide Next, Possible;
    if Stuck(s) {
      forall cs | Lives(s, cs)
        ensures Live(s, cs).wire == s.wire
      {
        LifeIsStuck(s, cs);
      }
    } else if s.inFlight == None {
      TryWorks(s, [0]);
    } else {
      FinishThenTry(s);
    }
  }

  lemma FinishThenTry(s: Sender)
    requires Guarded(s) && s.inFlight.Some?
    ensures CanStillWrite(s)
  {
    var c := Session(Complete);
    assert Possible(s, c);
    var t := Next(s, c);
    assert t.wire == s.wire + s.inFlight.value && t.inFlight == None && !t.sending;
    hide Next, Possible, Step;
    TryWorks(t, [0]);
    var cs := [c] + AnotherTry([0]);
    assert cs[1..] == AnotherTry([0]);
    assert Lives(s, cs) && Live(s, cs) == Live(t, AnotherTry([0]));
    assert |Live(s, cs).wire| > |s.wire|;
  }

  /** Over every life of a client, through any number of connections: it can never send again, whatever happens,
      exactly when one of its writes has ever failed. */
  lemma SilentForEverIff(cs: seq<ClientEvent>)
    requires Lives(UNCONNECTED, cs)
    ensures CanStillWrite(Live(UNCONNECTED, cs)) <==> forall i :: 0 <= i < |cs| ==> !WriteFails(cs[i])
  {
    hide Next, Possible, WriteFails;
    LifeIsStuck(UNCONNECTED, cs);
    CanWriteIff(Live(UNCONNECTED, cs));
  }
}
