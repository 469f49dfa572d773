/** One gate and its game servers, joined by connections that deliver in order, come and go: the gate/game session
    protocol as a whole, and why a game server is left with no session the gate has forgotten. */
module Cluster {
  import opened Bytes
  import opened GateModel
  import opened GameModel
  import opened GateProofs

  /** The id under which this gate registers. */
  const GATE: GateId := 1

  /** What travels from the gate to a game server. */
  datatype Wire = Register | Relay(message: Message)

  /**
   * registered: the connection that is m_Gates[GATE]; users: this gate's sessions;
   * open: connections from the gate not yet seen closing, with what is still in flight on each; welcomed: connections
   * whose registration was processed (the reply makes the client active at the gate).
   */
  datatype Game = Game(registered: Option<nat>, users: GameUsers, open: map<nat, seq<Wire>>, welcomed: set<nat>)

  /** conns: the gate's current connection to each game server; issued: all ids the login server has given out. */
  datatype State = State(gate: Gate, conns: map<GameId, nat>, games: map<GameId, Game>, issued: set<TranId>, nextConn: nat)

  datatype Step =
    | AtGate(e: Event)                    // anything but link events
    | Connect(gs: GameId)                 // the gate's client connects and sends its registration
    | Deliver(gs: GameId, n: nat)         // the game server processes the next message of connection n
    | Welcome(gs: GameId)                 // the game server's reply reaches the gate
    | GateSeesClose(gs: GameId)
    | GameSeesClose(gs: GameId, n: nat)

  predicate Can(s: State, e: Step) {
    match e
    case AtGate(e) => !AboutLinks(e) && Enabled(s.gate, s.issued, e)
    case Connect(gs) => gs in s.games && gs !in s.conns
    case Deliver(gs, n) => gs in s.games && n in s.games[gs].open && s.games[gs].open[n] != []
    case Welcome(gs) => gs in s.conns && gs in s.games && s.conns[gs] in s.games[gs].welcomed
    case GateSeesClose(gs) => gs in s.conns
    case GameSeesClose(gs, n) => gs in s.games && n in s.games[gs].open
  }

  /** A message from the gate enters the current connection; if the game server has already closed it, it is lost. */
  function Route(s: State, post: Post): map<GameId, Game> {
    if post.Post? && post.game in s.conns && post.game in s.games && s.conns[post.game] in s.games[post.game].open then
      var g, n := s.games[post.game], s.conns[post.game];
      s.games[post.game := g.(open := g.open[n := g.open[n] + [Relay(post.message)]])]
    else s.games
  }

  /** The game server processes one message of connection n. */
  function Process(g: Game, n: nat): Game
    requires n in g.open && g.open[n] != []
  {
    var h := g.(open := g.open[n := g.open[n][1..]]);
    match g.open[n][0]
    case Register => h.(registered := Some(n), welcomed := g.welcomed + {n})
    case Relay(m) => h.(users := Receive(g.users, GATE, m))
  }

  /** GateSession::on_close: removeGate purges the gate's sessions only if this connection is the registered one. */
  function Hangup(g: Game, n: nat): Game {
    var h := g.(open := g.open - {n});
    if g.registered == Some(n) then h.(users := RemoveUserByGate(g.users, GATE), registered := None) else h
  }

  function Next(s: State, e: Step): State
    requires Tidy(s.gate) && Can(s, e)
  {
    match e
    case AtGate(e) =>
      var (g, post) := GateProofs.Step(s.gate, e);
      s.(gate := g, games := Route(s, post), issued := IssuedAfter(s.issued, e))
    case Connect(gs) =>
      var g := s.games[gs];
      s.(conns := s.conns[gs := s.nextConn], nextConn := s.nextConn + 1,
         games := s.games[gs := g.(open := g.open[s.nextConn := [Register]])])
    case Deliver(gs, n) => s.(games := s.games[gs := Process(s.games[gs], n)])
    case Welcome(gs) => s.(gate := LinkUp(s.gate, gs))
    case GateSeesClose(gs) => s.(gate := LinkDown(s.gate, gs), conns := s.conns - {gs})
    case GameSeesClose(gs, n) => s.(games := s.games[gs := Hangup(s.games[gs], n)])
  }

  // ---------- the ids a game server knows or is about to know ----------

  function WireEffect(d: set<TranId>, w: Wire): set<TranId> {
    match w
    case Register => d
    case Relay(m) => Effect(d, m)
  }

  /** The ids left once the messages in flight have been processed. */
  function Drain(d: set<TranId>, q: seq<Wire>): set<TranId>
    decreases |q|
  {
    if q == [] then d else Drain(WireEffect(d, q[0]), q[1..])
  }

  lemma {:induction false} DrainSnoc(d: set<TranId>, q: seq<Wire>, w: Wire)
    ensures Drain(d, q + [w]) == WireEffect(Drain(d, q), w)
    decreases |q|
  {
    if q == [] {
      assert [w][1..] == [] && [] + [w] == [w];
    } else {
      assert (q + [w])[0] == q[0] && (q + [w])[1..] == q[1..] + [w];
      DrainSnoc(WireEffect(d, q[0]), q[1..], w);
    }
  }

  lemma ReceiveKeys(users: GameUsers, m: Message)
    ensures Receive(users, GATE, m).Keys == Effect(users.Keys, m)
  {}

  lemma {:induction false} DrainMonotone(d: set<TranId>, e: set<TranId>, q: seq<Wire>)
    requires d <= e
    ensures Drain(d, q) <= Drain(e, q)
    decreases |q|
  {
    if q != [] {
      DrainMonotone(WireEffect(d, q[0]), WireEffect(e, q[0]), q[1..]);
    }
  }

  /** No user is announced in q. */
  predicate NoAdds(q: seq<Wire>) {
    forall i :: 0 <= i < |q| && q[i].Relay? ==> !q[i].message.Add?
  }

  function ConnOf(s: State, gs: GameId): Option<nat> {
    if gs in s.conns then Some(s.conns[gs]) else None
  }

  /** The ids game server gs will know of once everything on the gate's current connection has arrived. */
  function Expecting(gate: Gate, gs: GameId, conn: Option<nat>, g: Game): set<TranId> {
    if gs in gate.active && conn.Some? && conn.value in g.open then Drain(g.users.Keys, g.open[conn.value]) else {}
  }

  /** A registration may be handled on connection n: the one registered before, if it is still open, is neither the
      gate's current connection nor still announcing users; and if n itself is the gate's current connection, the game
      server has no users left from before. */
  predicate MayRegister(conn: Option<nat>, g: Game, n: nat) {
    && (g.registered.Some? && g.registered.value in g.open ==> conn != g.registered && NoAdds(g.open[g.registered.value]))
    && (conn == Some(n) ==> g.users == map[])
  }

  /** No accepted login of a session that still holds an id its game server knows, no registration too early. */
  predicate Careful(s: State, e: Step)
    requires Can(s, e)
  {
    match e
    case AtGate(LoginAs(p, t, idle)) =>
      var gs := s.gate.users[p].game;
      gs in s.games && LoginAccepted(s.gate, p, t, idle) ==>
        s.gate.users[p].tran !in Expecting(s.gate, gs, ConnOf(s, gs), s.games[gs])
    case Deliver(gs, n) => s.games[gs].open[n][0] == Register ==> MayRegister(ConnOf(s, gs), s.games[gs], n)
    case _ => true
  }

  // ---------- the invariant of one link ----------

  /** Bookkeeping of connections; `next` is the number of the next one. */
  predicate Shape(gate: Gate, gs: GameId, conn: Option<nat>, g: Game, next: nat) {
    && (forall t :: t in g.users ==> g.users[t].gate == GATE)
    && (forall n :: n in g.open ==> n < next)
    && (forall n :: n in g.welcomed ==> n < next)
    && (forall n :: n in g.open && n !in g.welcomed ==> g.open[n] == [Register])
    && (forall n :: n in g.open && n in g.welcomed ==> Register !in g.open[n])
    && (g.registered.Some? ==> g.registered.value in g.open && g.registered.value in g.welcomed)
    && (gs in gate.active ==> conn.Some? && conn.value in g.welcomed)
    && (conn.Some? ==> conn.value < next)
  }

  /** When the registered connection closes, no user is left, and none can arrive any more on another connection. */
  predicate Purges(conn: Option<nat>, g: Game) {
    && (g.registered == None ==> g.users == map[])
    && (forall w :: w in g.open && w in g.welcomed && g.registered != Some(w) ==> conn != Some(w) && NoAdds(g.open[w]))
  }

  /** While the gate's current connection lasts, everything the game server knows or is about to learn is backed. */
  predicate BackedNow(gate: Gate, gs: GameId, conn: Option<nat>, g: Game) {
    conn.Some? && conn.value in g.open && conn.value in g.welcomed ==>
      if gs in gate.active then Backed(gate, gs, Drain(g.users.Keys, g.open[conn.value]))
      else g.users == map[] && g.open[conn.value] == []
  }

  predicate LinkInv(gate: Gate, gs: GameId, conn: Option<nat>, g: Game, next: nat) {
    Shape(gate, gs, conn, g, next) && Purges(conn, g) && BackedNow(gate, gs, conn, g)
  }

  predicate Known(s: State) {
    GateInv(s.gate, s.issued) && s.gate.active <= s.games.Keys && s.conns.Keys <= s.games.Keys
  }

  /** What every step keeps. */
  predicate Formed(s: State) {
    Known(s) && forall gs :: gs in s.games ==> Shape(s.gate, gs, ConnOf(s, gs), s.games[gs], s.nextConn)
  }

  /** What every careful step keeps. */
  predicate Inv(s: State) {
    Known(s) && forall gs :: gs in s.games ==> LinkInv(s.gate, gs, ConnOf(s, gs), s.games[gs], s.nextConn)
  }

  // ---------- one link, one step ----------

  function Enqueue(g: Game, conn: Option<nat>, m: Message): Game {
    if conn.Some? && conn.value in g.open then g.(open := g.open[conn.value := g.open[conn.value] + [Relay(m)]]) else g
  }

  function EnqueuePost(gs: GameId, g: Game, conn: Option<nat>, post: Post): Game {
    if post.Post? && post.game == gs then Enqueue(g, conn, post.message) else g
  }

  lemma EnqueueShape(gate: Gate, h: Gate, gs: GameId, conn: Option<nat>, g: Game, next: nat, post: Post)
    requires Shape(gate, gs, conn, g, next) && h.active == gate.active && (post.Post? ==> post.game in gate.active)
    ensures Shape(h, gs, conn, EnqueuePost(gs, g, conn, post), next)
  {}

  /** Messages from the gate keep the link invariant exactly when what they leave at the game server is backed. */
  lemma EnqueueKeepsIff(gate: Gate, h: Gate, gs: GameId, conn: Option<nat>, g: Game, next: nat, post: Post)
    requires LinkInv(gate, gs, conn, g, next) && h.active == gate.active && (post.Post? ==> post.game in gate.active)
    ensures var g' := EnqueuePost(gs, g, conn, post);
      && Expecting(h, gs, conn, g') == (if gs in gate.active && conn.value in g.open then PostEffect(Expecting(gate, gs, conn, g), gs, post) else {})
      && (LinkInv(h, gs, conn, g', next) <==> Backed(h, gs, Expecting(h, gs, conn, g')))
  {
    EnqueueShape(gate, h, gs, conn, g, next, post);
    if post.Post? && post.game == gs && conn.value in g.open {
      DrainSnoc(g.users.Keys, g.open[conn.value], Relay(post.message));
    }
    hide Backed, Shape;
    assert gs in gate.active ==> conn.Some? && conn.value in g.welcomed by { ActiveIsWelcomed(gate, gs, conn, g, next); }
  }

  lemma ActiveIsWelcomed(gate: Gate, gs: GameId, conn: Option<nat>, g: Game, next: nat)
    requires Shape(gate, gs, conn, g, next)
    ensures gs in gate.active ==> conn.Some? && conn.value in g.welcomed
  {}

  lemma ExpectedIsBacked(gate: Gate, gs: GameId, conn: Option<nat>, g: Game, next: nat)
    requires LinkInv(gate, gs, conn, g, next)
    ensures Backed(gate, gs, Expecting(gate, gs, conn, g))
  {}

  lemma ConnectKeeps(gate: Gate, gs: GameId, g: Game, next: nat)
    requires Shape(gate, gs, None, g, next)
    ensures var g' := g.(open := g.open[next := [Register]]);
      && Shape(gate, gs, Some(next), g', next + 1)
      && (LinkInv(gate, gs, None, g, next) ==> LinkInv(gate, gs, Some(next), g', next + 1))
  {}

  lemma LaterConnections(gate: Gate, gs: GameId, conn: Option<nat>, g: Game, next: nat)
    requires Shape(gate, gs, conn, g, next)
    ensures Shape(gate, gs, conn, g, next + 1)
    ensures LinkInv(gate, gs, conn, g, next) ==> LinkInv(gate, gs, conn, g, next + 1)
  {}

  lemma RegisterShape(gate: Gate, gs: GameId, conn: Option<nat>, g: Game, next: nat, n: nat)
    requires Shape(gate, gs, conn, g, next) && n in g.open && g.open[n] != [] && g.open[n][0] == Register
    ensures n !in g.welcomed && g.open[n] == [Register] && Shape(gate, gs, conn, Process(g, n), next)
    ensures Process(g, n) == g.(open := g.open[n := []], registered := Some(n), welcomed := g.welcomed + {n})
  {
    assert g.open[n][0] in g.open[n];
    assert [Register][1..] == [];
  }

  /** A registration keeps the link invariant when it is not too early. */
  lemma RegisterKeeps(gate: Gate, gs: GameId, conn: Option<nat>, g: Game, next: nat, n: nat)
    requires LinkInv(gate, gs, conn, g, next) && n in g.open && g.open[n] != [] && g.open[n][0] == Register
    requires MayRegister(conn, g, n)
    ensures LinkInv(gate, gs, conn, Process(g, n), next)
  {
    RegisterShape(gate, gs, conn, g, next, n);
    hide Backed, Process, Drain;
    assert gs in gate.active ==> conn.Some? && conn.value in g.welcomed;
  }

  lemma TailHasNone(q: seq<Wire>)
    requires q != [] && Register !in q
    ensures Register !in q[1..] && (NoAdds(q) ==> NoAdds(q[1..]))
  {}

  lemma RelayShape(gate: Gate, gs: GameId, conn: Option<nat>, g: Game, next: nat, n: nat)
    requires Shape(gate, gs, conn, g, next) && n in g.open && g.open[n] != [] && g.open[n][0] != Register
    ensures n in g.welcomed && g.open[n][0].Relay? && Shape(gate, gs, conn, Process(g, n), next)
    ensures Process(g, n).users.Keys == Effect(g.users.Keys, g.open[n][0].message)
    ensures Process(g, n) == g.(open := g.open[n := g.open[n][1..]], users := Process(g, n).users)
  {
    assert n in g.welcomed;
    TailHasNone(g.open[n]);
    ReceiveOurs(g.users, g.open[n][0].message);
    ReceiveKeys(g.users, g.open[n][0].message);
  }

  lemma ReceiveOurs(users: GameUsers, m: Message)
    requires forall t :: t in users ==> users[t].gate == GATE
    ensures var r := Receive(users, GATE, m); forall t :: t in r ==> r[t].gate == GATE
  {}

  lemma RelayKeeps(gate: Gate, gs: GameId, conn: Option<nat>, g: Game, next: nat, n: nat)
    requires LinkInv(gate, gs, conn, g, next) && n in g.open && g.open[n] != [] && g.open[n][0] != Register
    ensures LinkInv(gate, gs, conn, Process(g, n), next)
  {
    var g' := Process(g, n);
    RelayShape(gate, gs, conn, g, next, n);
    TailHasNone(g.open[n]);
    RelayPurges(conn, g, g', n);
    hide Shape, Process, Purges;
    if conn.Some? && conn.value in g'.open && conn.value in g'.welcomed {
      if gs in gate.active {
        RelayBacks(gate, gs, conn, g, g', n);
      } else {
        assert n != conn.value;
        assert g'.users.Keys == {};
      }
      hide Backed;
    }
  }

  lemma RelayPurges(conn: Option<nat>, g: Game, g': Game, n: nat)
    requires Purges(conn, g) && n in g.open && n in g.welcomed && g.open[n] != [] && g.open[n][0].Relay?
    requires g'.users.Keys == Effect(g.users.Keys, g.open[n][0].message)
    requires g' == g.(open := g.open[n := g.open[n][1..]], users := g'.users)
    requires NoAdds(g.open[n]) ==> NoAdds(g.open[n][1..])
    ensures Purges(conn, g')
    ensures g.registered != Some(n) ==> conn != Some(n) && g'.users.Keys <= g.users.Keys
    ensures conn == Some(n) ==> g.registered == conn
  {
    if g.registered != Some(n) {
      assert !g.open[n][0].message.Add?;
      assert g.users == map[] ==> g'.users == map[] by { if g.users == map[] { assert g'.users.Keys == {}; } }
    }
  }

  lemma RelayBacks(gate: Gate, gs: GameId, conn: Option<nat>, g: Game, g': Game, n: nat)
    requires n in g.open && g.open[n] != [] && g.open[n][0].Relay?
    requires g'.users.Keys == Effect(g.users.Keys, g.open[n][0].message) && g'.open == g.open[n := g.open[n][1..]]
    requires g'.users.Keys <= g.users.Keys || conn == Some(n)
    requires conn.Some? && conn.value in g.open && Backed(gate, gs, Drain(g.users.Keys, g.open[conn.value]))
    ensures Backed(gate, gs, Drain(g'.users.Keys, g'.open[conn.value]))
  {
    if conn != Some(n) {
      DrainMonotone(g'.users.Keys, g.users.Keys, g.open[conn.value]);
    }
    hide Owned;
  }

  lemma HangupKeeps(gate: Gate, gs: GameId, conn: Option<nat>, g: Game, next: nat, n: nat)
    requires Shape(gate, gs, conn, g, next) && n in g.open
    ensures Shape(gate, gs, conn, Hangup(g, n), next)
    ensures g.registered == Some(n) ==> Hangup(g, n) == g.(open := g.open - {n}, users := map[], registered := None)
    ensures LinkInv(gate, gs, conn, g, next) ==> LinkInv(gate, gs, conn, Hangup(g, n), next)
  {
    hide Backed;
    if g.registered == Some(n) {
      assert RemoveUserByGate(g.users, GATE) == map[];
    }
  }

  lemma WelcomeKeeps(gate: Gate, gs: GameId, conn: Option<nat>, g: Game, next: nat)
    requires Shape(gate, gs, conn, g, next) && conn.Some? && conn.value in g.welcomed
    ensures Shape(LinkUp(gate, gs), gs, conn, g, next)
    ensures LinkInv(gate, gs, conn, g, next) ==> LinkInv(LinkUp(gate, gs), gs, conn, g, next)
  {
    SameBacking(gate, LinkUp(gate, gs), gs, if conn.value in g.open then Drain(g.users.Keys, g.open[conn.value]) else {});
    assert g.users == map[] ==> g.users.Keys == {};
    assert Backed(LinkUp(gate, gs), gs, Drain({}, []));
    hide Backed;
  }

  lemma SameBacking(gate: Gate, gate': Gate, gs: GameId, d: set<TranId>)
    requires gate'.users == gate.users && gate'.recon == gate.recon
    ensures Backed(gate, gs, d) <==> Backed(gate', gs, d)
  {
    forall t ensures Owned(gate, gs, t) <==> Owned(gate', gs, t) {}
  }

  lemma OthersWelcomed(gate: Gate, other: GameId, gs: GameId, conn: Option<nat>, g: Game, next: nat)
    requires Shape(gate, gs, conn, g, next) && other != gs
    ensures Shape(LinkUp(gate, other), gs, conn, g, next)
    ensures LinkInv(gate, gs, conn, g, next) ==> LinkInv(LinkUp(gate, other), gs, conn, g, next)
  {
    SameBacking(gate, LinkUp(gate, other), gs, if conn.Some? && conn.value in g.open then Drain(g.users.Keys, g.open[conn.value]) else {});
    hide Backed;
  }

  /** The gate sees its connection close: nothing is claimed until the next one has registered. */
  lemma GateCloseKeeps(gate: Gate, gs: GameId, conn: Option<nat>, g: Game, next: nat)
    requires Shape(gate, gs, conn, g, next)
    ensures Shape(LinkDown(gate, gs), gs, None, g, next)
    ensures LinkInv(gate, gs, conn, g, next) ==> LinkInv(LinkDown(gate, gs), gs, None, g, next)
  {
    hide Backed;
  }

  lemma OthersClosed(gate: Gate, issued: set<TranId>, other: GameId, gs: GameId, conn: Option<nat>, g: Game, next: nat)
    requires GateInv(gate, issued) && Shape(gate, gs, conn, g, next) && other != gs
    ensures Shape(LinkDown(gate, other), gs, conn, g, next)
    ensures LinkInv(gate, gs, conn, g, next) ==> LinkInv(LinkDown(gate, other), gs, conn, g, next)
  {
    if LinkInv(gate, gs, conn, g, next) && gs in gate.active && conn.value in g.open {
      DownBacked(gate, issued, gs, Drain(g.users.Keys, g.open[conn.value]), other);
    }
    hide Backed, GateInv, RemoveUsers;
  }

  // ---------- the whole state, one step ----------

  lemma RouteAt(s: State, post: Post)
    ensures Route(s, post).Keys == s.games.Keys
    ensures forall gs :: gs in s.games ==> Route(s, post)[gs] == EnqueuePost(gs, s.games[gs], ConnOf(s, gs), post)
  {}

  lemma KnownStep(s: State, e: Step)
    requires Known(s) && Can(s, e)
    ensures Known(Next(s, e))
  {
    match e
    case AtGate(e) =>
      StepKeepsTokens(s.gate, s.issued, e);
      StepKeepsActive(s.gate, s.issued, e);
      RouteAt(s, GateProofs.Step(s.gate, e).1);
      hide GateInv, GateProofs.Step, Enabled, Route;
    case Connect(gs) =>
    case Deliver(gs, n) =>
    case Welcome(gs) =>
      UpKeeps(s.gate, s.issued, gs);
    case GateSeesClose(gs) =>
      DownKeeps(s.gate, s.issued, gs);
      LinkDownActive(s.gate, gs);
    case GameSeesClose(gs, n) =>
  }

  lemma LinkDownActive(gate: Gate, gs: GameId)
    ensures LinkDown(gate, gs).active == gate.active - {gs}
  {}

  /** Every step, careful or not, keeps the bookkeeping of connections. */
  lemma FormedStep(s: State, e: Step)
    requires Formed(s) && Can(s, e)
    ensures Formed(Next(s, e))
  {
    KnownStep(s, e);
    var s' := Next(s, e);
    forall gs | gs in s'.games
      ensures Shape(s'.gate, gs, ConnOf(s', gs), s'.games[gs], s'.nextConn)
    {
      ShapeStep(s, e, gs);
    }
  }

  lemma FormedAt(s: State, gs: GameId)
    requires Formed(s) && gs in s.games
    ensures Shape(s.gate, gs, ConnOf(s, gs), s.games[gs], s.nextConn) && Tidy(s.gate) && GateInv(s.gate, s.issued)
  {}

  lemma AtGateShape(s: State, e: Event, gs: GameId)
    requires Formed(s) && Can(s, AtGate(e)) && gs in s.games
    ensures var s' := Next(s, AtGate(e)); gs in s'.games && Shape(s'.gate, gs, ConnOf(s', gs), s'.games[gs], s'.nextConn)
  {
    hide Formed, GateInv, GateProofs.Step, Route, Shape, EnqueuePost, Tidy;
    FormedAt(s, gs);
    var (h, post) := GateProofs.Step(s.gate, e);
    StepKeepsActive(s.gate, s.issued, e);
    RouteAt(s, post);
    EnqueueShape(s.gate, h, gs, ConnOf(s, gs), s.games[gs], s.nextConn, post);
  }

  lemma DeliverShape(s: State, hs: GameId, n: nat, gs: GameId)
    requires Formed(s) && Can(s, Deliver(hs, n)) && gs in s.games
    ensures var s' := Next(s, Deliver(hs, n)); gs in s'.games && Shape(s'.gate, gs, ConnOf(s', gs), s'.games[gs], s'.nextConn)
  {
    hide Formed, GateInv, Shape, Process, Tidy;
    FormedAt(s, gs);
    if hs == gs {
      if s.games[gs].open[n][0] == Register {
        RegisterShape(s.gate, gs, ConnOf(s, gs), s.games[gs], s.nextConn, n);
      } else {
        RelayShape(s.gate, gs, ConnOf(s, gs), s.games[gs], s.nextConn, n);
      }
    }
  }

  lemma ShapeStep(s: State, e: Step, gs: GameId)
    requires Formed(s) && Can(s, e) && gs in s.games
    ensures var s' := Next(s, e); gs in s'.games && Shape(s'.gate, gs, ConnOf(s', gs), s'.games[gs], s'.nextConn)
  {
    hide Formed, GateInv, Shape, LinkUp, LinkDown, Hangup, Tidy;
    FormedAt(s, gs);
    var g, conn, next := s.games[gs], ConnOf(s, gs), s.nextConn;
    match e
    case AtGate(e) => AtGateShape(s, e, gs);
    case Deliver(hs, n) => DeliverShape(s, hs, n, gs);
    case Connect(hs) =>
      if hs == gs { ConnectKeeps(s.gate, gs, g, next); } else { LaterConnections(s.gate, gs, conn, g, next); }
    case Welcome(hs) =>
      if hs == gs { WelcomeKeeps(s.gate, gs, conn, g, next); } else { OthersWelcomed(s.gate, hs, gs, conn, g, next); }
    case GateSeesClose(hs) =>
      if hs == gs { GateCloseKeeps(s.gate, gs, conn, g, next); } else { OthersClosed(s.gate, s.issued, hs, gs, conn, g, next); }
    case GameSeesClose(hs, n) =>
      if hs == gs { HangupKeeps(s.gate, gs, conn, g, next, n); }
  }

  lemma InvIsFormed(s: State)
    requires Inv(s)
    ensures Formed(s)
  {}

  /** A session that holds an id expected at a game server is bound to it. */
  lemma HolderIsBound(s: State, gs: GameId, p: nat)
    requires Inv(s) && gs in s.games && p < |s.gate.users|
    requires s.gate.users[p].tran in Expecting(s.gate, gs, ConnOf(s, gs), s.games[gs])
    ensures s.gate.users[p].game == gs && gs in s.gate.active && s.gate.users[p].tran != INVALID_TRANS_ID
  {
    assert LinkInv(s.gate, gs, ConnOf(s, gs), s.games[gs], s.nextConn);
    ExpectedIsBacked(s.gate, gs, ConnOf(s, gs), s.games[gs], s.nextConn);
    NobodyIsNotOwned(s.gate, s.issued, gs);
    OwnerIsUnique(s.gate, s.issued, gs, s.gate.users[p].tran, p);
  }

  /** A login is careful exactly when it lets go of nothing at any game server. */
  lemma CarefulRebindsNothing(s: State, e: Event, gs: GameId)
    requires Inv(s) && Can(s, AtGate(e)) && Careful(s, AtGate(e)) && gs in s.games
    ensures !Rebinds(s.gate, Expecting(s.gate, gs, ConnOf(s, gs), s.games[gs]), e)
  {
    if Rebinds(s.gate, Expecting(s.gate, gs, ConnOf(s, gs), s.games[gs]), e) {
      HolderIsBound(s, gs, e.p);
      assert false;
    }
  }

  lemma AtGateLink(s: State, e: Event, gs: GameId)
    requires Inv(s) && Can(s, AtGate(e)) && Careful(s, AtGate(e)) && gs in s.games
    ensures var s' := Next(s, AtGate(e)); gs in s'.games && LinkInv(s'.gate, gs, ConnOf(s', gs), s'.games[gs], s'.nextConn)
  {
    var g, conn, next := s.games[gs], ConnOf(s, gs), s.nextConn;
    var (h, post) := GateProofs.Step(s.gate, e);
    var d := Expecting(s.gate, gs, conn, g);
    assert LinkInv(s.gate, gs, conn, g, next);
    StepKeepsActive(s.gate, s.issued, e);
    CarefulRebindsNothing(s, e, gs);
    RouteAt(s, post);
    EnqueueKeepsIff(s.gate, h, gs, conn, g, next, post);
    ExpectedIsBacked(s.gate, gs, conn, g, next);
    if gs in s.gate.active {
      StepKeepsBackedIff(s.gate, s.issued, gs, d, e);
    }
    hide GateInv, GateProofs.Step, Enabled, Route, LinkInv, Expecting, EnqueuePost, Owned;
  }

  /** Every careful step keeps the invariant. */
  lemma StepKeepsInv(s: State, e: Step)
    requires Inv(s) && Can(s, e) && Careful(s, e)
    ensures Inv(Next(s, e))
  {
    KnownStep(s, e);
    var s' := Next(s, e);
    forall gs | gs in s'.games
      ensures LinkInv(s'.gate, gs, ConnOf(s', gs), s'.games[gs], s'.nextConn)
    {
      LinkStep(s, e, gs);
    }
  }

  lemma DeliverLink(gate: Gate, gs: GameId, conn: Option<nat>, g: Game, next: nat, n: nat)
    requires LinkInv(gate, gs, conn, g, next) && n in g.open && g.open[n] != []
    requires g.open[n][0] == Register ==> MayRegister(conn, g, n)
    ensures LinkInv(gate, gs, conn, Process(g, n), next)
  {
    hide LinkInv, MayRegister, Process;
    if g.open[n][0] == Register {
      RegisterKeeps(gate, gs, conn, g, next, n);
    } else {
      RelayKeeps(gate, gs, conn, g, next, n);
    }
  }

  lemma LinkStep(s: State, e: Step, gs: GameId)
    requires Inv(s) && Can(s, e) && Careful(s, e) && gs in s.games
    ensures var s' := Next(s, e); gs in s'.games && LinkInv(s'.gate, gs, ConnOf(s', gs), s'.games[gs], s'.nextConn)
  {
    hide Inv, LinkInv, Shape, Careful;
    match e
    case AtGate(e) => AtGateLink(s, e, gs);
    case Deliver(hs, n) => DeliverStep(s, hs, n, gs);
    case Connect(hs) => ConnectStep(s, hs, gs);
    case Welcome(hs) => WelcomeStep(s, hs, gs);
    case GateSeesClose(hs) => GateCloseStep(s, hs, gs);
    case GameSeesClose(hs, n) => GameCloseStep(s, hs, n, gs);
  }

  lemma DeliverStep(s: State, hs: GameId, n: nat, gs: GameId)
    requires Inv(s) && Can(s, Deliver(hs, n)) && Careful(s, Deliver(hs, n)) && gs in s.games
    ensures var s' := Next(s, Deliver(hs, n)); gs in s'.games && LinkInv(s'.gate, gs, ConnOf(s', gs), s'.games[gs], s'.nextConn)
  {
    assert LinkInv(s.gate, gs, ConnOf(s, gs), s.games[gs], s.nextConn);
    hide Inv, LinkInv, MayRegister, Process, Tidy;
    if hs == gs {
      DeliverLink(s.gate, gs, ConnOf(s, gs), s.games[gs], s.nextConn, n);
    }
  }

  lemma InvAt(s: State, gs: GameId)
    requires Inv(s) && gs in s.games
    ensures LinkInv(s.gate, gs, ConnOf(s, gs), s.games[gs], s.nextConn)
    ensures Shape(s.gate, gs, ConnOf(s, gs), s.games[gs], s.nextConn)
    ensures Tidy(s.gate) && GateInv(s.gate, s.issued)
  {}

  lemma ConnectStep(s: State, hs: GameId, gs: GameId)
    requires Inv(s) && Can(s, Connect(hs)) && gs in s.games
    ensures var s' := Next(s, Connect(hs)); gs in s'.games && LinkInv(s'.gate, gs, ConnOf(s', gs), s'.games[gs], s'.nextConn)
  {
    hide Inv, Shape, LinkInv, GateInv, LinkUp, LinkDown, Hangup, Known;
    InvAt(s, gs);
    var g, conn, next := s.games[gs], ConnOf(s, gs), s.nextConn;
    if hs == gs {
      ConnectKeeps(s.gate, gs, g, next);
    } else {
      LaterConnections(s.gate, gs, conn, g, next);
    }
  }

  lemma WelcomeStep(s: State, hs: GameId, gs: GameId)
    requires Inv(s) && Can(s, Welcome(hs)) && gs in s.games
    ensures var s' := Next(s, Welcome(hs)); gs in s'.games && LinkInv(s'.gate, gs, ConnOf(s', gs), s'.games[gs], s'.nextConn)
  {
    hide Inv, Shape, LinkInv, GateInv, LinkUp, LinkDown, Hangup, Known;
    InvAt(s, gs);
    var g, conn, next := s.games[gs], ConnOf(s, gs), s.nextConn;
    if hs == gs {
      WelcomeKeeps(s.gate, gs, conn, g, next);
    } else {
      OthersWelcomed(s.gate, hs, gs, conn, g, next);
    }
  }

  lemma GateCloseStep(s: State, hs: GameId, gs: GameId)
    requires Inv(s) && Can(s, GateSeesClose(hs)) && gs in s.games
    ensures var s' := Next(s, GateSeesClose(hs)); gs in s'.games && LinkInv(s'.gate, gs, ConnOf(s', gs), s'.games[gs], s'.nextConn)
  {
    hide Inv, Shape, LinkInv, GateInv, LinkUp, LinkDown, Hangup, Known;
    InvAt(s, gs);
    var g, conn, next := s.games[gs], ConnOf(s, gs), s.nextConn;
    if hs == gs {
      GateCloseKeeps(s.gate, gs, conn, g, next);
    } else {
      CloseElsewhere(s, hs, gs);
    }
  }

  lemma GameCloseStep(s: State, hs: GameId, n: nat, gs: GameId)
    requires Inv(s) && Can(s, GameSeesClose(hs, n)) && gs in s.games
    ensures var s' := Next(s, GameSeesClose(hs, n)); gs in s'.games && LinkInv(s'.gate, gs, ConnOf(s', gs), s'.games[gs], s'.nextConn)
  {
    hide Inv, Shape, LinkInv, GateInv, LinkUp, LinkDown, Hangup, Known;
    InvAt(s, gs);
    var g, conn, next := s.games[gs], ConnOf(s, gs), s.nextConn;
    if hs == gs {
      HangupKeeps(s.gate, gs, conn, g, next, n);
    }
  }

  lemma CloseElsewhere(s: State, hs: GameId, gs: GameId)
    requires Inv(s) && gs in s.games && hs != gs
    ensures LinkInv(LinkDown(s.gate, hs), gs, ConnOf(s, gs), s.games[gs], s.nextConn)
  {
    hide GateInv, Shape, LinkDown;
    assert LinkInv(s.gate, gs, ConnOf(s, gs), s.games[gs], s.nextConn);
    OthersClosed(s.gate, s.issued, hs, gs, ConnOf(s, gs), s.games[gs], s.nextConn);
  }

  // ---------- runs ----------

  /** A gate with a pool of idle sessions, game servers that have not heard from it. */
  predicate Fresh(s: State) {
    && s.gate == Gate(s.gate.users, map[], map[], map[], map[], {}, multiset{}, {})
    && (forall i :: 0 <= i < |s.gate.users| ==> s.gate.users[i] == User(Disabled, INVALID_TRANS_ID, INVALID_GAME_ID))
    && s.conns == map[] && s.issued == {} && s.nextConn == 0
    && (forall gs :: gs in s.games ==> s.games[gs] == Game(None, map[], map[], {}))
  }

  lemma FreshInv(s: State)
    requires Fresh(s)
    ensures Inv(s)
  {}

  /** Enabled steps, in any order. */
  predicate Runs(s: State, es: seq<Step>)
    decreases |es|
  {
    es == [] || (Tidy(s.gate) && Can(s, es[0]) && Runs(Next(s, es[0]), es[1..]))
  }

  function Exec(s: State, es: seq<Step>): State
    requires Runs(s, es)
    decreases |es|
  {
    if es == [] then s else Exec(Next(s, es[0]), es[1..])
  }

  predicate AllCareful(s: State, es: seq<Step>)
    requires Runs(s, es)
    decreases |es|
  {
    es == [] || (Careful(s, es[0]) && AllCareful(Next(s, es[0]), es[1..]))
  }

  lemma {:induction false} RunKeepsFormed(s: State, es: seq<Step>)
    requires Formed(s) && Runs(s, es)
    ensures Formed(Exec(s, es))
    decreases |es|
  {
    hide Formed, Next, Can;
    if es != [] {
      FormedStep(s, es[0]);
      RunKeepsFormed(Next(s, es[0]), es[1..]);
    }
  }

  /** Token uniqueness: after every run - logins before or after their session's on_accept, closes, kicks, timers and
      links in any order - the awaited, online and reconnecting ids are disjoint, at most one session object holds any
      id, parked ids are held by nobody, and no id is recorded for two accounts. */
  lemma TokensUnique(s: State, es: seq<Step>)
    requires Fresh(s) && Runs(s, es)
    ensures var g := Exec(s, es).gate;
      HeldOnce(g) && Disjoint(g) && FreeWhileParked(g) && AccountsDistinct(g)
  {
    FreshInv(s);
    InvIsFormed(s);
    RunKeepsFormed(s, es);
  }

  lemma {:induction false} RunKeepsInv(s: State, es: seq<Step>)
    requires Inv(s) && Runs(s, es) && AllCareful(s, es)
    ensures Inv(Exec(s, es))
    decreases |es|
  {
    hide Inv, Next, Careful, Can;
    if es != [] {
      StepKeepsInv(s, es[0]);
      RunKeepsInv(Next(s, es[0]), es[1..]);
    }
  }

  /** Nothing is in flight to gs and every earlier connection has been seen closing. */
  predicate Drained(s: State, gs: GameId)
    requires gs in s.games
  {
    forall n :: n in s.games[gs].open ==> gs in s.conns && s.conns[gs] == n && s.games[gs].open[n] == []
  }

  /** A session the game server keeps for an id that no open gate session bound to that server holds, and that does
      not wait at the gate to reconnect to it - with nothing in flight that could still remove it. */
  predicate Orphan(s: State, gs: GameId, t: TranId) {
    gs in s.games && Drained(s, gs) && t in s.games[gs].users && !Owned(s.gate, gs, t)
  }

  lemma DrainedIsOwned(s: State, gs: GameId, t: TranId)
    requires Inv(s) && gs in s.games && Drained(s, gs) && t in s.games[gs].users
    ensures Owned(s.gate, gs, t)
  {
    var g := s.games[gs];
    hide GateInv, Owned;
    assert LinkInv(s.gate, gs, ConnOf(s, gs), g, s.nextConn);
    assert g.registered.Some?;
    assert Drain(g.users.Keys, g.open[g.registered.value]) == g.users.Keys;
  }

  lemma InvHasNoOrphan(s: State, gs: GameId, t: TranId)
    requires Inv(s)
    ensures !Orphan(s, gs, t)
  {
    if gs in s.games && Drained(s, gs) && t in s.games[gs].users {
      DrainedIsOwned(s, gs, t);
    }
  }

  /** No orphan game sessions: along every run of careful steps, across logins, closes, kicks, timers and lost links,
      once the messages to a game server are drained each session it keeps for this gate belongs to an id that an open
      gate session bound to that server holds, or that waits at the gate to reconnect to it. */
  lemma NoOrphans(s: State, es: seq<Step>, gs: GameId, t: TranId)
    requires Fresh(s) && Runs(s, es) && AllCareful(s, es)
    ensures !Orphan(Exec(s, es), gs, t)
  {
    FreshInv(s);
    RunKeepsInv(s, es);
    InvHasNoOrphan(Exec(s, es), gs, t);
  }
}
