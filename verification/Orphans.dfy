/** The exact condition under which a step of gate, game servers and connections can leave an orphan: Cluster proves
    that careful steps never do, this module that every other step can. */
module Orphans {
  import opened Bytes
  import opened GateModel
  import opened GameModel
  import opened GateProofs
  import opened Cluster

  /** Careful steps alone can still lead to an orphan. */
  ghost predicate CanLeaveOrphan(s: State) {
    exists es: seq<Cluster.Step>, gs, t :: LeadsToOrphan(s, es, gs, t)
  }

  predicate LeadsToOrphan(s: State, es: seq<Cluster.Step>, gs: GameId, t: TranId) {
    Runs(s, es) && AllCareful(s, es) && Orphan(Exec(s, es), gs, t)
  }

  lemma FoundOrphan(s: State, gs: GameId, t: TranId)
    requires Orphan(s, gs, t)
    ensures CanLeaveOrphan(s)
  {
    assert LeadsToOrphan(s, [], gs, t);
  }

  lemma FormedIsTidy(s: State)
    requires Formed(s)
    ensures Tidy(s.gate) && GateInv(s.gate, s.issued)
  {}

  lemma Earlier(s: State, e: Cluster.Step)
    requires Tidy(s.gate) && Can(s, e) && Careful(s, e) && CanLeaveOrphan(Cluster.Next(s, e))
    ensures CanLeaveOrphan(s)
  {
    hide Cluster.Next, Can, Careful, Orphan, Tidy;
    var es, gs, t :| LeadsToOrphan(Cluster.Next(s, e), es, gs, t);
    assert ([e] + es)[0] == e && ([e] + es)[1..] == es;
    assert LeadsToOrphan(s, [e] + es, gs, t);
  }

  /** A careful step, and the fact that whatever can happen after it can happen before it. */
  lemma Go(s: State, e: Cluster.Step) returns (u: State)
    requires Formed(s) && Can(s, e) && Careful(s, e)
    ensures Tidy(s.gate) && u == Cluster.Next(s, e) && Formed(u)
    ensures CanLeaveOrphan(u) ==> CanLeaveOrphan(s)
  {
    hide Cluster.Next, Can, Careful, GateInv, Formed, Tidy, CanLeaveOrphan;
    FormedIsTidy(s);
    FormedStep(s, e);
    u := Cluster.Next(s, e);
    if CanLeaveOrphan(u) {
      Earlier(s, e);
    }
  }

  lemma HangUp(s: State, gs: GameId, n: nat) returns (u: State)
    requires Formed(s) && gs in s.games && n in s.games[gs].open
    ensures Formed(u) && u.gate == s.gate && u.conns == s.conns && gs in u.games
    ensures var g := s.games[gs];
      u.games[gs] == if g.registered == Some(n) then g.(open := g.open - {n}, users := map[], registered := None)
                     else g.(open := g.open - {n})
    ensures u.games.Keys == s.games.Keys && (CanLeaveOrphan(u) ==> CanLeaveOrphan(s))
  {
    hide Formed, Shape;
    FormedAt(s, gs);
    HangupKeeps(s.gate, gs, ConnOf(s, gs), s.games[gs], s.nextConn, n);
    u := Go(s, GameSeesClose(gs, n));
  }

  lemma Arrive(s: State, gs: GameId, w: nat) returns (u: State)
    requires Formed(s) && gs in s.games && w in s.games[gs].open && w in s.games[gs].welcomed && s.games[gs].open[w] != []
    ensures Formed(u) && u.gate == s.gate && u.conns == s.conns && gs in u.games
    ensures var g := s.games[gs];
      && u.games[gs] == g.(open := g.open[w := g.open[w][1..]], users := u.games[gs].users)
      && u.games[gs].users.Keys == WireEffect(g.users.Keys, g.open[w][0])
    ensures CanLeaveOrphan(u) ==> CanLeaveOrphan(s)
  {
    var g := s.games[gs];
    FormedAt(s, gs);
    assert g.open[w][0] in g.open[w];
    assert g.open[w][0] != Register;
    hide Formed, Shape, Process;
    RelayShape(s.gate, gs, ConnOf(s, gs), g, s.nextConn, w);
    u := Go(s, Deliver(gs, w));
  }

  lemma LoseLink(s: State, gs: GameId) returns (u: State)
    requires Formed(s) && gs in s.conns && gs in s.games
    ensures Formed(u) && u.games == s.games && gs !in u.conns && gs !in u.gate.active
    ensures CanLeaveOrphan(u) ==> CanLeaveOrphan(s)
  {
    LinkDownActive(s.gate, gs);
    hide Formed, LinkDown;
    u := Go(s, GateSeesClose(gs));
  }

  // ---------- how an orphan comes about ----------

  /** The gate lets go of an id at a game server that is not active, without a word to it. */
  lemma LetGo(s: State, gs: GameId, t: TranId)
    requires Formed(s) && gs in s.games && gs != INVALID_GAME_ID && gs !in s.gate.active
    requires Drained(s, gs) && t in s.games[gs].users
    ensures CanLeaveOrphan(s)
  {
    hide Formed, GateInv, Close;
    if Owned(s.gate, gs, t) {
      FormedIsTidy(s);
      NotParked(s.gate, s.issued, gs, t);
      var i :| 0 <= i < |s.gate.users| && Holds(s.gate.users[i], t) && s.gate.users[i].game == gs;
      CloseLetsGo(s.gate, s.issued, gs, t, i);
      hide Owned;
      var u := Go(s, AtGate(Closed(i)));
      FoundOrphan(u, gs, t);
    } else {
      FoundOrphan(s, gs, t);
    }
  }

  lemma NotParked(g: Gate, issued: set<TranId>, gs: GameId, t: TranId)
    requires GateInv(g, issued) && gs !in g.active
    ensures !(t in g.recon && g.recon[t] == gs)
  {}

  lemma CloseLetsGo(g: Gate, issued: set<TranId>, gs: GameId, t: TranId, i: nat)
    requires GateInv(g, issued) && gs != INVALID_GAME_ID && gs !in g.active
    requires i < |g.users| && g.users[i].tran == t && g.users[i].game == gs
    ensures var (h, post) := Close(g, i); !Owned(h, gs, t) && post == Nothing
  {}

  /** Every open connection can be closed without a purge, or may stay. */
  predicate Closable(conn: Option<nat>, g: Game) {
    forall n :: n in g.open && g.registered == Some(n) ==> conn == Some(n) && g.open[n] == []
  }

  /** The other connections close, and a user of the game server is left behind. */
  lemma CloseRest(s: State, gs: GameId, t: TranId)
    requires Formed(s) && gs in s.games && gs != INVALID_GAME_ID
    requires gs !in s.gate.active || !Owned(s.gate, gs, t)
    requires t in s.games[gs].users && Closable(ConnOf(s, gs), s.games[gs])
    ensures CanLeaveOrphan(s)
    decreases |s.games[gs].open|
  {
    hide Formed, Owned, CanLeaveOrphan;
    var g := s.games[gs];
    if Drained(s, gs) {
      if Owned(s.gate, gs, t) {
        LetGo(s, gs, t);
      } else {
        FoundOrphan(s, gs, t);
      }
    } else {
      var n :| n in g.open && !(gs in s.conns && s.conns[gs] == n && g.open[n] == []);
      Fewer(g.open, n);
      var u := HangUp(s, gs, n);
      CloseRest(u, gs, t);
    }
  }

  lemma Fewer(m: map<nat, seq<Wire>>, n: nat)
    requires n in m
    ensures |m - {n}| < |m|
  {
    assert m.Keys == (m - {n}).Keys + {n};
    assert |m.Keys| == |m| && |(m - {n}).Keys| == |m - {n}|;
  }

  /** The first k messages of connection w arrive, then the rest closes. */
  lemma Flush(s: State, gs: GameId, w: nat, k: nat, t: TranId)
    requires Formed(s) && gs in s.games && gs != INVALID_GAME_ID
    requires gs !in s.gate.active || !Owned(s.gate, gs, t)
    requires w in s.games[gs].open && w in s.games[gs].welcomed && k <= |s.games[gs].open[w]|
    requires t in Drain(s.games[gs].users.Keys, s.games[gs].open[w][..k])
    requires var g := s.games[gs]; Closable(ConnOf(s, gs), g.(open := g.open[w := g.open[w][k..]]))
    ensures CanLeaveOrphan(s)
    decreases k
  {
    hide Formed, Owned, Drain, CanLeaveOrphan;
    var g := s.games[gs];
    var q := g.open[w];
    if k == 0 {
      DrainNothing(g.users.Keys, q[..0]);
      assert q[0..] == q && g.open[w := q] == g.open;
      CloseRest(s, gs, t);
    } else {
      var u := Arrive(s, gs, w);
      assert q[1..][..k - 1] == q[..k][1..] && q[1..][k - 1..] == q[k..];
      DrainFirst(g.users.Keys, q[..k]);
      assert g.open[w := q[1..]][w := q[k..]] == g.open[w := q[k..]];
      SameClosable(ConnOf(s, gs), g.(open := g.open[w := q[k..]]), u.games[gs].users);
      hide Closable;
      Flush(u, gs, w, k - 1, t);
    }
  }

  lemma SameClosable(conn: Option<nat>, g: Game, users: GameUsers)
    requires Closable(conn, g)
    ensures Closable(conn, g.(users := users))
  {}

  lemma DrainNothing(d: set<TranId>, q: seq<Wire>)
    requires q == []
    ensures Drain(d, q) == d
  {}

  lemma DrainFirst(d: set<TranId>, q: seq<Wire>)
    requires q != []
    ensures Drain(d, q) == Drain(WireEffect(d, q[0]), q[1..])
  {}

  predicate Announces(w: Wire) {
    w.Relay? && w.message.Add?
  }

  lemma DrainEndsWithAdd(d: set<TranId>, q: seq<Wire>, k: nat)
    requires k < |q| && Announces(q[k])
    ensures q[k].message.t in Drain(d, q[..k + 1])
  {
    assert q[..k + 1] == q[..k] + [q[k]];
    DrainSnoc(d, q[..k], q[k]);
  }

  /** A connection still announces a user, and nothing will purge it. */
  lemma MessagesWithoutPurge(s: State, gs: GameId, r: nat, k: nat)
    requires Formed(s) && gs in s.games && gs != INVALID_GAME_ID && s.games[gs].registered == None
    requires r in s.games[gs].open && r in s.games[gs].welcomed && k < |s.games[gs].open[r]|
    requires Announces(s.games[gs].open[r][k])
    ensures CanLeaveOrphan(s)
  {
    hide Formed, Owned, Drain, Shape;
    var t := s.games[gs].open[r][k].message.t;
    DrainEndsWithAdd(s.games[gs].users.Keys, s.games[gs].open[r], k);
    if gs in s.gate.active {
      FormedAt(s, gs);
      ActiveIsWelcomed(s.gate, gs, ConnOf(s, gs), s.games[gs], s.nextConn);
      var u := LoseLink(s, gs);
      Flush(u, gs, r, k + 1, t);
    } else {
      Flush(s, gs, r, k + 1, t);
    }
  }

  // ---------- the three ways to register too early ----------

  /** What a registration does. */
  lemma Registered(s: State, gs: GameId, n: nat) returns (u: State)
    requires Inv(s) && gs in s.games && Can(s, Deliver(gs, n)) && s.games[gs].open[n][0] == Register
    ensures Tidy(s.gate) && u == Cluster.Next(s, Deliver(gs, n)) && Formed(u)
    ensures var g := s.games[gs];
      && u == s.(games := s.games[gs := g.(open := g.open[n := []], registered := Some(n), welcomed := g.welcomed + {n})])
      && n !in g.welcomed && (gs in s.gate.active ==> ConnOf(s, gs) != Some(n))
      && (g.registered.Some? ==> g.registered.value in g.open && g.registered.value in g.welcomed)
  {
    var g := s.games[gs];
    InvIsFormed(s);
    FormedAt(s, gs);
    FormedStep(s, Deliver(gs, n));
    RegisterShape(s.gate, gs, ConnOf(s, gs), g, s.nextConn, n);
    hide Inv, Formed, Process;
    u := Cluster.Next(s, Deliver(gs, n));
  }

  /** The gate's own connection registers while users from before are left. */
  lemma EarlyForUsers(s: State, gs: GameId, n: nat)
    requires Inv(s) && gs in s.games && gs != INVALID_GAME_ID && Can(s, Deliver(gs, n)) && Tidy(s.gate)
    requires s.games[gs].open[n][0] == Register && ConnOf(s, gs) == Some(n) && s.games[gs].users != map[]
    ensures CanLeaveOrphan(Cluster.Next(s, Deliver(gs, n)))
  {
    hide Inv, Formed, Owned, CanLeaveOrphan, Cluster.Next, Tidy;
    var u := Registered(s, gs, n);
    var t :| t in s.games[gs].users;
    CloseRest(u, gs, t);
  }

  /** The connection registered before still announces users. */
  lemma EarlyForMessages(s: State, gs: GameId, n: nat, r: nat, k: nat)
    requires Inv(s) && gs in s.games && gs != INVALID_GAME_ID && Can(s, Deliver(gs, n)) && Tidy(s.gate)
    requires s.games[gs].open[n][0] == Register && s.games[gs].registered == Some(r) && ConnOf(s, gs) != Some(r)
    requires r in s.games[gs].open && k < |s.games[gs].open[r]| && Announces(s.games[gs].open[r][k])
    ensures CanLeaveOrphan(Cluster.Next(s, Deliver(gs, n)))
  {
    hide Inv, Formed, Owned, CanLeaveOrphan, Cluster.Next, Tidy, Drain;
    var u := Registered(s, gs, n);
    if ConnOf(s, gs) == Some(n) {
      DrainEndsWithAdd(u.games[gs].users.Keys, u.games[gs].open[r], k);
      Flush(u, gs, r, k + 1, u.games[gs].open[r][k].message.t);
    } else {
      var v := HangUp(u, gs, n);
      MessagesWithoutPurge(v, gs, r, k);
    }
  }

  /** A gate with a session to log in with, game servers with ids it accepts. */
  predicate Playable(s: State) {
    |s.gate.users| > 0 && forall gs :: gs in s.games ==> INVALID_GAME_ID < gs < MAX_GAME_ID
  }

  /** A stale connection registers in place of the gate's current one: closing, it purges the game server, and from then on
      nothing purges what the current connection announces. */
  lemma EarlyForCurrent(s: State, gs: GameId, n: nat, c: nat)
    requires Inv(s) && Playable(s) && gs in s.games && Can(s, Deliver(gs, n)) && Tidy(s.gate)
    requires s.games[gs].open[n][0] == Register && s.games[gs].registered == Some(c) == ConnOf(s, gs)
    ensures CanLeaveOrphan(Cluster.Next(s, Deliver(gs, n)))
  {
    hide Inv, Formed, Owned, CanLeaveOrphan, Cluster.Next, Tidy;
    var u := Registered(s, gs, n);
    var v := HangUp(u, gs, n);
    assert Nobodys(v, gs, c);
    hide Nobodys;
    Reopen(v, gs, c);
  }

  /** The gate's connection to gs is open, but not the registered one. */
  predicate Nobodys(s: State, gs: GameId, c: nat) {
    && gs in s.games && ConnOf(s, gs) == Some(c) && s.games[gs].registered == None
    && c in s.games[gs].open && c in s.games[gs].welcomed
  }

  /** The gate makes sure that the game server is active. */
  lemma Reopen(s: State, gs: GameId, c: nat)
    requires Formed(s) && Playable(s) && Nobodys(s, gs, c)
    ensures CanLeaveOrphan(s)
  {
    hide Formed, CanLeaveOrphan;
    if gs in s.gate.active {
      FreeSession(s, gs, c);
    } else {
      var u := Go(s, Welcome(gs));
      FreeSession(u, gs, c);
    }
  }

  /** Steps of the gate only add to the connection. */
  lemma GateOnly(s: State, gs: GameId, c: nat, e: Event) returns (u: State)
    requires Formed(s) && Playable(s) && Nobodys(s, gs, c) && gs in s.gate.active
    requires Can(s, AtGate(e)) && Careful(s, AtGate(e)) && Tidy(s.gate)
    ensures var (h, post) := GateProofs.Step(s.gate, e);
      && u.gate == h && |h.users| == |s.gate.users| && u.issued == IssuedAfter(s.issued, e)
      && Formed(u) && Playable(u) && Nobodys(u, gs, c) && gs in u.gate.active
      && (post.Post? && post.game == gs ==> u.games[gs].open[c] == s.games[gs].open[c] + [Relay(post.message)])
    ensures CanLeaveOrphan(u) ==> CanLeaveOrphan(s)
  {
    hide Formed, GateInv, GateProofs.Step, Route, CanLeaveOrphan, Careful, Tidy, Playable;
    FormedIsTidy(s);
    StepKeepsActive(s.gate, s.issued, e);
    SameNumber(s.gate, e);
    RouteAt(s, GateProofs.Step(s.gate, e).1);
    u := Go(s, AtGate(e));
    SamePlayable(s, u);
  }

  lemma SamePlayable(s: State, u: State)
    requires Playable(s) && |u.gate.users| == |s.gate.users| && u.games.Keys == s.games.Keys
    ensures Playable(u)
  {
    assert forall gs :: gs in u.games ==> gs in s.games;
  }

  lemma SameNumber(g: Gate, e: Event)
    requires Tidy(g) && ((e.Accepted? || e.LoginAs? || e.Closed?) ==> e.p < |g.users|)
    ensures |GateProofs.Step(g, e).0.users| == |g.users|
  {}

  const IDLE := User(Disabled, INVALID_TRANS_ID, INVALID_GAME_ID)

  /** One session is closed, so that it can log in without letting go of anything. */
  lemma FreeSession(s: State, gs: GameId, c: nat)
    requires Formed(s) && Playable(s) && Nobodys(s, gs, c) && gs in s.gate.active
    ensures CanLeaveOrphan(s)
  {
    hide Formed, Nobodys, CanLeaveOrphan, CheckClose, GateInv;
    FormedIsTidy(s);
    var u := GateOnly(s, gs, c, Closed(0));
    assert u.gate.users[0] == IDLE by { CloseFrees(s.gate); }
    NewUser(u, gs, c);
  }

  lemma CloseFrees(g: Gate)
    requires |g.users| > 0
    ensures |Close(g, 0).0.users| > 0 && Close(g, 0).0.users[0] == IDLE
  {}

  /** No id in the set is larger. */
  ghost function Above(s: set<TranId>): (m: nat)
    ensures forall t :: t in s ==> t <= m
    decreases |s|
  {
    if s == {} then 0
    else
      var t :| t in s;
      var m := Above(s - {t});
      assert forall x :: x in s ==> x == t || x in s - {t};
      if m < t then t else m
  }

  /** A new user is announced to the gate. */
  lemma NewUser(s: State, gs: GameId, c: nat)
    requires Formed(s) && Playable(s) && Nobodys(s, gs, c) && gs in s.gate.active && s.gate.users[0] == IDLE
    ensures CanLeaveOrphan(s)
  {
    hide Formed, Nobodys, CanLeaveOrphan, Above;
    FormedIsTidy(s);
    var t := Above(s.issued) + 1;
    assert t !in s.issued && t !in s.gate.onlines && t !in s.gate.waiting;
    hide GateInv, Playable;
    var u := GateOnly(s, gs, c, Announce(t, 0));
    JoinAndLose(u, gs, c, t);
  }

  /** The user logs in, the link goes down, the announcement still arrives - and nothing purges it. */
  lemma JoinAndLose(s: State, gs: GameId, c: nat, t: TranId)
    requires Formed(s) && Playable(s) && Nobodys(s, gs, c) && gs in s.gate.active && t in s.gate.waiting
    requires s.gate.users[0] == IDLE
    ensures CanLeaveOrphan(s)
  {
    hide Formed, CanLeaveOrphan, GateInv, Route;
    FormedIsTidy(s);
    var e := LoginAs(0, t, Some(gs));
    assert GateProofs.Step(s.gate, e).1 == Post(gs, Add(t, s.gate.waiting[t]));
    var u := GateOnly(s, gs, c, e);
    hide GateProofs.Step;
    var q := u.games[gs].open[c];
    MessagesWithoutPurge(u, gs, c, |q| - 1);
  }

  // ---------- logging in over an id still in use ----------

  /** The id let go of has no owner left at the gate. */
  lemma HeldIsLost(g: Gate, issued: set<TranId>, gs: GameId, p: nat, t: TranId, idle: Option<GameId>)
    requires GateInv(g, issued) && p < |g.users| && g.users[p].tran != INVALID_TRANS_ID && LoginAccepted(g, p, t, idle)
    ensures !Owned(Login(g, p, t, idle).0, gs, g.users[p].tran)
    ensures var post := Login(g, p, t, idle).1; post.Post? ==> post.message.Add?
  {
    hide GateInv, Login, Owned;
    LoginShape(g, issued, p, t, idle);
    RebindLoses(g, issued, Login(g, p, t, idle).0, gs, p, t);
  }

  /** After a careless login the id let go of is still on its way to the game server, or there. */
  lemma StillExpected(s: State, p: nat, t: TranId, idle: Option<GameId>) returns (u: State)
    requires Inv(s) && Can(s, AtGate(LoginAs(p, t, idle))) && !Careful(s, AtGate(LoginAs(p, t, idle)))
    ensures Tidy(s.gate) && u == Cluster.Next(s, AtGate(LoginAs(p, t, idle))) && Formed(u)
    ensures var gs, held := s.gate.users[p].game, s.gate.users[p].tran;
      && gs in u.games && gs != INVALID_GAME_ID && !Owned(u.gate, gs, held) && ConnOf(u, gs) == u.games[gs].registered
      && (var g, c := u.games[gs], ConnOf(u, gs);
          c.Some? && c.value in g.open && c.value in g.welcomed && held in Drain(g.users.Keys, g.open[c.value]))
  {
    hide Inv, Formed, GateInv, Login, Route, Owned, LinkInv, Shape, Drain, Tidy, LoginAccepted, Expecting;
    var e := LoginAs(p, t, idle);
    var gs, held := s.gate.users[p].game, s.gate.users[p].tran;
    var g, conn := s.games[gs], ConnOf(s, gs);
    HolderIsBound(s, gs, p);
    InvIsFormed(s);
    InvAt(s, gs);
    FormedStep(s, AtGate(e));
    u := Cluster.Next(s, AtGate(e));
    var (h, post) := Login(s.gate, p, t, idle);
    HeldIsLost(s.gate, s.issued, gs, p, t, idle);
    ActiveNotZero(s.gate, s.issued, gs);
    RouteAt(s, post);
    StillInFlight(s.gate, gs, conn, g, s.nextConn, held, post);
  }

  lemma ActiveNotZero(g: Gate, issued: set<TranId>, gs: GameId)
    requires GateInv(g, issued) && gs in g.active
    ensures gs != INVALID_GAME_ID
  {}

  lemma StillInFlight(gate: Gate, gs: GameId, conn: Option<nat>, g: Game, next: nat, t: TranId, post: Post)
    requires LinkInv(gate, gs, conn, g, next) && t in Expecting(gate, gs, conn, g)
    requires post.Post? ==> post.message.Add?
    ensures var g' := EnqueuePost(gs, g, conn, post);
      && g'.registered == conn && conn.Some? && conn.value in g'.open && conn.value in g'.welcomed
      && t in Drain(g'.users.Keys, g'.open[conn.value])
  {
    ExpectingConn(gate, gs, conn, g, next, t);
    hide LinkInv;
    if post.Post? {
      DrainSnoc(g.users.Keys, g.open[conn.value], Relay(post.message));
    }
  }

  lemma ExpectingConn(gate: Gate, gs: GameId, conn: Option<nat>, g: Game, next: nat, t: TranId)
    requires LinkInv(gate, gs, conn, g, next) && t in Expecting(gate, gs, conn, g)
    ensures conn.Some? && conn.value in g.open && conn.value in g.welcomed && g.registered == conn
  {}

  lemma CarelessLogin(s: State, p: nat, t: TranId, idle: Option<GameId>)
    requires Inv(s) && Can(s, AtGate(LoginAs(p, t, idle))) && !Careful(s, AtGate(LoginAs(p, t, idle))) && Tidy(s.gate)
    ensures CanLeaveOrphan(Cluster.Next(s, AtGate(LoginAs(p, t, idle))))
  {
    hide Inv, Formed, Cluster.Next, Tidy, Owned, Drain, CanLeaveOrphan, Careful;
    var u := StillExpected(s, p, t, idle);
    var gs, held := s.gate.users[p].game, s.gate.users[p].tran;
    var c := ConnOf(u, gs).value;
    var q := u.games[gs].open[c];
    assert q[..|q|] == q && q[|q|..] == [];
    Flush(u, gs, c, |q|, held);
  }

  // ---------- the exact condition ----------

  lemma CarelessRegistration(s: State, gs: GameId, n: nat)
    requires Inv(s) && Playable(s) && Can(s, Deliver(gs, n)) && !Careful(s, Deliver(gs, n)) && Tidy(s.gate)
    ensures CanLeaveOrphan(Cluster.Next(s, Deliver(gs, n)))
  {
    var g, conn := s.games[gs], ConnOf(s, gs);
    hide Inv, Cluster.Next;
    if conn == Some(n) && g.users != map[] {
      EarlyForUsers(s, gs, n);
    } else {
      var r := g.registered.value;
      if conn == Some(r) {
        EarlyForCurrent(s, gs, n, r);
      } else {
        var k :| 0 <= k < |g.open[r]| && Announces(g.open[r][k]);
        EarlyForMessages(s, gs, n, r, k);
      }
    }
  }

  /** The exact condition. From any state reached carefully, a step makes it possible for careful steps to lead to an
      orphan if and only if the step itself is not careful: it logs a session in over an id its game server knows or
      will know, or has a registration handled too early. */
  lemma OrphanIff(s: State, e: Cluster.Step)
    requires Inv(s) && Playable(s) && Can(s, e) && Tidy(s.gate)
    ensures CanLeaveOrphan(Cluster.Next(s, e)) <==> !Careful(s, e)
  {
    hide Inv, Cluster.Next, Can;
    if Careful(s, e) {
      StepKeepsInv(s, e);
      NeverOrphan(Cluster.Next(s, e));
    } else {
      match e
      case AtGate(LoginAs(p, t, idle)) => CarelessLogin(s, p, t, idle);
      case Deliver(gs, n) => CarelessRegistration(s, gs, n);
      case _ =>
    }
  }

  /** The network order that is enough: a registration handled when every earlier connection has been seen closing. */
  lemma OrderIsEnough(s: State, gs: GameId, n: nat)
    requires Inv(s) && Can(s, Deliver(gs, n)) && s.games[gs].open.Keys == {n}
    ensures Careful(s, Deliver(gs, n))
  {
    InvAt(s, gs);
    hide Inv, GateInv;
    if s.games[gs].open[n][0] == Register {
      RegisterShape(s.gate, gs, ConnOf(s, gs), s.games[gs], s.nextConn, n);
    }
  }

  lemma NeverOrphan(s: State)
    requires Inv(s)
    ensures !CanLeaveOrphan(s)
  {
    hide Inv, Orphan;
    forall es: seq<Cluster.Step>, gs, t
      ensures !LeadsToOrphan(s, es, gs, t)
    {
      if Runs(s, es) && AllCareful(s, es) {
        RunKeepsInv(s, es);
        InvHasNoOrphan(Exec(s, es), gs, t);
      }
    }
  }
}
