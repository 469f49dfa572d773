/** Concrete runs from a fresh cluster: the states the findings speak of are reached, and so are two orphans. */
module Scenarios {
  import opened Bytes
  import opened GateModel
  import opened GameModel
  import opened GateProofs
  import opened Cluster
  import opened GateFindings
  import Accounts

  // ---------- reachable states ----------

  ghost predicate Reached(s: State) {
    exists s0, es: seq<Cluster.Step> :: LeadsTo(s0, es, s)
  }

  predicate LeadsTo(s0: State, es: seq<Cluster.Step>, s: State) {
    Fresh(s0) && Runs(s0, es) && Exec(s0, es) == s
  }

  predicate Moves(s: State, e: Cluster.Step, u: State) {
    Tidy(s.gate) && Can(s, e) && u == Cluster.Next(s, e)
  }

  lemma {:induction false} RunSnoc(s: State, es: seq<Cluster.Step>, e: Cluster.Step, u: State)
    requires Runs(s, es) && Moves(Exec(s, es), e, u)
    ensures Runs(s, es + [e]) && Exec(s, es + [e]) == u
    decreases |es|
  {
    hide Can, Tidy, Cluster.Next;
    if es == [] {
      assert [] + [e] == [e] && [e][1..] == [];
    } else {
      assert (es + [e])[0] == es[0] && (es + [e])[1..] == es[1..] + [e];
      RunSnoc(Cluster.Next(s, es[0]), es[1..], e, u);
    }
  }

  lemma Onward(s: State, e: Cluster.Step, u: State)
    requires Reached(s) && Moves(s, e, u)
    ensures Reached(u)
  {
    hide Fresh, Moves, Runs, Exec;
    var s0, es :| LeadsTo(s0, es, s);
    RunSnoc(s0, es, e, u);
    assert LeadsTo(s0, es + [e], u);
  }

  lemma ReachedIsFormed(s: State)
    requires Reached(s)
    ensures Formed(s) && GateInv(s.gate, s.issued)
  {
    hide Fresh, Runs, Exec, Formed, GateInv, Inv;
    var s0, es :| LeadsTo(s0, es, s);
    FreshInv(s0);
    InvIsFormed(s0);
    RunKeepsFormed(s0, es);
    assert GateInv(s.gate, s.issued) by { FormedHasTokens(s); }
  }

  lemma FormedHasTokens(s: State)
    requires Formed(s)
    ensures GateInv(s.gate, s.issued)
  {}

  /** A registration, alone in flight on connection n, arrives. */
  lemma RegisterMoves(s: State, n: nat, u: State)
    requires Tidy(s.gate) && s.games.Keys == {1} && n in s.games[1].open && s.games[1].open[n] == [Register]
    requires var g := s.games[1];
      u == s.(games := map[1 := g.(open := g.open[n := []], registered := Some(n), welcomed := g.welcomed + {n})])
    ensures Moves(s, Deliver(1, n), u)
  {
    hide Tidy;
    assert [Register][1..] == [];
    assert Process(s.games[1], n) == u.games[1];
    assert s.games[1 := u.games[1]] == u.games;
  }

  /** The game server sees connection n closing. */
  lemma HangupMoves(s: State, n: nat, u: State)
    requires Tidy(s.gate) && s.games.Keys == {1} && n in s.games[1].open
    requires u == s.(games := map[1 := Hangup(s.games[1], n)])
    ensures Moves(s, GameSeesClose(1, n), u)
  {
    hide Tidy, Hangup;
    assert s.games[1 := u.games[1]] == u.games;
  }

  /** The login server announces a new id. */
  lemma AnnounceMoves(s: State, t: TranId, a: Account, u: State)
    requires Tidy(s.gate) && t != INVALID_TRANS_ID && t !in s.issued && t !in s.gate.onlines && t !in s.gate.waiting
    requires u.gate == s.gate.(waiting := s.gate.waiting[t := a], timers := s.gate.timers + multiset{WaitExpiry(t)})
    requires u == s.(gate := u.gate, issued := s.issued + {t})
    ensures Moves(s, AtGate(Announce(t, a)), u)
  {
    hide Tidy;
  }

  // ---------- a gate with two sessions and one game server ----------

  function GateOf(users: seq<User>, active: set<GameId>, timers: multiset<Timer>): Gate {
    Gate(users, map[], map[], map[], map[], active, timers, {})
  }

  function World(gate: Gate, conns: map<GameId, nat>, game: Game, issued: set<TranId>, next: nat): State {
    State(gate, conns, map[1 := game], issued, next)
  }

  const NOBODY := User(Disabled, INVALID_TRANS_ID, INVALID_GAME_ID)
  const GUEST := User(WaitAccount, INVALID_TRANS_ID, INVALID_GAME_ID)
  const SEVEN := User(Connected, 7, 1)

  function Players(): GameUsers { map[7 := GameUser(9, GATE, true)] }

  function S0(): State { World(GateOf([NOBODY, NOBODY], {}, multiset{}), map[], Game(None, map[], map[], {}), {}, 0) }
  function S1(): State { S0().(conns := map[1 := 0], games := map[1 := Game(None, map[], map[0 := [Register]], {})], nextConn := 1) }
  function S2(): State { S1().(games := map[1 := Game(Some(0), map[], map[0 := []], {0})]) }
  function Linked(): State { S2().(gate := S2().gate.(active := {1})) }

  lemma FreshStart()
    ensures Reached(S0())
  {
    assert Fresh(S0());
    assert LeadsTo(S0(), [], S0());
  }

  lemma LinkComesUp()
    ensures Moves(S0(), Connect(1), S1()) && Moves(S1(), Deliver(1, 0), S2()) && Moves(S2(), Welcome(1), Linked())
  {
    assert S0().games[1 := S1().games[1]] == S1().games;
    assert map[0 := [Register]][0 := []] == map[0 := []];
    assert S1().games[1].welcomed + {0} == {0};
    RegisterMoves(S1(), 0, S2());
  }

  /** User 7 with account 9 is announced. */
  function Announced(): State {
    Linked().(gate := Linked().gate.(waiting := map[7 := 9], timers := multiset{WaitExpiry(7)}), issued := {7})
  }

  /** Session 0 before it logs in: accepted, or not yet. */
  function Before(u: User): State { Announced().(gate := Announced().gate.(users := [u, NOBODY])) }

  lemma Arrives()
    ensures Moves(Linked(), AtGate(Announce(7, 9)), Announced())
    ensures Moves(Before(NOBODY), AtGate(Accepted(0)), Before(GUEST)) && Before(NOBODY) == Announced()
  {
    AnnounceMoves(Linked(), 7, 9, Announced());
  }

  function Entering(): State {
    Announced().(gate := GateOf([SEVEN, NOBODY], {1}, multiset{WaitExpiry(7)}).(onlines := map[7 := 0], accounts := map[9 := 7]),
                 games := map[1 := Game(Some(0), map[], map[0 := [Relay(Add(7, 9))]], {0})])
  }

  function Entered(): State { Entering().(games := map[1 := Game(Some(0), Players(), map[0 := []], {0})]) }

  lemma EntersAtGate(u: User)
    requires u == NOBODY || u == GUEST
    ensures Login(Before(u).gate, 0, 7, Some(1)) == (Entering().gate, Post(1, Add(7, 9)))
  {
    var g := Login(Before(u).gate, 0, 7, Some(1)).0;
    assert g.users == [SEVEN, NOBODY];
    assert g.waiting == map[];
    assert g.onlines == map[7 := 0];
    assert g.accounts == map[9 := 7];
  }

  /** The message of a login enters the connection. */
  lemma LoginMoves(s: State, t: TranId, a: Account, u: State)
    requires Tidy(s.gate) && |s.gate.users| > 0 && 1 in s.gate.active && s.conns == map[1 := 0]
    requires s.games.Keys == {1} && 0 in s.games[1].open && s.games[1].open[0] == []
    requires Login(s.gate, 0, t, Some(1)) == (u.gate, Post(1, Add(t, a)))
    requires u == s.(gate := u.gate, games := map[1 := s.games[1].(open := s.games[1].open[0 := [Relay(Add(t, a))]])])
    ensures Moves(s, AtGate(LoginAs(0, t, Some(1))), u)
  {
    var post := Post(1, Add(t, a));
    RouteAt(s, post);
    hide Login, Tidy, Route;
    assert [] + [Relay(post.message)] == [Relay(post.message)];
    assert EnqueuePost(1, s.games[1], ConnOf(s, 1), post) == u.games[1];
    assert Route(s, post) == u.games;
  }

  lemma Enters(u: User)
    requires u == NOBODY || u == GUEST
    ensures Moves(Before(u), AtGate(LoginAs(0, 7, Some(1))), Entering())
  {
    EntersAtGate(u);
    hide Login;
    assert map[0 := []][0 := [Relay(Add(7, 9))]] == map[0 := [Relay(Add(7, 9))]];
    LoginMoves(Before(u), 7, 9, Entering());
  }

  /** A single message in flight arrives. */
  lemma RelayMoves(s: State, m: Message, u: State)
    requires Tidy(s.gate) && s.games.Keys == {1} && s.games[1].open == map[0 := [Relay(m)]]
    requires u == s.(games := map[1 := s.games[1].(users := Receive(s.games[1].users, GATE, m), open := map[0 := []])])
    ensures Moves(s, Deliver(1, 0), u)
  {
    hide Tidy, Receive;
    assert [Relay(m)][1..] == [];
    assert s.games[1].open[0 := []] == map[0 := []];
    assert s.games[1 := u.games[1]] == u.games;
  }

  lemma IsAnnounced()
    ensures Moves(Entering(), Deliver(1, 0), Entered())
  {
    RelayMoves(Entering(), Add(7, 9), Entered());
  }

  /** User 7 is online on session 0, and session 1 waits for a login. */
  function Playing(): State { Entered().(gate := Entered().gate.(users := [SEVEN, GUEST])) }

  lemma Waits()
    ensures Moves(Entered(), AtGate(Accepted(1)), Playing())
  {
    assert [SEVEN, NOBODY][1 := GUEST] == [SEVEN, GUEST];
  }

  lemma LinkedIsReached()
    ensures Reached(Linked()) && Reached(Announced())
  {
    hide Moves, Reached, S0, S1, S2, Linked, Announced;
    FreshStart();
    LinkComesUp();
    Arrives();
    Onward(S0(), Connect(1), S1());
    Onward(S1(), Deliver(1, 0), S2());
    Onward(S2(), Welcome(1), Linked());
    Onward(Linked(), AtGate(Announce(7, 9)), Announced());
  }

  lemma PlayingIsReached()
    ensures Reached(Entered()) && Reached(Playing())
  {
    hide Moves, Reached, Announced, Entering, Entered, Playing;
    LinkedIsReached();
    Arrives();
    Enters(GUEST);
    IsAnnounced();
    Waits();
    hide Before;
    Onward(Before(NOBODY), AtGate(Accepted(0)), Before(GUEST));
    Onward(Before(GUEST), AtGate(LoginAs(0, 7, Some(1))), Entering());
    Onward(Entering(), Deliver(1, 0), Entered());
    Onward(Entered(), AtGate(Accepted(1)), Playing());
  }

  /** The state of KickedMayReturnIff, KickedReturnsToNothing, ReconnectStaysOffline, DropAndReturn and
      StaleTimerForgetsAccount is reached: id 7 on session 0, connected to an active game server that knows it, its
      account recorded, and session 1 waiting for a login. */
  lemma FindingsAreReached()
    ensures Reached(Playing()) && GateInv(Playing().gate, Playing().issued)
    ensures OnlineSound(Playing().gate) && Accounts.Covers(Playing().gate)
    ensures var s := Playing(); var g := s.gate;
      && 7 in g.onlines && g.onlines[7] == 0 && g.users == [User(Connected, 7, 1), GUEST] && 1 in g.active
      && 9 in g.accounts && g.accounts[9] == 7 && 7 in s.games[1].users && 8 !in s.issued
  {
    PlayingFacts();
    hide Reached, GateInv, Playing, OnlineSound;
    PlayingIsReached();
    ReachedIsFormed(Playing());
  }

  lemma PlayingFacts()
    ensures Tidy(Playing().gate) && OnlineSound(Playing().gate) && Accounts.Covers(Playing().gate)
    ensures var s := Playing(); var g := s.gate;
      && 7 in g.onlines && g.onlines[7] == 0 && g.users == [User(Connected, 7, 1), GUEST] && 1 in g.active
      && 9 in g.accounts && g.accounts[9] == 7 && 7 in s.games[1].users && 8 !in s.issued
  {
    assert 9 in Playing().gate.accounts;
  }

  // ---------- a login before on_accept ----------

  function Late1(): State { Entered().(gate := Entered().gate.(users := [User(WaitAccount, 7, 1), NOBODY])) }
  function Late2(): State {
    Late1().(gate := Late1().gate.(waiting := map[8 := 5], timers := multiset{WaitExpiry(7), WaitExpiry(8)}), issued := {7, 8})
  }
  function Late3(): State {
    Late2().(gate := Late2().gate.(users := [User(Connected, 8, 1), NOBODY], waiting := map[],
                                   onlines := map[7 := 0, 8 := 0], accounts := map[9 := 7, 5 := 8]),
             games := map[1 := Game(Some(0), Players(), map[0 := [Relay(Add(8, 5))]], {0})])
  }
  function Late4(): State {
    Late3().(games := map[1 := Game(Some(0), Players()[8 := GameUser(5, GATE, true)], map[0 := []], {0})])
  }

  lemma LateAccept()
    ensures Moves(Entered(), AtGate(Accepted(0)), Late1())
  {}

  lemma LateAnnounce()
    ensures Moves(Late1(), AtGate(Announce(8, 5)), Late2())
  {
    assert map[][8 := 5] == map[8 := 5];
    AnnounceMoves(Late1(), 8, 5, Late2());
  }

  lemma SecondLoginAtGate()
    ensures Login(Late2().gate, 0, 8, Some(1)) == (Late3().gate, Post(1, Add(8, 5)))
  {
    var g := Login(Late2().gate, 0, 8, Some(1)).0;
    assert g.users == [User(Connected, 8, 1), NOBODY];
    assert g.waiting == map[];
    assert g.onlines == map[7 := 0, 8 := 0];
    assert g.accounts == map[9 := 7, 5 := 8];
  }

  lemma SecondLogin()
    ensures Moves(Late2(), AtGate(LoginAs(0, 8, Some(1))), Late3())
  {
    SecondLoginAtGate();
    hide Login;
    assert map[0 := []][0 := [Relay(Add(8, 5))]] == map[0 := [Relay(Add(8, 5))]];
    LoginMoves(Late2(), 8, 5, Late3());
  }

  lemma LateIsReached()
    ensures Reached(Late2())
  {
    hide Moves, Reached, Announced, Before, Entering, Entered, Late1, Late2;
    LinkedIsReached();
    Arrives();
    Enters(NOBODY);
    IsAnnounced();
    LateAccept();
    LateAnnounce();
    Onward(Before(NOBODY), AtGate(LoginAs(0, 7, Some(1))), Entering());
    Onward(Entering(), Deliver(1, 0), Entered());
    Onward(Entered(), AtGate(Accepted(0)), Late1());
    Onward(Late1(), AtGate(Announce(8, 5)), Late2());
  }

  lemma LateLink()
    ensures var s := Late2(); s.games.Keys == {1} && ConnOf(s, 1) == Some(0)
    ensures Purges(Some(0), Late2().games[1]) && BackedNow(Late2().gate, 1, Some(0), Late2().games[1])
  {
    assert Holds(Late2().gate.users[0], 7);
  }

  lemma LateIsInv()
    ensures Reached(Late2()) && Inv(Late2())
  {
    hide Reached, GateInv, Shape, Purges, BackedNow, Late2;
    LateIsReached();
    ReachedIsFormed(Late2());
    LateLink();
  }

  lemma LateOrphan()
    ensures Orphan(Late4(), 1, 7)
  {}

  /** The last login is the careless step. */
  lemma SecondLoginIsCareless()
    ensures Reached(Late2()) && Inv(Late2())
    ensures Can(Late2(), AtGate(LoginAs(0, 8, Some(1)))) && !Careful(Late2(), AtGate(LoginAs(0, 8, Some(1))))
  {
    LateIsInv();
    hide Reached, Inv;
    var s := Late2();
    assert 7 in Expecting(s.gate, 1, ConnOf(s, 1), s.games[1]);
  }

  lemma SecondAnnounced()
    ensures Moves(Late3(), Deliver(1, 0), Late4())
  {
    RelayMoves(Late3(), Add(8, 5), Late4());
  }

  /** No link is ever lost, and yet an orphan: the first login on session 0 is handled before its on_accept, which then
      makes the session ready for a second login that takes it away from id 7. */
  lemma OrphanByLateAccept()
    ensures Reached(Late4()) && Orphan(Late4(), 1, 7)
  {
    hide Moves, Reached, Late2, Late3, Late4, Orphan;
    LateOrphan();
    LateIsReached();
    SecondLogin();
    SecondAnnounced();
    Onward(Late2(), AtGate(LoginAs(0, 8, Some(1))), Late3());
    Onward(Late3(), Deliver(1, 0), Late4());
  }

  // ---------- the link goes down ----------

  function Down(): State {
    Playing().(gate := Playing().gate.(users := [User(WaitClose, 7, 1), GUEST], active := {}), conns := map[])
  }

  lemma LosesLink()
    ensures Moves(Playing(), GateSeesClose(1), Down())
  {
    var g := Playing().gate;
    assert 7 in g.onlines && g.onlines[7] == 0;
    assert RemoveUsers(g, 1).users == [User(WaitClose, 7, 1), GUEST];
    assert EraseValue(g.recon, 1) == map[];
    assert LinkDown(g, 1) == Down().gate;
    assert Playing().conns - {1} == map[];
  }

  /** Out of order: the new registration is handled before the old connection is seen closing. */
  function Early1(): State {
    Down().(gate := GateOf([NOBODY, GUEST], {}, multiset{WaitExpiry(7), ReconnectExpiry(7)}))
  }
  function Early2(): State {
    Early1().(conns := map[1 := 1], games := map[1 := Game(Some(0), Players(), map[0 := [], 1 := [Register]], {0})], nextConn := 2)
  }
  function Early3(): State { Early2().(games := map[1 := Game(Some(1), Players(), map[0 := [], 1 := []], {0, 1})]) }
  function Early4(): State { Early3().(games := map[1 := Game(Some(1), Players(), map[1 := []], {0, 1})]) }

  lemma Leaves()
    ensures Moves(Down(), AtGate(Closed(0)), Early1())
  {
    var g := Down().gate;
    var h := Close(g, 0).0;
    assert EraseValue(g.accounts, 7) == map[] && g.onlines - {7} == map[] && g.closeAsked - {0} == {};
    assert h.users == [NOBODY, GUEST];
    assert h.timers == multiset{WaitExpiry(7), ReconnectExpiry(7)};
    assert h.accounts == map[];
    assert h.onlines == map[];
    assert h.closeAsked == {};
    assert Close(g, 0) == (Early1().gate, Nothing);
    hide Close;
  }

  lemma Reconnects()
    ensures Moves(Early1(), Connect(1), Early2())
  {
    assert Early1().games[1 := Early2().games[1]] == Early2().games;
  }

  lemma RegistersEarly()
    ensures Moves(Early2(), Deliver(1, 1), Early3())
  {
    hide Players;
    var open: map<nat, seq<Wire>> := map[0 := [], 1 := [Register]];
    assert open[1 := []] == map[0 := [], 1 := []] && Early2().games[1].welcomed + {1} == {0, 1};
    RegisterMoves(Early2(), 1, Early3());
  }

  lemma EarlyHangup()
    ensures Hangup(Early3().games[1], 0) == Early4().games[1]
  {
    assert Early3().games[1].open - {0} == Early4().games[1].open;
  }

  lemma OldLinkEnds()
    ensures Moves(Early3(), GameSeesClose(1, 0), Early4())
  {
    EarlyHangup();
    hide Hangup, Players;
    HangupMoves(Early3(), 0, Early4());
  }

  lemma EarlyOrphan()
    ensures Orphan(Early4(), 1, 7)
  {}

  /** Without order on the connections orphans are possible: user 7 leaves while the link is lost, and the game server
      handles the gate's new registration before it sees the old connection close. */
  lemma OrphanWithoutOrder()
    ensures Reached(Early4()) && Orphan(Early4(), 1, 7)
  {
    hide Moves, Reached, Playing, Down, Early1, Early2, Early3, Early4, Orphan;
    EarlyOrphan();
    PlayingIsReached();
    LosesLink();
    Leaves();
    Reconnects();
    RegistersEarly();
    OldLinkEnds();
    Onward(Playing(), GateSeesClose(1), Down());
    Onward(Down(), AtGate(Closed(0)), Early1());
    Onward(Early1(), Connect(1), Early2());
    Onward(Early2(), Deliver(1, 1), Early3());
    Onward(Early3(), GameSeesClose(1, 0), Early4());
  }

  /** In order: the game server sees the old connection close first, and the gate's session survives its game server. */
  function Again1(): State { Down().(games := map[1 := Game(None, map[], map[], {0})]) }
  function Again2(): State {
    Again1().(conns := map[1 := 1], games := map[1 := Game(None, map[], map[1 := [Register]], {0})], nextConn := 2)
  }
  function Again3(): State { Again2().(games := map[1 := Game(Some(1), map[], map[1 := []], {0, 1})]) }
  function Again4(): State { Again3().(gate := Again3().gate.(active := {1})) }
  function Relinked(): State {
    Again4().(gate := Again4().gate.(waiting := map[8 := 5], timers := multiset{WaitExpiry(7), WaitExpiry(8)}), issued := {7, 8})
  }

  lemma GameSeesTheEnd()
    ensures Moves(Down(), GameSeesClose(1, 0), Again1())
  {
    assert RemoveUserByGate(Players(), GATE) == map[];
    assert Hangup(Down().games[1], 0) == Again1().games[1];
    hide Hangup, Players;
    HangupMoves(Down(), 0, Again1());
  }

  lemma ReconnectsInOrder()
    ensures Moves(Again1(), Connect(1), Again2())
  {
    assert Again1().games[1 := Again2().games[1]] == Again2().games;
  }

  lemma RegistersInOrder()
    ensures Moves(Again2(), Deliver(1, 1), Again3())
  {
    var open: map<nat, seq<Wire>> := map[1 := [Register]];
    assert open[1 := []] == map[1 := []] && Again2().games[1].welcomed + {1} == {0, 1};
    RegisterMoves(Again2(), 1, Again3());
  }

  lemma WelcomedAgain()
    ensures Moves(Again3(), Welcome(1), Again4())
  {}

  lemma SecondUser()
    ensures Moves(Again4(), AtGate(Announce(8, 5)), Relinked())
  {
    assert map[][8 := 5] == map[8 := 5];
    AnnounceMoves(Again4(), 8, 5, Relinked());
  }

  lemma RelinkedFacts()
    ensures var s := Relinked(); var g := s.gate;
      Tidy(g) && OnlineSound(g) && Enabled(g, s.issued, LoginAs(0, 8, Some(1))) && Relogin(g, LoginAs(0, 8, Some(1)))
  {}

  lemma ReconnectedInOrder()
    ensures Reached(Again3())
  {
    hide Moves, Reached, Playing, Down, Again1, Again2, Again3, GateInv;
    PlayingIsReached();
    LosesLink();
    GameSeesTheEnd();
    ReconnectsInOrder();
    RegistersInOrder();
    Onward(Playing(), GateSeesClose(1), Down());
    Onward(Down(), GameSeesClose(1, 0), Again1());
    Onward(Again1(), Connect(1), Again2());
    Onward(Again2(), Deliver(1, 1), Again3());
  }

  /** The state of StaleKickMisfires is reached: session 0 was told to close but still holds id 7, and id 8 may log in. */
  lemma ReloginIsReached()
    ensures var s := Relinked(); var g := s.gate;
      && Reached(s) && GateInv(g, s.issued) && Tidy(g) && OnlineSound(g)
      && Enabled(g, s.issued, LoginAs(0, 8, Some(1))) && Relogin(g, LoginAs(0, 8, Some(1)))
  {
    RelinkedFacts();
    hide Moves, Reached, Again3, Again4, Relinked, GateInv, Enabled, Relogin, OnlineSound, Tidy;
    ReconnectedInOrder();
    WelcomedAgain();
    SecondUser();
    Onward(Again3(), Welcome(1), Again4());
    Onward(Again4(), AtGate(Announce(8, 5)), Relinked());
    ReachedIsFormed(Relinked());
  }
}
