/** Where the gate's code keeps less than one would expect, with the exact conditions. */
module GateFindings {
  import opened Bytes
  import opened GateModel
  import opened GameModel
  import opened GateProofs
  import opened Cluster

  // ---------- entries of m_onlines that outlive their session's login ----------

  /** Each entry of m_onlines names a session that holds the entry's id. */
  predicate OnlineSound(g: Gate)
    requires Tidy(g)
  {
    forall t :: t in g.onlines ==> Holds(g.users[g.onlines[t]], t)
  }

  /** A session that still holds an online id logs in again under another one: it was told to close because its game
      server went away, or its on_accept came after its first login. */
  predicate Relogin(g: Gate, e: Event)
    requires e.LoginAs? ==> e.p < |g.users|
  {
    e.LoginAs? && LoginAccepted(g, e.p, e.t, e.idle) && g.users[e.p].tran in g.onlines
  }

  /** Entering session p under a new id loses track of the id it held before. */
  lemma GrantOnlines(g: Gate, h: Gate, p: nat, t: TranId)
    requires Tidy(g) && Tidy(h) && HeldOnce(g) && OnlineSound(g) && p < |g.users| && t !in g.onlines
    requires |h.users| == |g.users| && h.users == g.users[p := h.users[p]]
    requires Holds(h.users[p], t) && h.onlines == g.onlines[t := p]
    requires INVALID_TRANS_ID !in g.onlines
    ensures OnlineSound(h) <==> g.users[p].tran !in g.onlines
  {
    hide UserOk;
    var held := g.users[p].tran;
    if held in g.onlines {
      assert Holds(g.users[g.onlines[held]], held);
      assert g.onlines[held] == p && h.onlines[held] == p && held != t;
    } else {
      forall x | x in h.onlines ensures Holds(h.users[h.onlines[x]], x) {
        if x != t {
          assert Holds(g.users[g.onlines[x]], x);
        }
      }
    }
  }

  lemma LoginOnlines(g: Gate, issued: set<TranId>, p: nat, t: TranId, idle: Option<GameId>)
    requires GateInv(g, issued) && OnlineSound(g) && Enabled(g, issued, LoginAs(p, t, idle))
    ensures Tidy(Login(g, p, t, idle).0)
    ensures OnlineSound(Login(g, p, t, idle).0) <==> !Relogin(g, LoginAs(p, t, idle))
  {
    LoginKeeps(g, issued, p, t, idle);
    var h := Login(g, p, t, idle).0;
    assert t in g.waiting || t in g.recon ==> t !in g.onlines;
    hide GateInv, AccountsDistinct, FreeWhileParked, Disjoint, UserOk;
    if LoginAccepted(g, p, t, idle) {
      hide OnlineSound;
      GrantOnlines(g, h, p, t);
    } else {
      hide HeldOnce;
    }
  }

  /** m_onlines stays sound across every step except one: a relogin leaves the old id pointing at the session. */
  lemma OnlinesStaySoundIff(g: Gate, issued: set<TranId>, e: Event)
    requires GateInv(g, issued) && OnlineSound(g) && Enabled(g, issued, e)
    ensures Tidy(GateProofs.Step(g, e).0)
    ensures OnlineSound(GateProofs.Step(g, e).0) <==> !Relogin(g, e)
  {
    hide GateInv, Tidy, OnlineSound, Login, Close, LinkDown, KickUser;
    match e
    case LoginAs(p, t, idle) => LoginOnlines(g, issued, p, t, idle);
    case Closed(p) => CloseOnlines(g, issued, p);
    case Down(gs) => DownOnlines(g, issued, gs);
    case Kick(t, a) => KickOnlines(g, issued, t, a);
    case _ => OtherOnlines(g, issued, e);
  }

  lemma OtherOnlines(g: Gate, issued: set<TranId>, e: Event)
    requires GateInv(g, issued) && OnlineSound(g) && Enabled(g, issued, e)
    requires !e.LoginAs? && !e.Closed? && !e.Down? && !e.Kick?
    ensures Tidy(GateProofs.Step(g, e).0) && OnlineSound(GateProofs.Step(g, e).0)
  {
    StepKeepsTokens(g, issued, e);
    hide AccountsDistinct, FreeWhileParked, Disjoint, HeldOnce, UserOk;
  }

  lemma DownOnlines(g: Gate, issued: set<TranId>, gs: GameId)
    requires GateInv(g, issued) && OnlineSound(g)
    ensures Tidy(LinkDown(g, gs)) && OnlineSound(LinkDown(g, gs))
  {
    DownKeeps(g, issued, gs);
    if gs in g.active {
      SameIds(g, LinkDown(g, gs), gs);
    }
  }

  lemma KickOnlines(g: Gate, issued: set<TranId>, t: TranId, a: Account)
    requires GateInv(g, issued) && OnlineSound(g)
    ensures Tidy(KickUser(g, t, a).0) && OnlineSound(KickUser(g, t, a).0)
  {
    KickKeeps(g, issued, t, a);
    hide AccountsDistinct, FreeWhileParked, Disjoint, HeldOnce, UserOk;
  }

  lemma CloseOnlines(g: Gate, issued: set<TranId>, p: nat)
    requires GateInv(g, issued) && OnlineSound(g) && p < |g.users|
    ensures Tidy(Close(g, p).0) && OnlineSound(Close(g, p).0)
  {
    hide AccountsDistinct, FreeWhileParked, Issued, Disjoint, UserOk;
    CloseKeeps(g, issued, p);
    var h := Close(g, p).0;
    forall x | x in h.onlines ensures Holds(h.users[h.onlines[x]], x) {
      assert Holds(g.users[g.onlines[x]], x);
    }
  }

  /** After such a relogin, kicking the old id closes the session of the new one. */
  lemma StaleKickMisfires(g: Gate, issued: set<TranId>, p: nat, t: TranId, idle: Option<GameId>, a: Account)
    requires GateInv(g, issued) && OnlineSound(g) && Enabled(g, issued, LoginAs(p, t, idle))
    requires Relogin(g, LoginAs(p, t, idle))
    ensures var stale := g.users[p].tran; var h := Login(g, p, t, idle).0;
      && stale in h.onlines && stale != t
      && h.users[p].state == Connected && h.users[p].tran == t && h.onlines[t] == p
      && p in KickUser(h, stale, a).0.closeAsked
  {
    var held := g.users[p].tran;
    var h := Login(g, p, t, idle).0;
    assert Holds(g.users[g.onlines[held]], held) && g.onlines[held] == p;
    assert t !in g.onlines && held != t;
    assert h.onlines == g.onlines[t := p];
    assert KickUser(h, held, a).0.closeAsked == h.closeAsked + {p};
  }

  // ---------- kicks and reconnects ----------

  /** A user kicked while online is parked for a reconnect when its session closes, whenever its game server is still
      active: the kick does not change the session's state. */
  lemma KickedMayReturnIff(g: Gate, issued: set<TranId>, t: TranId, a: Account)
    requires GateInv(g, issued) && OnlineSound(g) && t in g.onlines
    ensures var p := g.onlines[t]; var h := Close(KickUser(g, t, a).0, p).0;
      t in h.recon <==> g.users[p].state == Connected && g.users[p].game in g.active
  {}

  /** What the game server then knows: it was told to remove the user before it was told that the user is offline, and
      the returning user is not announced again. */
  lemma KickedReturnsToNothing(g: Gate, issued: set<TranId>, t: TranId, a: Account, q: nat, idle: Option<GameId>, users: GameUsers)
    requires GateInv(g, issued) && OnlineSound(g) && t in g.onlines
    requires g.users[g.onlines[t]].state == Connected && g.users[g.onlines[t]].game in g.active
    requires q < |g.users| && g.users[q].state == WaitAccount
    ensures var p := g.onlines[t]; var gs := g.users[p].game;
      var (h1, m1) := KickUser(g, t, a);
      var (h2, m2) := Close(h1, p);
      var (h3, m3) := Login(h2, q, t, idle);
      && m1 == Post(gs, Remove(t)) && m2 == Post(gs, Offline(t)) && m3 == Nothing
      && h3.users[q] == User(Connected, t, gs)
      && t !in Receive(Receive(users, GATE, m1.message), GATE, m2.message)
  {
    KickedMayReturnIff(g, issued, t, a);
  }

  /** A reconnect is never told to the game server: a session that a close marked offline stays offline. */
  lemma ReconnectStaysOffline(g: Gate, issued: set<TranId>, p: nat, q: nat, idle: Option<GameId>, users: GameUsers)
    requires GateInv(g, issued) && p < |g.users| && q < |g.users|
    requires g.users[p].state == Connected && g.users[p].game in g.active && g.users[q].state == WaitAccount
    requires g.users[p].tran in users
    ensures var t := g.users[p].tran; var gs := g.users[p].game;
      var (h, m) := Close(g, p);
      var (k, m') := Login(h, q, t, idle);
      && m == Post(gs, Offline(t)) && m' == Nothing
      && k.users[q] == User(Connected, t, gs)
      && t in Receive(users, GATE, m.message) && !Receive(users, GATE, m.message)[t].online
  {}

  // ---------- closing connections ----------

  predicate NoneOfOurs(users: GameUsers) {
    forall t :: t in users ==> users[t].gate != GATE
  }

  /** A closing connection takes the gate's users with it exactly when it is the registered one, or there are none. */
  lemma HangupPurgesIff(g: Game, n: nat)
    requires n in g.open
    ensures NoneOfOurs(Hangup(g, n).users) <==> g.registered == Some(n) || NoneOfOurs(g.users)
  {}
}
