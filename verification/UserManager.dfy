/** The gate's user manager and its sessions as the objects they are: maps from transaction ids to session objects,
    changed in place. Each method does to the manager's view exactly what the protocol model says. */
module UserManagers {
  import opened Bytes
  import GateModel
  import opened GateTypes = GateModel

  /** Which client object of the gate. */
  type ClientId = nat

  class UserSession {
    const slot: nat  // its place in the server's pool
    var state: UserState
    var tran: TranId
    var game: GameId
    var closing: bool  // close() was called

    constructor (slot: nat)
      ensures this.slot == slot && Value() == User(Disabled, INVALID_TRANS_ID, INVALID_GAME_ID) && !closing
    {
      this.slot := slot;
      state, tran, game, closing := Disabled, INVALID_TRANS_ID, INVALID_GAME_ID, false;
    }

    ghost function Value(): User
      reads this`state, this`tran, this`game
    {
      User(state, tran, game)
    }

    method SetState(s: UserState)
      modifies this`state, this`tran, this`game
      ensures Value() == GateModel.SetState(old(Value()), s)
    {
      state := s;
      match s
      case Disabled =>
        tran := INVALID_TRANS_ID;
        game := INVALID_GAME_ID;
      case _ =>
    }

    method RequestClose()
      modifies this`closing
      ensures closing
    {
      closing := true;
    }
  }

  class UserManager {
    const pool: seq<UserSession>
    var onlines: map<TranId, UserSession>
    var accounts: map<Account, TranId>
    var waiting: map<TranId, Account>
    var recon: map<TranId, GameId>
    var active: map<GameId, ClientId>  // m_activeGames: the registered client object of each game server
    var timers: multiset<Timer>
    var outbox: seq<Post>  // messages handed to game server clients, oldest first
    var replies: seq<TranId>  // MsgGT2LNPrepar messages handed to the login client

    ghost predicate Valid()
      reads this`onlines, this`active
    {
      && (forall gs :: gs in active ==> INVALID_GAME_ID < gs < MAX_GAME_ID)
      && (forall i :: 0 <= i < |pool| ==> pool[i].slot == i)
      && (forall t :: t in onlines ==> onlines[t].slot < |pool| && pool[onlines[t].slot] == onlines[t])
    }

    ghost function Users(): (r: seq<User>)
      reads pool
      ensures |r| == |pool|
    {
      seq(|pool|, i requires 0 <= i < |pool| reads pool => pool[i].Value())
    }

    ghost function Closing(): set<nat>
      reads pool`closing
    {
      set i | 0 <= i < |pool| && pool[i].closing
    }

    static function Slots(m: map<TranId, UserSession>): map<TranId, nat> {
      map t | t in m :: m[t].slot
    }

    lemma UserAt(p: UserSession)
      requires Valid() && p in pool
      ensures p.slot < |pool| && pool[p.slot] == p && Users()[p.slot] == p.Value()
    {}

    lemma SlotsHas(m: map<TranId, UserSession>, t: TranId)
      ensures t in m <==> t in Slots(m)
    {}

    lemma SlotsChange(m: map<TranId, UserSession>, t: TranId, p: UserSession)
      ensures Slots(m - {t}) == Slots(m) - {t}
      ensures Slots(GateModel.AddData(m, t, p)) == GateModel.AddData(Slots(m), t, p.slot)
      ensures t in m <==> t in Slots(m)
      ensures t in m ==> Slots(m)[t] == m[t].slot
    {}

    ghost function Active(): set<GameId>
      reads this`active
    {
      active.Keys
    }

    lemma IsActive(gs: GameId)
      requires Valid()
      ensures gs in active <==> gs in Active()
      ensures INVALID_GAME_ID !in Active()
    {}

    ghost function View(): Gate
      requires Valid()
      reads this, pool
    {
      Gate(Users(), Slots(onlines), accounts, waiting, recon, Active(), timers, Closing())
    }

    constructor (pool: seq<UserSession>)
      requires forall i :: 0 <= i < |pool| ==> pool[i].slot == i
      ensures Valid() && this.pool == pool && outbox == [] && replies == []
      ensures View() == Gate(Users(), map[], map[], map[], map[], {}, multiset{}, Closing())
    {
      this.pool := pool;
      onlines, accounts, waiting, recon, active, timers, outbox := map[], map[], map[], map[], map[], multiset{}, [];
      replies := [];
    }

    static function Sent(post: Post): seq<Post> {
      if post == Nothing then [] else [post]
    }

    /** getGameClient, then one call on the client if there is one. */
    method ToGame(gs: GameId, m: Message)
      requires Valid()
      modifies this`outbox
      ensures Valid() && View() == old(View())
      ensures outbox == old(outbox) + if gs in Active() then [Post(gs, m)] else []
    {
      if gs in active {
        outbox := outbox + [Post(gs, m)];
      }
    }

    method EraseOnline(t: TranId)
      requires Valid()
      modifies this`onlines
      ensures Valid() && t !in onlines && View() == old(View()).(onlines := old(View()).onlines - {t})
    {
      onlines := onlines - {t};
      assert Slots(onlines) == Slots(old(onlines)) - {t};
    }

    /** close() on one session. */
    method AskClose(p: UserSession)
      requires Valid() && p in pool
      modifies p`closing
      ensures p.closing && Valid() && Users() == old(Users()) && Closing() == old(Closing()) + {p.slot}
    {
      ghost var users := Users();
      p.RequestClose();
      assert Users() == users;
    }

    /** The part of kickUser for a user who is not online. */
    method KickAbsent(t: TranId)
      requires Valid() && t !in onlines
      modifies this`accounts, this`waiting, this`recon, this`outbox
      ensures Valid()
      ensures t !in waiting && t !in recon
      ensures View() == GateModel.KickUser(old(View()), t, 0).0
      ensures outbox == old(outbox) + Sent(GateModel.KickUser(old(View()), t, 0).1)
    {
      hide Active, Users, Closing, Slots, Valid;
      SlotsHas(onlines, t);
      var v := if t in waiting then waiting[t] else INVALID_ACCOUNT;
      waiting := waiting - {t};
      if v != INVALID_ACCOUNT {
        accounts := accounts - {v};
      }
      if t in recon {
        var gs := recon[t];
        recon := recon - {t};
        ToGame(gs, Remove(t));
      }
    }

    method KickUser(t: TranId, a: Account)
      requires Valid()
      modifies this`onlines, this`accounts, this`waiting, this`recon, this`outbox, pool
      ensures Valid()
      ensures t !in onlines && if t in old(onlines) then old(onlines)[t].closing && a !in accounts else t !in waiting && t !in recon
      ensures View() == GateModel.KickUser(old(View()), t, a).0
      ensures outbox == old(outbox) + Sent(GateModel.KickUser(old(View()), t, a).1)
    {
      hide Active, Users, Closing, Slots, Valid;
      SlotsHas(onlines, t);
      if t in onlines {
        OnlineAt(t);
        var p := onlines[t];
        UserAt(p);
        ToGame(p.game, Remove(t));
        AskClose(p);
        EraseOnline(t);
        accounts := accounts - {a};
      } else {
        KickAbsent(t);
      }
    }

    /** The user is awaited, for as long as the timer runs, and the login server is told. */
    method Await(t: TranId, a: Account)
      requires Valid()
      modifies this`waiting, this`timers, this`replies
      ensures Valid() && replies == old(replies) + [t] && t in waiting && WaitExpiry(t) in timers
      ensures View() == old(View()).(waiting := GateModel.AddData(old(waiting), t, a), timers := old(timers) + multiset{WaitExpiry(t)})
    {
      hide Active, Users, Closing, Slots;
      waiting := GateModel.AddData(waiting, t, a);
      timers := timers + multiset{WaitExpiry(t)};
      replies := replies + [t];
    }

    method AddToWait(t: TranId, a: Account)
      requires Valid()
      modifies this`onlines, this`accounts, this`waiting, this`recon, this`timers, this`outbox, this`replies, pool
      ensures Valid()
      ensures t in waiting && t !in onlines && WaitExpiry(t) in timers && (t in old(onlines) ==> old(onlines)[t].closing)
      ensures View() == GateModel.AddToWait(old(View()), t, a).0
      ensures outbox == old(outbox) + Sent(GateModel.AddToWait(old(View()), t, a).1)
      ensures replies == old(replies) + [t]
    {
      hide Active, Users, Closing, Slots, Valid, GateModel.KickUser, GateModel.AddData;
      SlotsHas(onlines, t);
      if t in onlines {
        KickUser(t, a);
      }
      Await(t, a);
    }

    /** Only p has changed. */
    lemma OneUser(before: seq<User>, p: UserSession)
      requires Valid() && p in pool && |before| == |pool|
      requires forall i :: 0 <= i < |pool| && pool[i] != p ==> before[i] == pool[i].Value()
      ensures p.slot < |pool| && pool[p.slot] == p
      ensures Users() == before[p.slot := p.Value()]
    {}

    /** The session enters under t, which is set by the caller. */
    method Admit(t: TranId, p: UserSession, gs: GameId)
      requires Valid() && p in pool
      modifies this`onlines, p`state, p`tran, p`game
      ensures Valid() && p.Value() == User(Connected, old(p.tran), gs)
      ensures View() == old(View()).(users := old(Users())[p.slot := p.Value()], onlines := GateModel.AddData(old(View()).onlines, t, p.slot))
    {
      hide Active, Users, Closing, Slots;
      UserAt(p);
      SlotsChange(onlines, t, p);
      Enter(p, gs);
      onlines := GateModel.AddData(onlines, t, p);
    }

    method Enter(p: UserSession, gs: GameId)
      requires Valid() && p in pool
      modifies p`state, p`tran, p`game
      ensures Valid() && p.Value() == User(Connected, old(p.tran), gs)
      ensures View() == old(View()).(users := old(Users())[p.slot := p.Value()])
    {
      ghost var users := Users();
      p.game := gs;
      p.SetState(Connected);
      OneUser(users, p);
    }

    method Refuse(p: UserSession)
      requires Valid() && p in pool
      modifies p`state, p`tran, p`game
      ensures Valid()
      ensures p.Value() == User(WaitClose, old(p.tran), old(p.game))
      ensures View() == old(View()).(users := old(Users())[p.slot := p.Value()])
    {
      ghost var users := Users();
      p.SetState(WaitClose);
      OneUser(users, p);
    }

    /** checkConn: may session p enter under id t? Its id is still the old one on return. */
    method CheckConn(t: TranId, p: UserSession, idle: Option<GameId>) returns (accepted: bool)
      requires Valid() && p in pool && p.state != UserState.Connected
      requires idle.Some? ==> idle.value in active
      modifies this`onlines, this`accounts, this`waiting, this`recon, this`outbox, p`state, p`tran, p`game
      ensures Valid() && p.tran == old(p.tran)
      ensures accepted == LoginAccepted(old(View()), p.slot, t, idle)
      ensures var (g, post) := GateModel.CheckConn(old(View()), t, p.slot, idle);
        && View() == g.(users := g.users[p.slot := p.Value()])
        && g.users[p.slot] == (if accepted then p.Value().(tran := t) else p.Value())
        && outbox == old(outbox) + Sent(post)
      ensures p.state == if accepted then UserState.Connected else WaitClose
    {
      if t in waiting {
        accepted := CheckWaiting(t, p, idle);
      } else {
        accepted := CheckParked(t, p, idle);
      }
    }

    /** checkConn for an id the login server has announced. */
    method CheckWaiting(t: TranId, p: UserSession, idle: Option<GameId>) returns (accepted: bool)
      requires Valid() && p in pool && p.state != UserState.Connected && t in waiting
      requires idle.Some? ==> idle.value in active
      modifies this`onlines, this`accounts, this`waiting, this`outbox, p`state, p`tran, p`game
      ensures Valid() && p.tran == old(p.tran)
      ensures accepted == LoginAccepted(old(View()), p.slot, t, idle)
      ensures var (g, post) := GateModel.CheckConn(old(View()), t, p.slot, idle);
        && View() == g.(users := g.users[p.slot := p.Value()])
        && g.users[p.slot] == (if accepted then p.Value().(tran := t) else p.Value())
        && outbox == old(outbox) + Sent(post)
      ensures p.state == if accepted then UserState.Connected else WaitClose
    {
      UserAt(p);
      hide Active, Users, Closing, Slots, Valid, GateModel.AddData;
      var v := waiting[t];
      waiting := waiting - {t};
      match idle
      case None =>
        Refuse(p);
        accepted := false;
      case Some(gs) =>
        EnterNew(t, v, p, gs);
        accepted := true;
    }

    /** checkConn for any other id: its user may be parked. */
    method CheckParked(t: TranId, p: UserSession, idle: Option<GameId>) returns (accepted: bool)
      requires Valid() && p in pool && p.state != UserState.Connected && t !in waiting
      modifies this`onlines, this`recon, p`state, p`tran, p`game
      ensures Valid() && p.tran == old(p.tran)
      ensures accepted == LoginAccepted(old(View()), p.slot, t, idle)
      ensures var (g, post) := GateModel.CheckConn(old(View()), t, p.slot, idle);
        && View() == g.(users := g.users[p.slot := p.Value()])
        && g.users[p.slot] == (if accepted then p.Value().(tran := t) else p.Value())
        && outbox == old(outbox) + Sent(post)
      ensures p.state == if accepted then UserState.Connected else WaitClose
    {
      UserAt(p);
      hide Active, Users, Closing, Slots, Valid, GateModel.AddData;
      if t in recon {
        var gs := recon[t];
        recon := recon - {t};
        Admit(t, p, gs);
        accepted := true;
      } else {
        Refuse(p);
        accepted := false;
      }
    }

    /** A new user enters: its game server is told first. */
    method EnterNew(t: TranId, v: Account, p: UserSession, gs: GameId)
      requires Valid() && p in pool && gs in active
      modifies this`onlines, this`accounts, this`outbox, p`state, p`tran, p`game
      ensures Valid() && p.Value() == User(Connected, old(p.tran), gs)
      ensures var g := old(View());
        View() == g.(users := g.users[p.slot := p.Value()], onlines := GateModel.AddData(g.onlines, t, p.slot),
                     accounts := GateModel.AddData(g.accounts, v, t))
      ensures outbox == old(outbox) + [Post(gs, Add(t, v))]
    {
      hide Active, Users, Closing, Slots, Valid, GateModel.AddData;
      IsActive(gs);
      ToGame(gs, Add(t, v));
      Admit(t, p, gs);
      accounts := GateModel.AddData(accounts, v, t);
    }

    /** The assignment of m_tranid. */
    method Grant(p: UserSession, t: TranId)
      requires Valid() && p in pool
      modifies p`tran
      ensures p.tran == t && Valid() && p.slot < |pool| && View() == old(View()).(users := old(Users())[p.slot := old(p.Value()).(tran := t)])
    {
      ghost var users := Users();
      p.tran := t;
      OneUser(users, p);
    }

    /** parseLoginGame. */
    method ParseLoginGame(p: UserSession, t: TranId, idle: Option<GameId>)
      requires Valid() && p in pool
      requires idle.Some? ==> idle.value in active
      modifies this`onlines, this`accounts, this`waiting, this`recon, this`outbox, p`state, p`tran, p`game
      ensures Valid()
      ensures old(p.state) == Connected ==> p.Value() == old(p.Value())
      ensures old(p.state) != Connected && LoginAccepted(old(View()), p.slot, t, idle) ==> p.state == Connected && p.tran == t
      ensures old(p.state) != Connected && !LoginAccepted(old(View()), p.slot, t, idle) ==> p.Value() == User(WaitClose, old(p.tran), old(p.game))
      ensures View() == GateModel.Login(old(View()), p.slot, t, idle).0
      ensures outbox == old(outbox) + Sent(GateModel.Login(old(View()), p.slot, t, idle).1)
    {
      hide Active, Users, Closing, Slots, Valid;
      UserAt(p);
      if p.state == Connected {
        return;
      }
      var accepted := CheckConn(t, p, idle);
      if accepted {
        Grant(p, t);
      }
      ghost var g := GateModel.CheckConn(old(View()), t, p.slot, idle).0;
      assert g.users == g.users[p.slot := g.users[p.slot]];
    }

    method CheckClose(p: UserSession)
      requires Valid() && p in pool
      modifies this`onlines, this`accounts, this`recon, this`timers, this`outbox
      ensures Valid()
      ensures p.tran !in onlines && ReconnectExpiry(p.tran) in timers
      ensures View() == GateModel.CheckClose(old(View()), p.slot).0
      ensures outbox == old(outbox) + Sent(GateModel.CheckClose(old(View()), p.slot).1)
    {
      hide Active, Users, Closing, Slots, Valid, GateModel.AddData, GateModel.EraseValue;
      UserAt(p);
      var t, gs := p.tran, p.game;
      IsActive(gs);
      EraseOnline(t);
      if gs in active && p.state == Connected {
        Park(t, gs);
      } else {
        Forget(t, gs);
      }
      timers := timers + multiset{ReconnectExpiry(t)};
    }

    /** The two outcomes of checkClose: the user may come back, or has left. */
    method Park(t: TranId, gs: GameId)
      requires Valid() && gs in active
      modifies this`recon, this`outbox
      ensures Valid() && View() == old(View()).(recon := GateModel.AddData(old(recon), t, gs))
      ensures outbox == old(outbox) + [Post(gs, Offline(t))]
    {
      hide Active, Users, Closing, Slots, GateModel.AddData;
      IsActive(gs);
      recon := GateModel.AddData(recon, t, gs);
      ToGame(gs, Offline(t));
    }

    method Forget(t: TranId, gs: GameId)
      requires Valid()
      modifies this`accounts, this`outbox
      ensures Valid() && View() == old(View()).(accounts := GateModel.EraseValue(old(accounts), t))
      ensures outbox == old(outbox) + if gs in Active() then [Post(gs, Remove(t))] else []
    {
      hide Active, Users, Closing, Slots, GateModel.EraseValue;
      accounts := GateModel.EraseValue(accounts, t);
      ToGame(gs, Remove(t));
    }

    /** UserSession::on_close. */
    method OnClose(p: UserSession)
      requires Valid() && p in pool
      modifies this`onlines, this`accounts, this`recon, this`timers, this`outbox, p
      ensures Valid()
      ensures p.Value() == User(Disabled, INVALID_TRANS_ID, INVALID_GAME_ID) && !p.closing && old(p.tran) !in onlines
      ensures ReconnectExpiry(old(p.tran)) in timers
      ensures View() == GateModel.Close(old(View()), p.slot).0
      ensures outbox == old(outbox) + Sent(GateModel.Close(old(View()), p.slot).1)
    {
      hide Active, Users, Closing, Slots, Valid, GateModel.CheckClose;
      UserAt(p);
      CheckClose(p);
      Disable(p);
    }

    /** The session is free for the next connection. */
    method Disable(p: UserSession)
      requires Valid() && p in pool
      modifies p
      ensures p.Value() == User(Disabled, INVALID_TRANS_ID, INVALID_GAME_ID) && !p.closing && Valid()
      ensures View() == old(View()).(users := old(Users())[p.slot := p.Value()], closeAsked := old(Closing()) - {p.slot})
    {
      ghost var users, closing := Users(), Closing();
      p.SetState(Disabled);
      p.closing := false;
      OneUser(users, p);
      assert Closing() == closing - {p.slot};
    }

    /** UserSession::on_accept. */
    method OnAccept(p: UserSession)
      requires Valid() && p in pool
      modifies p`state, p`tran, p`game
      ensures Valid() && View() == GateModel.Accept(old(View()), p.slot)
      ensures p.Value() == User(WaitAccount, old(p.tran), old(p.game))
    {
      ghost var users := Users();
      p.SetState(WaitAccount);
      OneUser(users, p);
    }

    method EventCallRemoveWait(t: TranId)
      requires Valid()
      modifies this`waiting, this`timers
      ensures Valid() && View() == GateModel.ExpireWait(old(View()), t) && t !in waiting
    {
      waiting := waiting - {t};
      timers := timers - multiset{WaitExpiry(t)};
    }

    lemma ViewIs()
      requires Valid()
      ensures View().recon == recon && View().accounts == accounts && View().timers == timers && View().active == Active()
    {}

    static lemma ExpireIs(g: Gate, t: TranId, gs: GameId, h: Gate)
      requires gs == if t in g.recon then g.recon[t] else INVALID_GAME_ID
      requires INVALID_GAME_ID !in g.active
      requires h == g.(recon := g.recon - {t}, timers := g.timers - multiset{ReconnectExpiry(t)}, accounts := GateModel.EraseValue(g.accounts, t))
      ensures GateModel.ExpireReconnect(g, t) == (h, if gs in g.active then Post(gs, Remove(t)) else Nothing)
    {}

    /** The id leaves the reconnect map and its timer is spent. */
    method Unpark(t: TranId) returns (gs: GameId)
      requires Valid()
      modifies this`recon, this`timers
      ensures Valid() && t !in recon && gs == if t in old(recon) then old(recon)[t] else INVALID_GAME_ID
      ensures View() == old(View()).(recon := old(recon) - {t}, timers := old(timers) - multiset{ReconnectExpiry(t)})
    {
      hide Active, Users, Closing, Slots;
      gs := if t in recon then recon[t] else INVALID_GAME_ID;
      recon := recon - {t};
      timers := timers - multiset{ReconnectExpiry(t)};
    }

    method EraseAccounts(t: TranId)
      requires Valid()
      modifies this`accounts
      ensures Valid() && View() == old(View()).(accounts := GateModel.EraseValue(old(accounts), t))
    {
      hide Active, Users, Closing, Slots, GateModel.EraseValue;
      accounts := GateModel.EraseValue(accounts, t);
    }

    method EventCallRemoveReconn(t: TranId)
      requires Valid()
      modifies this`accounts, this`recon, this`timers, this`outbox
      ensures Valid()
      ensures t !in recon
      ensures View() == GateModel.ExpireReconnect(old(View()), t).0
      ensures outbox == old(outbox) + Sent(GateModel.ExpireReconnect(old(View()), t).1)
    {
      IsActive(0);
      hide Active, View, Valid, GateModel.EraseValue, GateModel.ExpireReconnect;
      ghost var g := View();
      ViewIs();
      var gs := Unpark(t);
      if gs != INVALID_GAME_ID {
        Forget(t, gs);
      } else {
        EraseAccounts(t);
      }
      ExpireIs(g, t, gs, View());
    }

    /** The sessions once the entries of the ids in `walked` have been visited. */
    ghost function Told(before: seq<User>, slots: map<TranId, nat>, walked: set<TranId>, gs: GameId): (r: seq<User>)
      ensures |r| == |before|
    {
      seq(|before|, i requires 0 <= i < |before| =>
        if (exists t :: t in slots && t in walked && slots[t] == i) && before[i].game == gs then GateModel.SetState(before[i], WaitClose)
        else before[i])
    }

    lemma ToldStep(before: seq<User>, slots: map<TranId, nat>, walked: set<TranId>, gs: GameId, t: TranId)
      requires t in slots && slots[t] < |before|
      ensures var p := slots[t]; var told := Told(before, slots, walked, gs);
        && told[p].game == before[p].game
        && Told(before, slots, walked + {t}, gs)
           == if before[p].game == gs then told[p := GateModel.SetState(told[p], WaitClose)] else told
    {
      var p, told := slots[t], Told(before, slots, walked, gs);
      var next := if before[p].game == gs then told[p := GateModel.SetState(told[p], WaitClose)] else told;
      forall i | 0 <= i < |before|
        ensures Told(before, slots, walked + {t}, gs)[i] == next[i]
      {
        if i == p {
          assert t in slots && t in walked + {t} && slots[t] == i;
        }
      }
    }

    lemma ToldNone(gs: GameId)
      ensures Users() == Told(Users(), Slots(onlines), {}, gs)
      ensures onlines == onlines - {}
    {}

    lemma ToldAll(gs: GameId)
      requires Valid()
      ensures GateModel.RemoveUsers(View(), gs)
        == View().(users := Told(Users(), Slots(onlines), onlines.Keys, gs), recon := GateModel.EraseValue(recon, gs))
    {
      assert Slots(onlines).Keys == onlines.Keys;
      assert GateModel.RemoveUsers(View(), gs).users == Told(Users(), Slots(onlines), onlines.Keys, gs);
    }

    lemma OnlineAt(t: TranId)
      requires Valid() && t in onlines
      ensures onlines[t] in pool && t in Slots(onlines) && Slots(onlines)[t] == onlines[t].slot
    {}

    /** One visit. */
    method Tell(p: UserSession, gs: GameId)
      requires Valid() && p in pool
      modifies p`state, p`tran, p`game
      ensures Valid() && Closing() == old(Closing())
      ensures Users() == if old(p.game) == gs then old(Users())[p.slot := GateModel.SetState(old(p.Value()), WaitClose)] else old(Users())
    {
      ghost var users := Users();
      if p.game == gs {
        p.SetState(WaitClose);
      }
      OneUser(users, p);
    }

    static lemma OneLess(m: map<TranId, UserSession>, walked: set<TranId>, t: TranId)
      requires t in m - walked
      ensures (m - walked) - {t} == m - (walked + {t}) && |(m - walked) - {t}| < |m - walked|
    {
      var r := m - walked;
      assert r.Keys == (r - {t}).Keys + {t} && |r| == |r.Keys| && |r - {t}| == |(r - {t}).Keys|;
    }

    static lemma AllWalked(m: map<TranId, UserSession>, walked: set<TranId>)
      requires walked <= m.Keys && m - walked == map[]
      ensures walked == m.Keys
    {
      forall t | t in m
        ensures t in walked
      {
        assert t in walked || t in m - walked;
      }
    }

    /** One visit, in terms of what has been visited. */
    method Visit(t: TranId, p: UserSession, gs: GameId, ghost before: seq<User>, ghost walked: set<TranId>)
      requires Valid() && t in onlines && onlines[t] == p
      requires |before| == |pool| && Users() == Told(before, Slots(onlines), walked, gs)
      modifies pool
      ensures Valid() && Closing() == old(Closing())
      ensures Users() == Told(before, Slots(onlines), walked + {t}, gs)
    {
      OnlineAt(t);
      UserAt(p);
      ToldStep(before, Slots(onlines), walked, gs, t);
      hide Active, Closing, Users, Slots, Told, Valid;
      Tell(p, gs);
    }

    /** The loop of removeUsers, over a copy of the online map. */
    method TellAll(gs: GameId)
      requires Valid()
      modifies pool
      ensures Valid() && Closing() == old(Closing())
      ensures Users() == Told(old(Users()), Slots(onlines), onlines.Keys, gs)
    {
      ghost var before, slots := Users(), Slots(onlines);
      ghost var walked: set<TranId> := {};
      hide Active, Closing, Users, Slots, Told, Valid;
      var todo := onlines;
      ToldNone(gs);
      while todo != map[]
        invariant Valid() && Closing() == old(Closing())
        invariant walked <= onlines.Keys
        invariant todo == onlines - walked
        invariant Users() == Told(before, slots, walked, gs)
        decreases |todo|
      {
        var t :| t in todo;
        OneLess(onlines, walked, t);
        Visit(t, todo[t], gs, before, walked);
        todo := todo - {t};
        walked := walked + {t};
      }
      AllWalked(onlines, walked);
    }

    /** removeUsers. */
    method RemoveUsers(gs: GameId)
      requires Valid()
      modifies this`recon, pool
      ensures Valid() && View() == GateModel.RemoveUsers(old(View()), gs)
    {
      ToldAll(gs);
      hide Active, Closing, Users, Slots, Told, Valid, GateModel.EraseValue, GateModel.RemoveUsers;
      TellAll(gs);
      recon := GateModel.EraseValue(recon, gs);
    }

    /** removeActiveGameClient: a closing client takes its game server down only if it is the registered one. */
    method RemoveActiveGameClient(gs: GameId, client: ClientId)
      requires Valid()
      modifies this`recon, this`active, pool
      ensures Valid()
      ensures var mine := gs in old(active) && old(active)[gs] == client;
        && View() == (if mine then GateModel.LinkDown(old(View()), gs) else old(View()))
        && active == (if mine then old(active) - {gs} else old(active))
    {
      if INVALID_GAME_ID < gs < MAX_GAME_ID {
        if gs in active && active[gs] == client {
          RemoveUsers(gs);
          active := active - {gs};
          assert active.Keys == old(active).Keys - {gs};
        }
      }
    }

    /** addActiveGameClient: the last client to register an id is the one. */
    method AddActiveGameClient(gs: GameId, client: ClientId)
      requires Valid()
      modifies this`active
      ensures Valid() && View() == GateModel.LinkUp(old(View()), gs)
      ensures active == if INVALID_GAME_ID < gs < MAX_GAME_ID then old(active)[gs := client] else old(active)
    {
      if INVALID_GAME_ID < gs < MAX_GAME_ID {
        active := active[gs := client];
        assert active.Keys == old(active).Keys + {gs};
      }
    }
  }
}
