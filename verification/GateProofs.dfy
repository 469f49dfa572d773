/** Every step of the gate keeps the transaction ids unique. */
module GateProofs {
  import opened Bytes
  import opened GateModel

  datatype Event =
    | Announce(t: TranId, a: Account)                    // MsgLN2GTUserLogin
    | Kick(t: TranId, a: Account)                        // MsgLN2GTKickUser
    | Accepted(p: nat)                                   // on_accept
    | LoginAs(p: nat, t: TranId, idle: Option<GameId>)   // LoginGame from a client
    | Closed(p: nat)                                     // on_close
    | FireWait(t: TranId)
    | FireReconnect(t: TranId)
    | Down(gs: GameId)                                   // a game server client closed
    | Up(gs: GameId)                                     // a game server registered

  /** When an event can happen. The login server issues fresh ids and timers fire at most once each; everything else may
      happen at any time, in any order. In particular a login message can be processed before the on_accept of its
      session, because the read is started first and the callbacks are polled before the message queue is swapped. */
  predicate Enabled(g: Gate, issued: set<TranId>, e: Event) {
    match e
    case Announce(t, a) => t != INVALID_TRANS_ID && t !in issued
    case Kick(t, a) => true
    case Accepted(p) => p < |g.users|
    case LoginAs(p, t, idle) => p < |g.users| && (idle.Some? ==> idle.value in g.active)
    case Closed(p) => p < |g.users|
    case FireWait(t) => WaitExpiry(t) in g.timers
    case FireReconnect(t) => ReconnectExpiry(t) in g.timers
    case Down(gs) => true
    case Up(gs) => true
  }

  function Step(g: Gate, e: Event): (Gate, Post)
    requires Tidy(g)
    requires (e.Accepted? || e.LoginAs? || e.Closed?) ==> e.p < |g.users|
  {
    match e
    case Announce(t, a) => AddToWait(g, t, a)
    case Kick(t, a) => KickUser(g, t, a)
    case Accepted(p) => (Accept(g, p), Nothing)
    case LoginAs(p, t, idle) => Login(g, p, t, idle)
    case Closed(p) => Close(g, p)
    case FireWait(t) => (ExpireWait(g, t), Nothing)
    case FireReconnect(t) => ExpireReconnect(g, t)
    case Down(gs) => (LinkDown(g, gs), Nothing)
    case Up(gs) => (LinkUp(g, gs), Nothing)
  }

  function IssuedAfter(issued: set<TranId>, e: Event): set<TranId> {
    if e.Announce? then issued + {e.t} else issued
  }

  // ---------- one lemma a step ----------

  lemma AnnounceKeeps(g: Gate, issued: set<TranId>, t: TranId, a: Account)
    requires GateInv(g, issued) && t != INVALID_TRANS_ID && t !in issued
    ensures GateInv(AddToWait(g, t, a).0, issued + {t})
  {}

  lemma KickKeepsIssued(g: Gate, issued: set<TranId>, t: TranId, a: Account)
    requires GateInv(g, issued)
    ensures Issued(KickUser(g, t, a).0, issued) && Tidy(KickUser(g, t, a).0)
  {
    hide HeldOnce, Disjoint, FreeWhileParked, AccountsDistinct, UserOk;
  }

  lemma KickKeeps(g: Gate, issued: set<TranId>, t: TranId, a: Account)
    requires GateInv(g, issued)
    ensures GateInv(KickUser(g, t, a).0, issued)
  {
    hide Issued, UserOk, Tidy;
    KickKeepsIssued(g, issued, t, a);
  }

  lemma AcceptKeeps(g: Gate, issued: set<TranId>, p: nat)
    requires GateInv(g, issued) && p < |g.users|
    ensures GateInv(Accept(g, p), issued)
  {}

  /** A refused or ignored login changes at most the session's state. */
  lemma RefusalKeeps(g: Gate, issued: set<TranId>, p: nat)
    requires GateInv(g, issued) && p < |g.users| && g.users[p].state != Connected
    ensures GateInv(SetUser(g, p, SetState(g.users[p], WaitClose)), issued)
  {}

  lemma ForgetWaiting(g: Gate, issued: set<TranId>, t: TranId)
    requires GateInv(g, issued)
    ensures GateInv(g.(waiting := g.waiting - {t}), issued)
  {}

  lemma ForgetReconnect(g: Gate, issued: set<TranId>, t: TranId)
    requires GateInv(g, issued)
    ensures GateInv(g.(recon := g.recon - {t}), issued)
  {}

  /** Giving a session an id nobody holds or awaits, and entering it as online. */
  lemma GrantKeeps(g: Gate, issued: set<TranId>, p: nat, t: TranId, gs: GameId)
    requires GateInv(g, issued) && p < |g.users|
    requires t in issued && gs in g.active && t !in g.onlines && t !in g.waiting && t !in g.recon
    requires forall i :: 0 <= i < |g.users| ==> g.users[i].tran != t
    ensures GateInv(SetUser(g, p, User(Connected, t, gs)).(onlines := AddData(g.onlines, t, p)), issued)
  {
    hide AccountsDistinct;
    var h := SetUser(g, p, User(Connected, t, gs)).(onlines := AddData(g.onlines, t, p));
    assert AccountsDistinct(h) by { SameAccounts(g, h); }
  }

  lemma SameAccounts(g: Gate, h: Gate)
    requires AccountsDistinct(g) && h.accounts == g.accounts && h.waiting.Keys <= g.waiting.Keys
    ensures AccountsDistinct(h)
  {}

  lemma RecordAccount(g: Gate, issued: set<TranId>, v: Account, t: TranId)
    requires GateInv(g, issued) && t in issued && t !in g.waiting
    requires forall a :: a in g.accounts ==> g.accounts[a] != t
    ensures GateInv(g.(accounts := AddData(g.accounts, v, t)), issued)
  {}

  lemma LoginKeeps(g: Gate, issued: set<TranId>, p: nat, t: TranId, idle: Option<GameId>)
    requires GateInv(g, issued) && p < |g.users|
    requires idle.Some? ==> idle.value in g.active
    ensures GateInv(Login(g, p, t, idle).0, issued)
  {
    if g.users[p].state != Connected {
      if t in g.waiting {
        var v, h := g.waiting[t], g.(waiting := g.waiting - {t});
        assert t in issued && t !in g.onlines && t !in g.recon;
        assert forall a :: a in g.accounts ==> g.accounts[a] != t;
        assert forall i :: 0 <= i < |g.users| ==> g.users[i].tran != t;
        ForgetWaiting(g, issued, t);
        hide GateInv;
        if idle == None {
          RefusalKeeps(h, issued, p);
        } else {
          GrantKeeps(h, issued, p, t, idle.value);
          var k := SetUser(h, p, User(Connected, t, idle.value)).(onlines := AddData(h.onlines, t, p));
          RecordAccount(k, issued, v, t);
        }
      } else if t in g.recon {
        var h := g.(recon := g.recon - {t});
        assert t in issued && t !in g.onlines && g.recon[t] in g.active;
        assert forall i :: 0 <= i < |g.users| ==> g.users[i].tran != t;
        ForgetReconnect(g, issued, t);
        hide GateInv;
        GrantKeeps(h, issued, p, t, g.recon[t]);
      } else {
        RefusalKeeps(g, issued, p);
      }
    }
  }

  /** A closing session gives its id back. */
  lemma DisableKeeps(g: Gate, issued: set<TranId>, p: nat)
    requires GateInv(g, issued) && p < |g.users|
    ensures GateInv(SetUser(g, p, SetState(g.users[p], Disabled)), issued)
    ensures g.users[p].tran != INVALID_TRANS_ID ==>
      forall i :: 0 <= i < |g.users| ==> SetUser(g, p, SetState(g.users[p], Disabled)).users[i].tran != g.users[p].tran
  {}

  lemma ForgetOnline(g: Gate, issued: set<TranId>, t: TranId)
    requires GateInv(g, issued)
    ensures GateInv(g.(onlines := g.onlines - {t}), issued)
  {}

  lemma ForgetAccounts(g: Gate, issued: set<TranId>, t: TranId)
    requires GateInv(g, issued)
    ensures GateInv(g.(accounts := EraseValue(g.accounts, t)), issued)
  {}

  lemma ParkKeeps(g: Gate, issued: set<TranId>, t: TranId, gs: GameId)
    requires GateInv(g, issued) && t in issued && gs in g.active && t !in g.onlines && t !in g.waiting
    requires forall i :: 0 <= i < |g.users| ==> g.users[i].tran != t
    ensures GateInv(g.(recon := AddData(g.recon, t, gs)), issued)
  {}

  lemma TimersDoNotMatter(g: Gate, issued: set<TranId>, timers: multiset<Timer>, closeAsked: set<nat>)
    requires GateInv(g, issued)
    ensures GateInv(g.(timers := timers, closeAsked := closeAsked), issued)
  {}

  lemma CloseKeeps(g: Gate, issued: set<TranId>, p: nat)
    requires GateInv(g, issued) && p < |g.users|
    ensures GateInv(Close(g, p).0, issued)
  {
    var u := g.users[p];
    var h := SetUser(g, p, SetState(u, Disabled));
    var k := h.(onlines := h.onlines - {u.tran});
    assert u.tran !in g.waiting && (u.tran == INVALID_TRANS_ID || u.tran in issued) && UserOk(u);
    DisableKeeps(g, issued, p);
    hide GateInv;
    ForgetOnline(h, issued, u.tran);
    var l := Close(g, p).0;
    if u.game in g.active && u.state == Connected {
      ParkKeeps(k, issued, u.tran, u.game);
      TimersDoNotMatter(k.(recon := AddData(k.recon, u.tran, u.game)), issued, l.timers, l.closeAsked);
    } else {
      ForgetAccounts(k, issued, u.tran);
      TimersDoNotMatter(k.(accounts := EraseValue(k.accounts, u.tran)), issued, l.timers, l.closeAsked);
    }
  }

  lemma ExpireKeeps(g: Gate, issued: set<TranId>, t: TranId)
    requires GateInv(g, issued)
    ensures GateInv(ExpireWait(g, t), issued) && GateInv(ExpireReconnect(g, t).0, issued)
  {
    hide GateInv;
    ForgetWaiting(g, issued, t);
    TimersDoNotMatter(g.(waiting := g.waiting - {t}), issued, ExpireWait(g, t).timers, g.closeAsked);
    ForgetReconnect(g, issued, t);
    var h := g.(recon := g.recon - {t});
    ForgetAccounts(h, issued, t);
    TimersDoNotMatter(h.(accounts := EraseValue(h.accounts, t)), issued, ExpireReconnect(g, t).0.timers, g.closeAsked);
  }

  lemma DownKeeps(g: Gate, issued: set<TranId>, gs: GameId)
    requires GateInv(g, issued)
    ensures GateInv(LinkDown(g, gs), issued)
  {
    if gs in g.active {
      var h := LinkDown(g, gs);
      SameIds(g, h, gs);
    }
  }

  lemma SameIds(g: Gate, h: Gate, gs: GameId)
    requires gs in g.active && h == LinkDown(g, gs)
    ensures |h.users| == |g.users|
    ensures forall i :: 0 <= i < |g.users| ==>
      h.users[i] == g.users[i] || (h.users[i] == g.users[i].(state := WaitClose) && g.users[i].game == gs)
  {}

  lemma UpKeeps(g: Gate, issued: set<TranId>, gs: GameId)
    requires GateInv(g, issued)
    ensures GateInv(LinkUp(g, gs), issued)
  {}

  // ---------- all steps, all runs ----------

  /** Every step keeps the ids unique. */
  lemma StepKeepsTokens(g: Gate, issued: set<TranId>, e: Event)
    requires GateInv(g, issued) && Enabled(g, issued, e)
    ensures GateInv(Step(g, e).0, IssuedAfter(issued, e))
  {
    match e
    case Announce(t, a) => AnnounceKeeps(g, issued, t, a);
    case Kick(t, a) => KickKeeps(g, issued, t, a);
    case Accepted(p) => AcceptKeeps(g, issued, p);
    case LoginAs(p, t, idle) => LoginKeeps(g, issued, p, t, idle);
    case Closed(p) => CloseKeeps(g, issued, p);
    case FireWait(t) => ExpireKeeps(g, issued, t);
    case FireReconnect(t) => ExpireKeeps(g, issued, t);
    case Down(gs) => DownKeeps(g, issued, gs);
    case Up(gs) => UpKeeps(g, issued, gs);
  }

  // ---------- which ids a game server may still know ----------

  /** The ids the gate accounts for at game server gs: held by an open session bound to it, or waiting to reconnect to it. */
  predicate Owned(g: Gate, gs: GameId, t: TranId) {
    || (t in g.recon && g.recon[t] == gs)
    || exists i :: 0 <= i < |g.users| && Holds(g.users[i], t) && g.users[i].game == gs
  }

  /** d is a set of ids that game server gs knows, or will know once its messages have arrived: the gate accounts for all. */
  predicate Backed(g: Gate, gs: GameId, d: set<TranId>) {
    forall t :: t in d ==> Owned(g, gs, t)
  }

  /** What one message does to the set of ids known at gs. */
  function Effect(d: set<TranId>, m: Message): set<TranId> {
    match m
    case Add(t, a) => d + {t}
    case Remove(t) => d - {t}
    case Offline(t) => d
  }

  function PostEffect(d: set<TranId>, gs: GameId, post: Post): set<TranId> {
    if post.Post? && post.game == gs then Effect(d, post.message) else d
  }

  /** A session that holds an id known at a game server logs in again. */
  predicate Rebinds(g: Gate, d: set<TranId>, e: Event)
    requires e.LoginAs? ==> e.p < |g.users|
  {
    e.LoginAs? && LoginAccepted(g, e.p, e.t, e.idle) && g.users[e.p].tran in d
  }

  lemma NobodyIsNotOwned(g: Gate, issued: set<TranId>, gs: GameId)
    requires GateInv(g, issued) && gs != INVALID_GAME_ID
    ensures !Owned(g, gs, INVALID_TRANS_ID)
  {}

  lemma OwnerIsUnique(g: Gate, issued: set<TranId>, gs: GameId, t: TranId, i: nat)
    requires GateInv(g, issued) && Owned(g, gs, t) && t != INVALID_TRANS_ID
    requires i < |g.users| && g.users[i].tran == t
    ensures g.users[i].game == gs && t !in g.recon
  {}

  /** Sessions that keep their ids, and parked ids that stay parked, stay owned. */
  lemma SameOwners(g: Gate, h: Gate, gs: GameId, d: set<TranId>)
    requires Backed(g, gs, d) && |h.users| == |g.users|
    requires forall i :: 0 <= i < |g.users| && g.users[i].tran in d && g.users[i].state != Disabled ==>
      h.users[i].state != Disabled && h.users[i].tran == g.users[i].tran && h.users[i].game == g.users[i].game
    requires forall x :: x in d && x in g.recon ==> x in h.recon && h.recon[x] == g.recon[x]
    ensures Backed(h, gs, d)
  {
    forall x | x in d
      ensures Owned(h, gs, x)
    {
      assert Owned(g, gs, x);
      if !(x in g.recon && g.recon[x] == gs) {
        var i :| 0 <= i < |g.users| && Holds(g.users[i], x) && g.users[i].game == gs;
        assert Holds(h.users[i], x);
      }
    }
  }

  lemma FewerBacked(g: Gate, gs: GameId, d: set<TranId>, d': set<TranId>)
    requires Backed(g, gs, d) && d' <= d
    ensures Backed(g, gs, d')
  {}

  lemma KickBacked(g: Gate, issued: set<TranId>, gs: GameId, d: set<TranId>, t: TranId, a: Account)
    requires GateInv(g, issued) && gs in g.active && Backed(g, gs, d)
    ensures var (h, post) := KickUser(g, t, a); Backed(h, gs, PostEffect(d, gs, post))
  {
    var (h, post) := KickUser(g, t, a);
    var d' := PostEffect(d, gs, post);
    if t in d {
      assert Owned(g, gs, t);
    }
    FewerBacked(g, gs, d, d');
    SameOwners(g, h, gs, d');
  }

  /** Rebinding session p from an id unknown at gs to t leaves everything else owned, and t too if it is bound to gs. */
  lemma RebindBacked(g: Gate, h: Gate, gs: GameId, d: set<TranId>, p: nat, t: TranId)
    requires Backed(g, gs, d) && p < |g.users| && g.users[p].tran !in d
    requires |h.users| == |g.users| && h.users == g.users[p := h.users[p]]
    requires Holds(h.users[p], t) && h.recon == g.recon - {t} && (t in g.recon ==> h.users[p].game == g.recon[t])
    ensures Backed(h, gs, d) && (h.users[p].game == gs ==> Backed(h, gs, d + {t}))
  {
    forall x | x in d
      ensures Owned(h, gs, x)
    {
      assert Owned(g, gs, x);
      if x in g.recon && g.recon[x] == gs {
        assert x != t || Holds(h.users[p], x);
      } else {
        var i :| 0 <= i < |g.users| && Holds(g.users[i], x) && g.users[i].game == gs;
        assert h.users[i] == g.users[i];
      }
    }
  }

  /** The id that is let go of has no owner left. */
  lemma RebindLoses(g: Gate, issued: set<TranId>, h: Gate, gs: GameId, p: nat, t: TranId)
    requires GateInv(g, issued) && p < |g.users| && g.users[p].tran != INVALID_TRANS_ID && t != g.users[p].tran
    requires |h.users| == |g.users| && h.users == g.users[p := h.users[p]]
    requires h.users[p].tran == t && h.recon.Keys <= g.recon.Keys
    ensures !Owned(h, gs, g.users[p].tran)
  {}

  lemma LoginShape(g: Gate, issued: set<TranId>, p: nat, t: TranId, idle: Option<GameId>)
    requires GateInv(g, issued) && p < |g.users| && LoginAccepted(g, p, t, idle)
    ensures var (h, post) := Login(g, p, t, idle);
      && |h.users| == |g.users| && h.users == g.users[p := h.users[p]] && Holds(h.users[p], t)
      && h.recon == g.recon - {t} && (t in g.recon ==> h.users[p].game == g.recon[t])
      && g.users[p].tran != t
      && (post == Nothing || (post.Post? && post.game == h.users[p].game && post.message.Add? && post.message.t == t))
  {}

  /** A login keeps everything owned exactly when the session does not hold an id known at the game server. */
  lemma LoginBackedIff(g: Gate, issued: set<TranId>, gs: GameId, d: set<TranId>, p: nat, t: TranId, idle: Option<GameId>)
    requires GateInv(g, issued) && gs in g.active && Backed(g, gs, d)
    requires Enabled(g, issued, LoginAs(p, t, idle))
    ensures var (h, post) := Login(g, p, t, idle);
      Backed(h, gs, PostEffect(d, gs, post)) <==> !Rebinds(g, d, LoginAs(p, t, idle))
  {
    var (h, post) := Login(g, p, t, idle);
    var d' := PostEffect(d, gs, post);
    if LoginAccepted(g, p, t, idle) {
      LoginShape(g, issued, p, t, idle);
      var held := g.users[p].tran;
      if held in d {
        NobodyIsNotOwned(g, issued, gs);
        assert Owned(g, gs, held) && held in d';
        hide Owned, Login;
        RebindLoses(g, issued, h, gs, p, t);
      } else {
        hide GateInv, Owned, Login;
        RebindBacked(g, h, gs, d, p, t);
      }
    } else {
      SameOwners(g, h, gs, d);
    }
  }

  lemma CloseBacked(g: Gate, issued: set<TranId>, gs: GameId, d: set<TranId>, p: nat)
    requires GateInv(g, issued) && gs in g.active && Backed(g, gs, d) && p < |g.users|
    ensures var (h, post) := Close(g, p); Backed(h, gs, PostEffect(d, gs, post))
  {
    var (h, post) := Close(g, p);
    var d' := PostEffect(d, gs, post);
    forall x | x in d'
      ensures Owned(h, gs, x)
    {
      assert x in d && Owned(g, gs, x);
      if !(x in g.recon && g.recon[x] == gs) {
        var i :| 0 <= i < |g.users| && Holds(g.users[i], x) && g.users[i].game == gs;
        if i != p {
          assert Holds(h.users[i], x) && h.users[i].game == gs;
        }
      }
    }
  }

  lemma ExpireBacked(g: Gate, issued: set<TranId>, gs: GameId, d: set<TranId>, t: TranId)
    requires GateInv(g, issued) && gs in g.active && Backed(g, gs, d)
    ensures Backed(ExpireWait(g, t), gs, d)
    ensures var (h, post) := ExpireReconnect(g, t); Backed(h, gs, PostEffect(d, gs, post))
  {
    var (h, post) := ExpireReconnect(g, t);
    var d' := PostEffect(d, gs, post);
    SameOwners(g, ExpireWait(g, t), gs, d);
    if t in d && t in g.recon {
      assert Owned(g, gs, t);
    }
    FewerBacked(g, gs, d, d');
    SameOwners(g, h, gs, d');
  }

  predicate AboutLinks(e: Event) {
    e.Down? || e.Up?
  }

  /** Exactly one kind of step lets go of an id that a game server still knows: a login of the session that holds it.
      Every other step takes the id over, parks it, or removes it there. */
  lemma StepKeepsBackedIff(g: Gate, issued: set<TranId>, gs: GameId, d: set<TranId>, e: Event)
    requires GateInv(g, issued) && Enabled(g, issued, e) && !AboutLinks(e)
    requires gs in g.active && Backed(g, gs, d)
    ensures var (h, post) := Step(g, e); Backed(h, gs, PostEffect(d, gs, post)) <==> !Rebinds(g, d, e)
  {
    hide Backed;
    match e
    case Announce(t, a) =>
      assert t !in g.onlines;
      SameOwners(g, Step(g, e).0, gs, d);
    case Kick(t, a) => KickBacked(g, issued, gs, d, t, a);
    case Accepted(p) => SameOwners(g, Step(g, e).0, gs, d);
    case LoginAs(p, t, idle) => LoginBackedIff(g, issued, gs, d, p, t, idle);
    case Closed(p) => CloseBacked(g, issued, gs, d, p);
    case FireWait(t) => ExpireBacked(g, issued, gs, d, t);
    case FireReconnect(t) => ExpireBacked(g, issued, gs, d, t);
  }

  /** Only link events change which game servers are active, and messages go to active ones. */
  lemma StepKeepsActive(g: Gate, issued: set<TranId>, e: Event)
    requires GateInv(g, issued) && Enabled(g, issued, e) && !AboutLinks(e)
    ensures var (h, post) := Step(g, e); h.active == g.active && (post.Post? ==> post.game in g.active)
  {
    hide Issued, HeldOnce, Disjoint, FreeWhileParked, AccountsDistinct, UserOk, Login, Close;
    match e
    case LoginAs(p, t, idle) => LoginKeepsActive(g, p, t, idle);
    case Closed(p) => CloseKeepsActive(g, p);
    case _ =>
  }

  lemma LoginKeepsActive(g: Gate, p: nat, t: TranId, idle: Option<GameId>)
    requires p < |g.users|
    ensures var (h, post) := Login(g, p, t, idle); h.active == g.active && (post.Post? ==> post.game in g.active)
  {}

  lemma CloseKeepsActive(g: Gate, p: nat)
    requires p < |g.users|
    ensures var (h, post) := Close(g, p); h.active == g.active && (post.Post? ==> post.game in g.active)
  {}

  /** Links of other game servers do not matter. */
  lemma DownBacked(g: Gate, issued: set<TranId>, gs: GameId, d: set<TranId>, other: GameId)
    requires GateInv(g, issued) && Backed(g, gs, d) && gs != other
    ensures Backed(LinkDown(g, other), gs, d)
  {
    if other in g.active {
      var h := LinkDown(g, other);
      SameIds(g, h, other);
      forall x | x in d
        ensures Owned(h, gs, x)
      {
        assert Owned(g, gs, x);
        if !(x in g.recon && g.recon[x] == gs) {
          var i :| 0 <= i < |g.users| && Holds(g.users[i], x) && g.users[i].game == gs;
          assert Holds(h.users[i], x) && h.users[i].game == gs;
        }
      }
    }
  }
}
