/** Which online users the gate still knows the account of (m_onlineaccs of user_manager.cpp). */
module Accounts {
  import opened Bytes
  import opened GateModel
  import opened GateProofs

  /** Some account is recorded for the id. */
  predicate Recorded(g: Gate, t: TranId) {
    exists a :: a in g.accounts && g.accounts[a] == t
  }

  /** Every online user's account is recorded. */
  predicate Covers(g: Gate) {
    forall t :: t in g.onlines ==> Recorded(g, t)
  }

  /** The account entry names a user who is online, other than t. */
  predicate NamesOther(g: Gate, a: Account, t: TranId) {
    a in g.accounts && g.accounts[a] != t && g.accounts[a] in g.onlines
  }

  /** A kick that takes another online user's account entry away. */
  predicate KickLoses(g: Gate, t: TranId, a: Account) {
    if t in g.onlines then NamesOther(g, a, t)
    else t in g.waiting && g.waiting[t] != INVALID_ACCOUNT && NamesOther(g, g.waiting[t], t)
  }

  /** A login whose account is still taken by an earlier id, or a return of an id whose account was lost meanwhile. */
  predicate LoginLoses(g: Gate, p: nat, t: TranId, idle: Option<GameId>)
    requires p < |g.users|
  {
    LoginAccepted(g, p, t, idle) && if t in g.waiting then g.waiting[t] in g.accounts else !Recorded(g, t)
  }

  /** The steps after which some online user's account is no longer recorded. */
  predicate Loses(g: Gate, e: Event)
    requires e.LoginAs? ==> e.p < |g.users|
  {
    match e
    case Kick(t, a) => KickLoses(g, t, a)
    case LoginAs(p, t, idle) => LoginLoses(g, p, t, idle)
    case FireReconnect(t) => t in g.onlines
    case _ => false
  }

  lemma ErasedAccount(g: Gate, h: Gate, a: Account, t: TranId)
    requires AccountsDistinct(g) && Covers(g)
    requires h.accounts == g.accounts - {a} && h.onlines == g.onlines - {t}
    ensures Covers(h) <==> !NamesOther(g, a, t)
  {
    if NamesOther(g, a, t) {
      var x := g.accounts[a];
      assert x in h.onlines && !Recorded(h, x);
    } else {
      forall x | x in h.onlines
        ensures Recorded(h, x)
      {
        assert Recorded(g, x);
        var b :| b in g.accounts && g.accounts[b] == x;
        assert b != a && b in h.accounts && h.accounts[b] == x;
      }
    }
  }

  lemma KickCovers(g: Gate, issued: set<TranId>, t: TranId, a: Account)
    requires GateInv(g, issued) && Covers(g)
    ensures Covers(KickUser(g, t, a).0) <==> !KickLoses(g, t, a)
  {
    var h := KickUser(g, t, a).0;
    if t in g.onlines {
      ErasedAccount(g, h, a, t);
    } else {
      assert g.onlines - {t} == g.onlines;
      if t in g.waiting && g.waiting[t] != INVALID_ACCOUNT {
        ErasedAccount(g, h, g.waiting[t], t);
      } else {
        SameAccounts(g, h);
      }
    }
  }

  lemma SameAccounts(g: Gate, h: Gate)
    requires Covers(g) && h.accounts == g.accounts && h.onlines.Keys <= g.onlines.Keys
    ensures Covers(h)
  {
    forall x | x in h.onlines
      ensures Recorded(h, x)
    {
      assert Recorded(g, x);
    }
  }

  lemma LoginCovers(g: Gate, issued: set<TranId>, p: nat, t: TranId, idle: Option<GameId>)
    requires GateInv(g, issued) && Covers(g) && Enabled(g, issued, LoginAs(p, t, idle))
    ensures Covers(Login(g, p, t, idle).0) <==> !LoginLoses(g, p, t, idle)
  {
    var h := Login(g, p, t, idle).0;
    if !LoginAccepted(g, p, t, idle) {
      SameAccounts(g, h);
    } else {
      assert t in h.onlines && h.onlines.Keys == g.onlines.Keys + {t};
      assert t in g.waiting ==> !Recorded(g, t);
      Entered(g, h, t);
      hide GateInv, Login;
    }
  }

  /** t comes online, and its account is recorded unless it was taken. */
  lemma Entered(g: Gate, h: Gate, t: TranId)
    requires Covers(g) && h.onlines.Keys == g.onlines.Keys + {t}
    requires t in g.waiting ==> h.accounts == AddData(g.accounts, g.waiting[t], t) && !Recorded(g, t)
    requires t !in g.waiting ==> h.accounts == g.accounts
    ensures Covers(h) <==> (if t in g.waiting then g.waiting[t] !in g.accounts else Recorded(g, t))
  {
    forall x | x in g.onlines
      ensures Recorded(h, x)
    {
      assert Recorded(g, x);
      var a :| a in g.accounts && g.accounts[a] == x;
      assert a in h.accounts && h.accounts[a] == x;
    }
    if t in g.waiting {
      var v := g.waiting[t];
      if v in g.accounts {
        assert h.accounts == g.accounts && !Recorded(h, t);
      } else {
        assert v in h.accounts && h.accounts[v] == t;
      }
    } else {
      assert Recorded(h, t) <==> Recorded(g, t);
    }
    assert t in h.onlines;
  }

  lemma ErasedId(g: Gate, h: Gate, t: TranId)
    requires Covers(g) && h.accounts == EraseValue(g.accounts, t) && h.onlines.Keys <= g.onlines.Keys
    ensures Covers(h) <==> t !in h.onlines
  {
    assert !Recorded(h, t);
    forall x | x in h.onlines && x != t
      ensures Recorded(h, x)
    {
      assert Recorded(g, x);
      var a :| a in g.accounts && g.accounts[a] == x;
      assert a in h.accounts;
    }
  }

  lemma CloseCovers(g: Gate, issued: set<TranId>, p: nat)
    requires GateInv(g, issued) && Covers(g) && p < |g.users|
    ensures Covers(Close(g, p).0)
  {
    var h := Close(g, p).0;
    if g.users[p].game in g.active && g.users[p].state == Connected {
      SameAccounts(g, h);
    } else {
      ErasedId(g, h, g.users[p].tran);
    }
  }

  /** The exact condition: while every online user's account is recorded, a step keeps it so if and only if it is not a
      kick that names or awaits an account recorded for another online user, not a login whose account is still
      recorded for an earlier id, not the return of an id whose account was lost, and not a reconnect timer that fires
      for a user who has come back. */
  lemma AccountsStayKnownIff(g: Gate, issued: set<TranId>, e: Event)
    requires GateInv(g, issued) && Covers(g) && Enabled(g, issued, e)
    ensures Covers(GateProofs.Step(g, e).0) <==> !Loses(g, e)
  {
    match e
    case Announce(t, a) => SameAccounts(g, GateProofs.Step(g, e).0);
    case Kick(t, a) => KickCovers(g, issued, t, a);
    case Accepted(p) => SameAccounts(g, GateProofs.Step(g, e).0);
    case LoginAs(p, t, idle) => LoginCovers(g, issued, p, t, idle);
    case Closed(p) => CloseCovers(g, issued, p);
    case FireWait(t) => SameAccounts(g, GateProofs.Step(g, e).0);
    case FireReconnect(t) => ErasedId(g, GateProofs.Step(g, e).0, t);
    case Down(gs) => SameAccounts(g, GateProofs.Step(g, e).0);
    case Up(gs) => SameAccounts(g, GateProofs.Step(g, e).0);
  }

  /** A user who drops and logs in again through the login server is not recorded: the login server kicks the old id, the
      kick leaves the old account entry, and the entry of the new id does not replace it. */
  lemma DropAndReturn(g: Gate, issued: set<TranId>, p: nat, q: nat, t: TranId, a: Account, u: TranId, gs: GameId)
    requires GateInv(g, issued) && p < |g.users| && q < |g.users| && q != p
    requires g.users[p].state == Connected && g.users[p].tran == t && g.users[p].game in g.active
    requires a in g.accounts && g.accounts[a] == t
    requires g.users[q].state != Connected && gs in g.active && u !in issued && u != INVALID_TRANS_ID
    ensures var g1 := Close(g, p).0;
      var g2 := KickUser(g1, t, a).0;
      var g3 := AddToWait(g2, u, a).0;
      var g4 := Login(g3, q, u, Some(gs)).0;
      && t in g1.recon && t !in g1.onlines && t !in g2.recon && Loses(g3, LoginAs(q, u, Some(gs)))
      && u in g4.onlines && g4.users[q] == User(Connected, u, gs) && !Recorded(g4, u)
  {
    var g3 := AddToWait(KickUser(Close(g, p).0, t, a).0, u, a).0;
    assert t !in g.waiting && u !in g.onlines && u !in g.recon && u !in g.waiting;
    assert g3.accounts == g.accounts && g3.waiting[u] == a;
  }

  /** The account of a user who came back in time is still recorded, until the timer started by the earlier close fires. */
  lemma StaleTimerForgetsAccount(g: Gate, issued: set<TranId>, p: nat, q: nat, idle: Option<GameId>)
    requires GateInv(g, issued) && p < |g.users| && q < |g.users|
    requires g.users[p].state == Connected && g.users[p].game in g.active && g.users[q].state == WaitAccount
    requires Recorded(g, g.users[p].tran)
    ensures var t := g.users[p].tran;
      var back := Login(Close(g, p).0, q, t, idle).0;
      var fired := ExpireReconnect(back, t).0;
      && back.users[q] == User(Connected, t, g.users[p].game) && t in back.onlines && Recorded(back, t)
      && ReconnectExpiry(t) in back.timers && Loses(back, FireReconnect(t))
      && fired.users == back.users && fired.onlines == back.onlines && !Recorded(fired, t)
  {
    var t := g.users[p].tran;
    var a :| a in g.accounts && g.accounts[a] == t;
    assert Close(g, p).0.accounts == g.accounts;
  }
}
