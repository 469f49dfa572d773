/** Who gets into a gate: what a login, a kick, a close, a timer and a lost link do to the user they concern, and that a
    user who was turned away or kicked stays out. */
module Admission {
  import opened Bytes
  import opened GateModel
  import opened GateProofs
  import opened Accounts

  // ---------- logins ----------

  /** A refused client is sent off: its session waits to be closed and keeps the ids it had, the id it asked for is no
      longer awaited, nobody else is affected and nothing is posted. */
  lemma RefusedLogin(g: Gate, p: nat, t: TranId, idle: Option<GameId>)
    requires p < |g.users| && g.users[p].state != Connected && !LoginAccepted(g, p, t, idle)
    ensures var u := g.users[p]; var (h, post) := Login(g, p, t, idle);
      && post == Nothing && t !in h.waiting
      && h == g.(users := g.users[p := User(WaitClose, u.tran, u.game)], waiting := g.waiting - {t})
  {}

  /** A connected session is left alone, whatever it sends. */
  lemma ConnectedLogin(g: Gate, p: nat, t: TranId, idle: Option<GameId>)
    requires p < |g.users| && g.users[p].state == Connected
    ensures Login(g, p, t, idle) == (g, Nothing)
  {}

  /** An accepted user is online on this session and nowhere else. A new one plays on the idle game server, which is told
      the id and the account it was announced with; one that comes back plays where it did, and nobody is told. */
  lemma AcceptedLogin(g: Gate, issued: set<TranId>, p: nat, t: TranId, idle: Option<GameId>)
    requires GateInv(g, issued) && Enabled(g, issued, LoginAs(p, t, idle)) && LoginAccepted(g, p, t, idle)
    ensures var (h, post) := Login(g, p, t, idle);
      var gs := if t in g.waiting then idle.value else g.recon[t];
      && h.users == g.users[p := User(Connected, t, gs)] && h.onlines == g.onlines[t := p]
      && h.waiting == g.waiting - {t} && h.recon == g.recon - {t}
      && (t in g.waiting ==> g.waiting[t] in h.accounts && post == Post(gs, Add(t, g.waiting[t])))
      && (t in g.recon ==> h.accounts == g.accounts && post == Nothing)
      && h.active == g.active && h.timers == g.timers && h.closeAsked == g.closeAsked
  {
    assert t in g.recon ==> t !in g.waiting && g.waiting - {t} == g.waiting;
    assert t in g.waiting ==> g.recon - {t} == g.recon;
    hide HeldOnce, FreeWhileParked, AccountsDistinct, Issued;
  }

  /** No login under t is accepted, on whatever session and with whatever idle game server. */
  ghost predicate ShutOut(g: Gate, t: TranId) {
    forall p: nat, idle :: p < |g.users| ==> !LoginAccepted(g, p, t, idle)
  }

  lemma NeitherWay(g: Gate, t: TranId)
    requires t !in g.waiting && t !in g.recon
    ensures ShutOut(g, t)
  {}

  /** The close of a session that still plays parks its id. */
  predicate Parks(g: Gate, e: Event, t: TranId) {
    && e.Closed? && e.p < |g.users|
    && g.users[e.p].state == Connected && g.users[e.p].tran == t && g.users[e.p].game in g.active
  }

  /** Which timer a step starts, and which one it spends. */
  function Started(g: Gate, e: Event): multiset<Timer>
    requires e.Closed? ==> e.p < |g.users|
  {
    match e
    case Announce(t, a) => multiset{WaitExpiry(t)}
    case Closed(p) => multiset{ReconnectExpiry(g.users[p].tran)}
    case _ => multiset{}
  }

  function Spent(e: Event): multiset<Timer> {
    match e
    case FireWait(t) => multiset{WaitExpiry(t)}
    case FireReconnect(t) => multiset{ReconnectExpiry(t)}
    case _ => multiset{}
  }

  // ---------- what a step leaves: the two maps, the timers, the ids sessions hold ----------

  lemma LoginLeaves(g: Gate, p: nat, t: TranId, idle: Option<GameId>)
    requires p < |g.users|
    ensures var h := Login(g, p, t, idle).0;
      && h.timers == g.timers && h.waiting.Keys <= g.waiting.Keys && h.recon.Keys <= g.recon.Keys && |h.users| == |g.users|
      && forall i :: 0 <= i < |g.users| ==> h.users[i].tran == g.users[i].tran || (h.users[i].tran == t && (t in g.waiting || t in g.recon))
  {}

  lemma KickLeaves(g: Gate, issued: set<TranId>, t: TranId, a: Account)
    requires GateInv(g, issued)
    ensures var h := KickUser(g, t, a).0;
      h.timers == g.timers && h.waiting.Keys <= g.waiting.Keys && h.recon.Keys <= g.recon.Keys && h.users == g.users
  {
    hide HeldOnce, FreeWhileParked, AccountsDistinct, Issued, Disjoint, UserOk;
  }

  lemma CloseLeaves(g: Gate, p: nat)
    requires p < |g.users|
    ensures var u := g.users[p]; var h := Close(g, p).0;
      && h.timers == g.timers + multiset{ReconnectExpiry(u.tran)} && h.waiting == g.waiting
      && (forall t :: t in h.recon <==> t in g.recon || Parks(g, Closed(p), t))
      && |h.users| == |g.users| && forall i :: 0 <= i < |g.users| ==> h.users[i].tran == g.users[i].tran || h.users[i].tran == INVALID_TRANS_ID
  {}

  lemma LinksLeave(g: Gate, gs: GameId)
    ensures LinkUp(g, gs) == g.(active := LinkUp(g, gs).active)
    ensures var h := LinkDown(g, gs);
      && h.timers == g.timers && h.waiting == g.waiting && h.recon.Keys <= g.recon.Keys
      && |h.users| == |g.users| && forall i :: 0 <= i < |g.users| ==> h.users[i].tran == g.users[i].tran
  {
    if gs in g.active {
      SameIds(g, LinkDown(g, gs), gs);
    }
  }

  lemma AnnounceLeaves(g: Gate, issued: set<TranId>, t: TranId, a: Account)
    requires GateInv(g, issued) && t !in issued
    ensures AddToWait(g, t, a).0 == g.(waiting := g.waiting[t := a], timers := g.timers + multiset{WaitExpiry(t)})
  {
    assert t !in g.onlines && t !in g.waiting;
  }

  /** Timers are neither lost nor doubled. */
  lemma StepTimers(g: Gate, issued: set<TranId>, e: Event)
    requires GateInv(g, issued) && Enabled(g, issued, e)
    ensures Step(g, e).0.timers + Spent(e) == g.timers + Started(g, e)
  {
    hide GateInv, Login, Close, KickUser, LinkDown, LinkUp, AddToWait;
    match e
    case Announce(x, a) => AnnounceLeaves(g, issued, x, a);
    case Kick(x, a) => KickLeaves(g, issued, x, a);
    case LoginAs(p, x, idle) => LoginLeaves(g, p, x, idle);
    case Closed(p) => CloseLeaves(g, p);
    case Down(gs) => LinksLeave(g, gs);
    case Up(gs) => LinksLeave(g, gs);
    case _ =>
  }

  /** What becomes of one id in one step. */
  lemma StepLeaves(g: Gate, issued: set<TranId>, e: Event, t: TranId)
    requires GateInv(g, issued) && Enabled(g, issued, e)
    ensures var h := Step(g, e).0;
      && (t in h.waiting ==> (t in g.waiting && e != FireWait(t)) || (e.Announce? && e.t == t))
      && (t in h.recon ==> (t in g.recon && e != FireReconnect(t)) || Parks(g, e, t))
      && (Parks(g, e, t) ==> t in h.recon)
  {
    hide GateInv, Login, Close, KickUser, LinkDown, LinkUp, AddToWait;
    match e
    case Announce(x, a) => AnnounceLeaves(g, issued, x, a);
    case Kick(x, a) => KickLeaves(g, issued, x, a);
    case LoginAs(p, x, idle) => LoginLeaves(g, p, x, idle);
    case Closed(p) => CloseLeaves(g, p);
    case Down(gs) => LinksLeave(g, gs);
    case Up(gs) => LinksLeave(g, gs);
    case _ =>
  }

  /** A session comes to hold an id by a login under it only. */
  lemma StepHolds(g: Gate, issued: set<TranId>, e: Event, t: TranId)
    requires GateInv(g, issued) && Enabled(g, issued, e) && t != INVALID_TRANS_ID
    ensures var h := Step(g, e).0;
      && |h.users| == |g.users|
      && forall i :: 0 <= i < |h.users| && h.users[i].tran == t ==> g.users[i].tran == t || t in g.waiting || t in g.recon
  {
    hide GateInv, Login, Close, KickUser, LinkDown, LinkUp, AddToWait;
    match e
    case Announce(x, a) => AnnounceLeaves(g, issued, x, a);
    case Kick(x, a) => KickLeaves(g, issued, x, a);
    case LoginAs(p, x, idle) => LoginLeaves(g, p, x, idle);
    case Closed(p) => CloseLeaves(g, p);
    case Down(gs) => LinksLeave(g, gs);
    case Up(gs) => LinksLeave(g, gs);
    case _ =>
  }

  // ---------- kicks ----------

  /** A kick reaches the user wherever it is: it is neither online, nor awaited, nor parked afterwards, so that no login
      under its id is accepted; a session it was online on is told to close. All other ids stay as they were. */
  lemma KickReaches(g: Gate, issued: set<TranId>, t: TranId, a: Account)
    requires GateInv(g, issued)
    ensures var h := KickUser(g, t, a).0;
      && t !in h.onlines && t !in h.waiting && t !in h.recon && ShutOut(h, t)
      && h.closeAsked == (if t in g.onlines then g.closeAsked + {g.onlines[t]} else g.closeAsked)
      && h.onlines == g.onlines - {t} && h.waiting == g.waiting - {t} && h.recon == g.recon - {t}
      && h.users == g.users && h.active == g.active && h.timers == g.timers
  {
    var h := KickUser(g, t, a).0;
    assert t !in g.onlines ==> g.onlines - {t} == g.onlines;
    assert t !in g.waiting ==> g.waiting - {t} == g.waiting;
    assert t !in g.recon ==> g.recon - {t} == g.recon;
    hide HeldOnce, FreeWhileParked, AccountsDistinct, Issued, Tidy;
    NeitherWay(h, t);
  }

  /** One step: an id that was issued and is neither awaited nor parked becomes so again by one step only. */
  lemma WayBackIff(g: Gate, issued: set<TranId>, t: TranId, e: Event)
    requires GateInv(g, issued) && Enabled(g, issued, e) && t in issued && t !in g.waiting && t !in g.recon
    ensures var h := Step(g, e).0; t !in h.waiting && (t in h.recon <==> Parks(g, e, t))
  {
    StepLeaves(g, issued, e, t);
    hide GateInv, Step;
  }

  predicate GateRuns(g: Gate, issued: set<TranId>, es: seq<Event>)
    requires GateInv(g, issued)
    decreases |es|
  {
    es == [] || (Enabled(g, issued, es[0]) && GateRuns(After(g, issued, es[0]), IssuedAfter(issued, es[0]), es[1..]))
  }

  function After(g: Gate, issued: set<TranId>, e: Event): (h: Gate)
    requires GateInv(g, issued) && Enabled(g, issued, e)
    ensures GateInv(h, IssuedAfter(issued, e))
  {
    StepKeepsTokens(g, issued, e);
    Step(g, e).0
  }

  function Exec(g: Gate, issued: set<TranId>, es: seq<Event>): Gate
    requires GateInv(g, issued) && GateRuns(g, issued, es)
    decreases |es|
  {
    if es == [] then g else Exec(After(g, issued, es[0]), IssuedAfter(issued, es[0]), es[1..])
  }

  /** No step of the run parks t. */
  predicate NeverParks(g: Gate, issued: set<TranId>, es: seq<Event>, t: TranId)
    requires GateInv(g, issued) && GateRuns(g, issued, es)
    decreases |es|
  {
    es == [] || (!Parks(g, es[0], t) && NeverParks(After(g, issued, es[0]), IssuedAfter(issued, es[0]), es[1..], t))
  }

  lemma {:induction false} StaysOut(g: Gate, issued: set<TranId>, es: seq<Event>, t: TranId)
    requires GateInv(g, issued) && GateRuns(g, issued, es) && NeverParks(g, issued, es, t)
    requires t in issued && t !in g.waiting && t !in g.recon
    ensures var h := Exec(g, issued, es); t !in h.waiting && t !in h.recon
    decreases |es|
  {
    if es != [] {
      WayBackIff(g, issued, t, es[0]);
      hide GateInv, Enabled, Step, Parks;
      StaysOut(After(g, issued, es[0]), IssuedAfter(issued, es[0]), es[1..], t);
    }
  }

  /** A kicked user stays out: after any further run in which no close parks its id, no login under it is accepted. */
  lemma KickedStaysOut(g: Gate, issued: set<TranId>, t: TranId, a: Account, es: seq<Event>)
    requires GateInv(g, issued) && t in issued
    requires GateRuns(After(g, issued, Kick(t, a)), issued, es)
    requires NeverParks(After(g, issued, Kick(t, a)), issued, es, t)
    ensures ShutOut(Exec(After(g, issued, Kick(t, a)), issued, es), t)
  {
    KickReaches(g, issued, t, a);
    hide GateInv, GateRuns, NeverParks, Exec, KickUser, ShutOut;
    var h := After(g, issued, Kick(t, a));
    StaysOut(h, issued, es, t);
    NeitherWay(Exec(h, issued, es), t);
  }

  /** Nobody holds t and there is no way in for it. */
  predicate Gone(g: Gate, t: TranId) {
    t !in g.waiting && t !in g.recon && forall i :: 0 <= i < |g.users| ==> g.users[i].tran != t
  }

  /** A kick settles the matter at once exactly when no session holds the id. */
  lemma KickedIsGoneIff(g: Gate, issued: set<TranId>, t: TranId, a: Account)
    requires GateInv(g, issued)
    ensures Gone(KickUser(g, t, a).0, t) <==> forall i :: 0 <= i < |g.users| ==> g.users[i].tran != t
  {
    KickReaches(g, issued, t, a);
    hide GateInv, KickUser;
  }

  lemma GoneStep(g: Gate, issued: set<TranId>, t: TranId, e: Event)
    requires GateInv(g, issued) && Enabled(g, issued, e) && t in issued && Gone(g, t)
    ensures Gone(Step(g, e).0, t)
  {
    NotNobody(g, issued, t);
    StepHolds(g, issued, e, t);
    WayBackIff(g, issued, t, e);
    hide GateInv, Step;
  }

  lemma NotNobody(g: Gate, issued: set<TranId>, t: TranId)
    requires GateInv(g, issued) && t in issued
    ensures t != INVALID_TRANS_ID
  {}

  /** Ids are used once: one that is gone never comes back, over all runs. */
  lemma {:induction false} GoneForGood(g: Gate, issued: set<TranId>, t: TranId, es: seq<Event>)
    requires GateInv(g, issued) && t in issued && Gone(g, t) && GateRuns(g, issued, es)
    ensures Gone(Exec(g, issued, es), t) && ShutOut(Exec(g, issued, es), t)
    decreases |es|
  {
    if es == [] {
      NeitherWay(g, t);
    } else {
      GoneStep(g, issued, t, es[0]);
      hide GateInv, Enabled, Step, Gone, ShutOut;
      GoneForGood(After(g, issued, es[0]), IssuedAfter(issued, es[0]), t, es[1..]);
    }
  }

  // ---------- announcements to the game servers ----------

  /** How many of a step's messages announce t to a game server. */
  function Adds(post: Post, t: TranId): nat {
    if post.Post? && post.message.Add? && post.message.t == t then 1 else 0
  }

  function AddsAlong(g: Gate, issued: set<TranId>, es: seq<Event>, t: TranId): nat
    requires GateInv(g, issued) && GateRuns(g, issued, es)
    decreases |es|
  {
    if es == [] then 0
    else Adds(Step(g, es[0]).1, t) + AddsAlong(After(g, issued, es[0]), IssuedAfter(issued, es[0]), es[1..], t)
  }

  /** Announcing an id uses up its place in the wait map. */
  lemma AddsStep(g: Gate, issued: set<TranId>, t: TranId, e: Event)
    requires GateInv(g, issued) && Enabled(g, issued, e)
    ensures var (h, post) := Step(g, e);
      && (Adds(post, t) == 1 ==> t in g.waiting && t !in h.waiting && post.message.a == g.waiting[t])
      && (t in issued && t !in g.waiting ==> t !in h.waiting)
  {
    hide HeldOnce, FreeWhileParked, AccountsDistinct, UserOk, Disjoint;
  }

  /** Along every run a user is announced to a game server at most once, and never again once it is no longer awaited. */
  lemma {:induction false} AnnouncedOnce(g: Gate, issued: set<TranId>, es: seq<Event>, t: TranId)
    requires GateInv(g, issued) && GateRuns(g, issued, es)
    ensures AddsAlong(g, issued, es, t) <= 1
    ensures t in issued && t !in g.waiting ==> AddsAlong(g, issued, es, t) == 0
    decreases |es|
  {
    if es != [] {
      AddsStep(g, issued, t, es[0]);
      AwaitedIsIssued(g, issued, t);
      hide GateInv, Enabled, Step;
      AnnouncedOnce(After(g, issued, es[0]), IssuedAfter(issued, es[0]), es[1..], t);
    }
  }

  lemma AwaitedIsIssued(g: Gate, issued: set<TranId>, t: TranId)
    requires GateInv(g, issued)
    ensures t in g.waiting ==> t in issued
  {}

  // ---------- closes and lost links ----------

  /** A closed session is free again: it holds no ids and is not asked to close any more. Its user is no longer online; it
      is parked for its game server if it was playing there, and the game server told that it is offline; otherwise no
      account is recorded for it any more, and the game server, if active, told to remove it. */
  lemma CloseOutcome(g: Gate, issued: set<TranId>, p: nat)
    requires GateInv(g, issued) && p < |g.users|
    ensures var u := g.users[p]; var (h, post) := Close(g, p);
      && h.users == g.users[p := User(Disabled, 0, 0)] && h.closeAsked == g.closeAsked - {p}
      && h.onlines == g.onlines - {u.tran} && h.waiting == g.waiting && h.active == g.active
      && if Parks(g, Closed(p), u.tran)
         then h.recon == g.recon[u.tran := u.game] && h.accounts == g.accounts && post == Post(u.game, Offline(u.tran))
         else h.recon == g.recon && !Recorded(h, u.tran) && (if u.game in g.active then post == Post(u.game, Remove(u.tran)) else post == Nothing)
  {
    hide HeldOnce, AccountsDistinct, Issued;
  }

  /** A lost game server: its connected users that are online are told to leave, those who were kicked are not; nobody
      waits to reconnect to it. Sessions of other game servers are left alone. */
  lemma LostLinkOutcome(g: Gate, issued: set<TranId>, gs: GameId, i: nat)
    requires GateInv(g, issued) && gs in g.active && i < |g.users|
    ensures var u, h := g.users[i], LinkDown(g, gs);
      && |h.users| == |g.users| && gs !in h.active
      && (u.game != gs ==> h.users[i] == u)
      && (u.game == gs && u.tran in g.onlines && g.onlines[u.tran] == i ==> h.users[i] == User(WaitClose, u.tran, gs))
      && ((forall t :: t in g.onlines ==> g.onlines[t] != i) ==> h.users[i] == u)
      && forall t :: t in h.recon <==> t in g.recon && g.recon[t] != gs
  {
    hide HeldOnce, AccountsDistinct, Issued;
  }

  /** Game servers register under ids from 1 to 254. */
  lemma RegistersIff(g: Gate, gs: GameId)
    ensures LinkUp(g, gs).active == if 1 <= gs <= 254 then g.active + {gs} else g.active
  {}

  /** A session that is accepted by the server keeps what it held and waits for a login. */
  lemma AcceptOutcome(g: Gate, p: nat)
    requires p < |g.users|
    ensures Accept(g, p) == g.(users := g.users[p := User(WaitAccount, g.users[p].tran, g.users[p].game)])
  {}

  // ---------- announcements by the login server, and timers ----------

  /** An announced user is awaited, for as long as a timer runs; one that is still online is kicked first. */
  lemma AnnounceOutcome(g: Gate, t: TranId, a: Account)
    requires t in g.onlines ==> g.onlines[t] < |g.users|
    ensures var h := AddToWait(g, t, a).0;
      && h.waiting == (if t in g.waiting then g.waiting else g.waiting[t := a]) && t !in h.onlines
      && h.timers == g.timers + multiset{WaitExpiry(t)}
      && (t in g.onlines ==> g.onlines[t] in h.closeAsked && a !in h.accounts)
  {}

  /** When the wait timer fires the user is not awaited any more. */
  lemma ExpiredWait(g: Gate, t: TranId)
    ensures var h := ExpireWait(g, t); t !in h.waiting && (t !in g.recon ==> ShutOut(h, t))
    ensures forall x :: x != t ==> (x in ExpireWait(g, t).waiting <==> x in g.waiting)
  {}

  /** Every awaited and every parked id has a timer that will end it. */
  predicate Timed(g: Gate) {
    && (forall t :: t in g.waiting ==> WaitExpiry(t) in g.timers)
    && (forall t :: t in g.recon ==> ReconnectExpiry(t) in g.timers)
  }

  lemma IdKeepsTimer(g: Gate, issued: set<TranId>, e: Event, t: TranId)
    requires GateInv(g, issued) && Enabled(g, issued, e) && Timed(g)
    ensures var h := Step(g, e).0;
      && (t in h.waiting ==> WaitExpiry(t) in h.timers)
      && (t in h.recon ==> ReconnectExpiry(t) in h.timers)
  {
    var h := Step(g, e).0;
    StepLeaves(g, issued, e, t);
    StepTimers(g, issued, e);
    hide GateInv, Step;
    TimerLeft(g.timers, h.timers, Started(g, e), Spent(e), WaitExpiry(t));
    TimerLeft(g.timers, h.timers, Started(g, e), Spent(e), ReconnectExpiry(t));
  }

  /** Each step starts and spends its timers, and nobody is awaited or parked without one. */
  lemma StepKeepsTimed(g: Gate, issued: set<TranId>, e: Event)
    requires GateInv(g, issued) && Enabled(g, issued, e) && Timed(g)
    ensures var h := Step(g, e).0; h.timers + Spent(e) == g.timers + Started(g, e) && Timed(h)
  {
    StepTimers(g, issued, e);
    var h := Step(g, e).0;
    forall t
      ensures t in h.waiting ==> WaitExpiry(t) in h.timers
      ensures t in h.recon ==> ReconnectExpiry(t) in h.timers
    {
      IdKeepsTimer(g, issued, e, t);
    }
    hide GateInv, Step;
  }

  lemma TimerLeft(before: multiset<Timer>, after: multiset<Timer>, started: multiset<Timer>, spent: multiset<Timer>, x: Timer)
    requires after + spent == before + started
    ensures x !in spent && (x in before || x in started) ==> x in after
  {
    assert (after + spent)[x] == after[x] + spent[x];
  }

  lemma {:induction false} AlwaysTimed(g: Gate, issued: set<TranId>, es: seq<Event>)
    requires GateInv(g, issued) && GateRuns(g, issued, es) && Timed(g)
    ensures Timed(Exec(g, issued, es))
    decreases |es|
  {
    if es != [] {
      StepKeepsTimed(g, issued, es[0]);
      hide GateInv, Enabled, Step, Timed;
      AlwaysTimed(After(g, issued, es[0]), IssuedAfter(issued, es[0]), es[1..]);
    }
  }
}
