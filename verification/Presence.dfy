/** The link the other way round: users the gate counts as playing on a game server are known there, unless kicked. */
module Presence {
  import opened Bytes
  import opened GateModel
  import opened GameModel
  import opened GateProofs
  import opened Cluster

  /** A connected session plays under t on gs, or t waits to reconnect to it. */
  predicate Bound(g: Gate, gs: GameId, t: TranId) {
    || (t in g.recon && g.recon[t] == gs)
    || exists i :: 0 <= i < |g.users| && g.users[i].state == Connected && g.users[i].tran == t && g.users[i].game == gs
  }

  /** All ids bound to gs are among d, or were kicked. */
  ghost predicate Present(g: Gate, gs: GameId, d: set<TranId>, kicked: set<TranId>) {
    forall t :: Bound(g, gs, t) && t !in kicked ==> t in d
  }

  /** A connected session is in the online map, unless its id was kicked. */
  predicate Listed(g: Gate, kicked: set<TranId>) {
    forall i :: 0 <= i < |g.users| && g.users[i].state == Connected && g.users[i].tran !in kicked ==>
      g.users[i].tran in g.onlines && g.onlines[g.users[i].tran] == i
  }

  function KickedAfter(kicked: set<TranId>, e: Event): set<TranId> {
    if e.Kick? then kicked + {e.t} else kicked
  }

  // ---------- the gate ----------

  /** What is bound to gs after a login was bound before, or is the id that logged in there. */
  lemma LoginBinds(g: Gate, issued: set<TranId>, gs: GameId, p: nat, t: TranId, idle: Option<GameId>, x: TranId)
    requires GateInv(g, issued) && Enabled(g, issued, LoginAs(p, t, idle)) && Bound(Login(g, p, t, idle).0, gs, x)
    ensures var post := Login(g, p, t, idle).1;
      Bound(g, gs, x) || (gs in g.active && post.Post? && post.game == gs && post.message.Add? && post.message.t == x)
  {
    var (h, post) := Login(g, p, t, idle);
    if LoginAccepted(g, p, t, idle) {
      LoginShape(g, issued, p, t, idle);
      LoginAnnounces(g, p, t, idle);
      if t !in g.waiting {
        Returns(g, gs, p, t, idle);
      }
      hide GateInv, Enabled, Login, LoginAccepted;
      if !(x in h.recon && h.recon[x] == gs) {
        var i :| 0 <= i < |h.users| && h.users[i].state == Connected && h.users[i].tran == x && h.users[i].game == gs;
        assert i != p ==> h.users[i] == g.users[i];
      }
    } else {
      hide GateInv;
      assert SetState(g.users[p], WaitClose).state != Connected;
    }
  }

  /** The new user's game server is told, unless the user comes back to it. */
  lemma LoginAnnounces(g: Gate, p: nat, t: TranId, idle: Option<GameId>)
    requires p < |g.users| && LoginAccepted(g, p, t, idle) && (idle.Some? ==> idle.value in g.active)
    ensures var (h, post) := Login(g, p, t, idle);
      t !in g.waiting || (post.Post? && post.game == h.users[p].game && post.game in g.active && post.message.Add? && post.message.t == t)
    ensures t !in g.waiting ==> t in g.recon
  {}

  lemma Returns(g: Gate, gs: GameId, p: nat, t: TranId, idle: Option<GameId>)
    requires p < |g.users| && LoginAccepted(g, p, t, idle) && t !in g.waiting
    ensures Login(g, p, t, idle).0.users[p].game == gs ==> Bound(g, gs, t)
  {}

  lemma LoginPresent(g: Gate, issued: set<TranId>, gs: GameId, d: set<TranId>, kicked: set<TranId>, p: nat, t: TranId, idle: Option<GameId>)
    requires GateInv(g, issued) && Enabled(g, issued, LoginAs(p, t, idle)) && Present(g, gs, d, kicked)
    ensures var (h, post) := Login(g, p, t, idle);
      && Present(h, gs, PostEffect(d, gs, post), kicked)
      && (gs !in g.active ==> Present(h, gs, d, kicked))
  {
    var (h, post) := Login(g, p, t, idle);
    assert post.Post? ==> post.message.Add?;
    hide GateInv, Enabled, Login, Bound;
    forall x | Bound(h, gs, x) && x !in kicked
      ensures x in PostEffect(d, gs, post)
      ensures gs !in g.active ==> x in d
    {
      LoginBinds(g, issued, gs, p, t, idle, x);
    }
  }

  lemma KickPresent(g: Gate, issued: set<TranId>, gs: GameId, d: set<TranId>, kicked: set<TranId>, t: TranId, a: Account)
    requires GateInv(g, issued) && Present(g, gs, d, kicked)
    ensures var (h, post) := KickUser(g, t, a); Present(h, gs, PostEffect(d, gs, post), kicked + {t})
    ensures var (h, post) := KickUser(g, t, a); Present(h, gs, d, kicked + {t})
  {
    var h := KickUser(g, t, a).0;
    assert forall x :: Bound(h, gs, x) ==> Bound(g, gs, x) by {
      forall x | Bound(h, gs, x) ensures Bound(g, gs, x) {}
    }
  }

  lemma ClosePresent(g: Gate, issued: set<TranId>, gs: GameId, d: set<TranId>, kicked: set<TranId>, p: nat)
    requires GateInv(g, issued) && Present(g, gs, d, kicked) && p < |g.users|
    ensures var (h, post) := Close(g, p); Present(h, gs, PostEffect(d, gs, post), kicked) && Present(h, gs, d, kicked)
  {
    var (h, post) := Close(g, p);
    var u := g.users[p];
    forall x | Bound(h, gs, x)
      ensures Bound(g, gs, x) && (x in d ==> x in PostEffect(d, gs, post))
    {
      if x in h.recon && h.recon[x] == gs {
        assert x in g.recon || x == u.tran;
        assert x in g.recon ==> x != u.tran;
      } else {
        var i :| 0 <= i < |h.users| && h.users[i].state == Connected && h.users[i].tran == x && h.users[i].game == gs;
        assert i != p && h.users[i] == g.users[i] && x != u.tran;
      }
    }
  }

  lemma ExpirePresent(g: Gate, issued: set<TranId>, gs: GameId, d: set<TranId>, kicked: set<TranId>, t: TranId)
    requires GateInv(g, issued) && Present(g, gs, d, kicked)
    ensures Present(ExpireWait(g, t), gs, d, kicked)
    ensures var (h, post) := ExpireReconnect(g, t); Present(h, gs, PostEffect(d, gs, post), kicked) && Present(h, gs, d, kicked)
  {
    var (h, post) := ExpireReconnect(g, t);
    forall x | Bound(h, gs, x)
      ensures Bound(g, gs, x) && (x in d ==> x in PostEffect(d, gs, post))
    {
      if !(x in h.recon && h.recon[x] == gs) {
        var i :| 0 <= i < |h.users| && h.users[i].state == Connected && h.users[i].tran == x && h.users[i].game == gs;
        assert g.users[i] == h.users[i] && x !in g.recon;
      }
    }
    forall x | Bound(ExpireWait(g, t), gs, x)
      ensures Bound(g, gs, x)
    {}
  }

  lemma SameBound(g: Gate, h: Gate, gs: GameId, d: set<TranId>, kicked: set<TranId>)
    requires Present(g, gs, d, kicked) && |h.users| == |g.users|
    requires forall i :: 0 <= i < |g.users| && h.users[i].state == Connected ==> h.users[i] == g.users[i]
    requires forall t :: t in h.recon && h.recon[t] == gs ==> t in g.recon && g.recon[t] == gs
    ensures Present(h, gs, d, kicked)
  {
    forall x | Bound(h, gs, x)
      ensures Bound(g, gs, x)
    {
      if !(x in h.recon && h.recon[x] == gs) {
        var i :| 0 <= i < |h.users| && h.users[i].state == Connected && h.users[i].tran == x && h.users[i].game == gs;
        assert g.users[i] == h.users[i];
      }
    }
  }

  /** Every step of the gate announces what it binds, and never removes what it keeps. */
  lemma StepPresent(g: Gate, issued: set<TranId>, gs: GameId, d: set<TranId>, kicked: set<TranId>, e: Event)
    requires GateInv(g, issued) && Enabled(g, issued, e) && !AboutLinks(e) && Present(g, gs, d, kicked)
    ensures var (h, post) := GateProofs.Step(g, e);
      && Present(h, gs, PostEffect(d, gs, post), KickedAfter(kicked, e))
      && (gs !in g.active ==> Present(h, gs, d, KickedAfter(kicked, e)))
  {
    hide Present;
    match e
    case Announce(t, a) =>
      assert t !in g.onlines;
      SameBound(g, GateProofs.Step(g, e).0, gs, d, kicked);
    case Kick(t, a) => KickPresent(g, issued, gs, d, kicked, t, a);
    case Accepted(p) => SameBound(g, GateProofs.Step(g, e).0, gs, d, kicked);
    case LoginAs(p, t, idle) => LoginPresent(g, issued, gs, d, kicked, p, t, idle);
    case Closed(p) => ClosePresent(g, issued, gs, d, kicked, p);
    case FireWait(t) => ExpirePresent(g, issued, gs, d, kicked, t);
    case FireReconnect(t) => ExpirePresent(g, issued, gs, d, kicked, t);
  }

  /** The online map leads a kick of t to the game server t plays on. */
  predicate Strands(g: Gate, gs: GameId, t: TranId)
    requires Tidy(g)
  {
    t in g.onlines && gs in g.active && g.users[g.onlines[t]].game == gs && Bound(g, gs, t)
  }

  /** What is bound to a game server becomes unknown there by one step only: a kick that reaches it. The session is told
      to close but stays connected, while its game server is told to forget it. */
  lemma StepPresentIff(g: Gate, issued: set<TranId>, gs: GameId, d: set<TranId>, e: Event)
    requires GateInv(g, issued) && Enabled(g, issued, e) && !AboutLinks(e) && Present(g, gs, d, {})
    ensures var (h, post) := GateProofs.Step(g, e);
      Present(h, gs, PostEffect(d, gs, post), {}) <==> !(e.Kick? && Strands(g, gs, e.t))
  {
    StepPresent(g, issued, gs, d, {}, e);
    if e.Kick? {
      KickStrands(g, issued, gs, d, e.t, e.a);
    }
    hide GateInv, Enabled, Present, GateProofs.Step;
  }

  lemma KickStrands(g: Gate, issued: set<TranId>, gs: GameId, d: set<TranId>, t: TranId, a: Account)
    requires GateInv(g, issued) && Present(g, gs, d, {})
    ensures var (h, post) := KickUser(g, t, a); Present(h, gs, PostEffect(d, gs, post), {}) <==> !Strands(g, gs, t)
  {
    KickPresent(g, issued, gs, d, {}, t, a);
    var (h, post) := KickUser(g, t, a);
    KickBinds(g, issued, gs, t, a);
    hide Bound, KickUser;
    if Strands(g, gs, t) {
      assert Bound(h, gs, t) && t !in PostEffect(d, gs, post);
    }
  }

  lemma KickBinds(g: Gate, issued: set<TranId>, gs: GameId, t: TranId, a: Account)
    requires GateInv(g, issued)
    ensures var (h, post) := KickUser(g, t, a);
      && (Bound(h, gs, t) ==> Bound(g, gs, t))
      && (Strands(g, gs, t) ==> Bound(h, gs, t) && post == Post(gs, Remove(t)))
      && (!Strands(g, gs, t) && Bound(h, gs, t) ==> !(post.Post? && post.game == gs))
  {
    hide HeldOnce, Issued, AccountsDistinct;
  }

  lemma LoginListed(g: Gate, issued: set<TranId>, p: nat, t: TranId, idle: Option<GameId>, kicked: set<TranId>)
    requires GateInv(g, issued) && Listed(g, kicked) && Enabled(g, issued, LoginAs(p, t, idle))
    ensures Listed(Login(g, p, t, idle).0, kicked)
  {
    hide AccountsDistinct, Issued;
  }

  lemma CloseListed(g: Gate, issued: set<TranId>, p: nat, kicked: set<TranId>)
    requires GateInv(g, issued) && Listed(g, kicked) && p < |g.users|
    ensures Listed(Close(g, p).0, kicked)
  {
    hide AccountsDistinct, Issued, FreeWhileParked;
  }

  lemma StepListed(g: Gate, issued: set<TranId>, kicked: set<TranId>, e: Event)
    requires GateInv(g, issued) && Enabled(g, issued, e) && Listed(g, kicked)
    ensures Listed(GateProofs.Step(g, e).0, KickedAfter(kicked, e))
  {
    match e
    case LoginAs(p, t, idle) => LoginListed(g, issued, p, t, idle, kicked);
    case Closed(p) => CloseListed(g, issued, p, kicked);
    case Down(gs) => DownListed(g, kicked, gs);
    case _ => hide AccountsDistinct, Issued, FreeWhileParked, HeldOnce;
  }

  lemma DownListed(g: Gate, kicked: set<TranId>, gs: GameId)
    requires Listed(g, kicked)
    ensures Listed(LinkDown(g, gs), kicked)
  {
    if gs in g.active {
      SameIds(g, LinkDown(g, gs), gs);
    }
  }

  /** A lost game server's users are all told to close, but for those who were kicked. */
  lemma DownUnbinds(g: Gate, kicked: set<TranId>, gs: GameId)
    requires Listed(g, kicked) && gs in g.active && Tidy(g)
    ensures Present(LinkDown(g, gs), gs, {}, kicked)
  {
    var h := LinkDown(g, gs);
    SameIds(g, h, gs);
    forall x | Bound(h, gs, x)
      ensures x in kicked
    {
      var i :| 0 <= i < |h.users| && h.users[i].state == Connected && h.users[i].tran == x && h.users[i].game == gs;
      assert h.users[i] == g.users[i];
    }
  }

  // ---------- the link ----------

  /** The registered connection is the only one that still delivers, and what is bound to an active game server is known
      to it or on the way while the connection lasts; nothing is bound to any other. */
  ghost predicate LinkPresent(gate: Gate, gs: GameId, conn: Option<nat>, g: Game, kicked: set<TranId>) {
    && (forall w :: w in g.open && w in g.welcomed ==> g.registered == Some(w))
    && (if gs in gate.active then conn.Some? && conn.value in g.open ==> Present(gate, gs, Expecting(gate, gs, conn, g), kicked)
        else Present(gate, gs, {}, kicked))
  }

  ghost predicate AllPresent(s: State, kicked: set<TranId>) {
    && Formed(s) && Listed(s.gate, kicked)
    && forall gs :: gs in s.games ==> LinkPresent(s.gate, gs, ConnOf(s, gs), s.games[gs], kicked)
  }

  /** A registration is handled when every other connection has been seen closing. */
  predicate Ordered(s: State, e: Cluster.Step)
    requires Can(s, e)
  {
    e.Deliver? && s.games[e.gs].open[e.n][0] == Register ==> s.games[e.gs].open.Keys == {e.n}
  }

  function KickedBy(kicked: set<TranId>, e: Cluster.Step): set<TranId> {
    if e.AtGate? then KickedAfter(kicked, e.e) else kicked
  }

  lemma ExpectingAfter(gate: Gate, h: Gate, gs: GameId, conn: Option<nat>, g: Game, next: nat, post: Post)
    requires Shape(gate, gs, conn, g, next) && h.active == gate.active && gs in gate.active
    requires conn.Some? && conn.value in g.open
    ensures Expecting(h, gs, conn, EnqueuePost(gs, g, conn, post)) == PostEffect(Expecting(gate, gs, conn, g), gs, post)
    ensures EnqueuePost(gs, g, conn, post).open.Keys == g.open.Keys
  {
    if post.Post? && post.game == gs {
      DrainSnoc(g.users.Keys, g.open[conn.value], Relay(post.message));
    }
    hide Shape;
  }

  lemma AtGatePresent(s: State, e: Event, gs: GameId, kicked: set<TranId>)
    requires AllPresent(s, kicked) && Can(s, AtGate(e)) && gs in s.games
    ensures var s' := Cluster.Next(s, AtGate(e));
      gs in s'.games && LinkPresent(s'.gate, gs, ConnOf(s', gs), s'.games[gs], KickedAfter(kicked, e))
  {
    var g, conn := s.games[gs], ConnOf(s, gs);
    assert LinkPresent(s.gate, gs, conn, g, kicked);
    FormedAt(s, gs);
    StepKeepsActive(s.gate, s.issued, e);
    var (h, post) := GateProofs.Step(s.gate, e);
    RouteAt(s, post);
    hide Formed, GateInv, GateProofs.Step, Route, Enabled, Tidy, Present, Shape, Expecting;
    if gs in s.gate.active {
      if conn.Some? && conn.value in g.open {
        ExpectingAfter(s.gate, h, gs, conn, g, s.nextConn, post);
        StepPresent(s.gate, s.issued, gs, Expecting(s.gate, gs, conn, g), kicked, e);
      }
    } else {
      StepPresent(s.gate, s.issued, gs, {}, kicked, e);
    }
    SameConnections(gs, g, conn, post);
    hide EnqueuePost;
  }

  lemma SameConnections(gs: GameId, g: Game, conn: Option<nat>, post: Post)
    ensures var g' := EnqueuePost(gs, g, conn, post);
      g'.open.Keys == g.open.Keys && g'.welcomed == g.welcomed && g'.registered == g.registered && g'.users == g.users
  {}

  lemma DeliverPresent(gate: Gate, gs: GameId, conn: Option<nat>, g: Game, next: nat, n: nat, kicked: set<TranId>)
    requires Shape(gate, gs, conn, g, next) && LinkPresent(gate, gs, conn, g, kicked) && n in g.open && g.open[n] != []
    requires g.open[n][0] == Register ==> g.open.Keys == {n}
    ensures LinkPresent(gate, gs, conn, Process(g, n), kicked)
  {
    if g.open[n][0] == Register {
      RegisterShape(gate, gs, conn, g, next, n);
    } else {
      RelayShape(gate, gs, conn, g, next, n);
      hide Process, Present, Shape;
      assert gs in gate.active && conn.Some? && conn.value in g.open ==> conn.value in g.welcomed by {
        ActiveIsWelcomed(gate, gs, conn, g, next);
      }
    }
    hide Present, Process;
  }

  lemma HangupPresent(gate: Gate, gs: GameId, conn: Option<nat>, g: Game, next: nat, n: nat, kicked: set<TranId>)
    requires Shape(gate, gs, conn, g, next) && LinkPresent(gate, gs, conn, g, kicked) && n in g.open
    ensures LinkPresent(gate, gs, conn, Hangup(g, n), kicked)
  {
    hide Present;
  }

  lemma UpPresent(gate: Gate, other: GameId, gs: GameId, conn: Option<nat>, g: Game, next: nat, kicked: set<TranId>)
    requires Shape(gate, gs, conn, g, next) && LinkPresent(gate, gs, conn, g, kicked)
    ensures LinkPresent(LinkUp(gate, other), gs, conn, g, kicked)
  {
    var h := LinkUp(gate, other);
    forall x ensures Bound(h, gs, x) <==> Bound(gate, gs, x) {}
  }

  lemma DownPresent(gate: Gate, issued: set<TranId>, other: GameId, gs: GameId, conn: Option<nat>, g: Game, kicked: set<TranId>)
    requires GateInv(gate, issued) && Listed(gate, kicked) && LinkPresent(gate, gs, conn, g, kicked)
    ensures LinkPresent(LinkDown(gate, other), gs, if other == gs then None else conn, g, kicked)
  {
    if other in gate.active {
      var h := LinkDown(gate, other);
      SameIds(gate, h, other);
      LinkDownActive(gate, other);
      if other == gs {
        DownUnbinds(gate, kicked, gs);
      } else {
        hide LinkDown, GateInv;
        var d := if gs in gate.active then Expecting(gate, gs, conn, g) else {};
        if gs !in gate.active || (conn.Some? && conn.value in g.open) {
          DownElsewhere(gate, other, gs, d, kicked);
        }
      }
    }
  }

  lemma DownElsewhere(gate: Gate, other: GameId, gs: GameId, d: set<TranId>, kicked: set<TranId>)
    requires other in gate.active && other != gs && Present(gate, gs, d, kicked)
    ensures Present(LinkDown(gate, other), gs, d, kicked)
  {
    var h := LinkDown(gate, other);
    SameIds(gate, h, other);
    SameBound(gate, h, gs, d, kicked);
  }

  lemma LinkPresentStep(s: State, e: Cluster.Step, gs: GameId, kicked: set<TranId>)
    requires AllPresent(s, kicked) && Can(s, e) && Ordered(s, e) && gs in s.games && Tidy(s.gate)
    ensures var s' := Cluster.Next(s, e); gs in s'.games && LinkPresent(s'.gate, gs, ConnOf(s', gs), s'.games[gs], KickedBy(kicked, e))
  {
    hide AllPresent, Formed, LinkPresent, GateInv, Shape, Process, Hangup, LinkUp, LinkDown, Listed, Tidy;
    PresentAt(s, gs, kicked);
    var g, conn := s.games[gs], ConnOf(s, gs);
    match e
    case AtGate(e) => AtGatePresent(s, e, gs, kicked);
    case Connect(hs) => if hs == gs { ConnectPresent(s, gs, kicked); }
    case Deliver(hs, n) => if hs == gs { DeliverPresent(s.gate, gs, conn, g, s.nextConn, n, kicked); }
    case Welcome(hs) => UpPresent(s.gate, hs, gs, conn, g, s.nextConn, kicked);
    case GateSeesClose(hs) => DownPresent(s.gate, s.issued, hs, gs, conn, g, kicked);
    case GameSeesClose(hs, n) => if hs == gs { HangupPresent(s.gate, gs, conn, g, s.nextConn, n, kicked); }
  }

  lemma PresentAt(s: State, gs: GameId, kicked: set<TranId>)
    requires AllPresent(s, kicked) && gs in s.games
    ensures Formed(s) && Listed(s.gate, kicked) && GateInv(s.gate, s.issued)
    ensures LinkPresent(s.gate, gs, ConnOf(s, gs), s.games[gs], kicked)
    ensures Shape(s.gate, gs, ConnOf(s, gs), s.games[gs], s.nextConn)
  {
    FormedAt(s, gs);
  }

  lemma ConnectPresent(s: State, gs: GameId, kicked: set<TranId>)
    requires Formed(s) && gs in s.games && gs !in s.conns && LinkPresent(s.gate, gs, ConnOf(s, gs), s.games[gs], kicked)
    ensures LinkPresent(s.gate, gs, Some(s.nextConn), s.games[gs].(open := s.games[gs].open[s.nextConn := [Register]]), kicked)
  {
    FormedAt(s, gs);
    hide Formed, Present;
  }

  /** Every ordered step keeps what is bound present. */
  lemma StepKeepsPresent(s: State, e: Cluster.Step, kicked: set<TranId>)
    requires AllPresent(s, kicked) && Can(s, e) && Ordered(s, e)
    ensures Tidy(s.gate) && AllPresent(Cluster.Next(s, e), KickedBy(kicked, e))
  {
    FormedIsTidy(s);
    FormedStep(s, e);
    ListedStep(s, e, kicked);
    var s' := Cluster.Next(s, e);
    assert s'.games.Keys == s.games.Keys by { SameGames(s, e); }
    forall gs | gs in s'.games
      ensures LinkPresent(s'.gate, gs, ConnOf(s', gs), s'.games[gs], KickedBy(kicked, e))
    {
      LinkPresentStep(s, e, gs, kicked);
    }
    hide Cluster.Next, Formed, LinkPresent, Listed;
  }

  lemma FormedIsTidy(s: State)
    requires Formed(s)
    ensures Tidy(s.gate)
  {}

  lemma SameGames(s: State, e: Cluster.Step)
    requires Tidy(s.gate) && Can(s, e)
    ensures Cluster.Next(s, e).games.Keys == s.games.Keys
  {
    if e.AtGate? {
      RouteAt(s, GateProofs.Step(s.gate, e.e).1);
    }
    hide GateProofs.Step, Process, Hangup, Tidy;
  }

  lemma ListedStep(s: State, e: Cluster.Step, kicked: set<TranId>)
    requires Formed(s) && Tidy(s.gate) && Can(s, e) && Listed(s.gate, kicked)
    ensures Listed(Cluster.Next(s, e).gate, KickedBy(kicked, e))
  {
    hide Formed;
    FormedHasTokens(s);
    match e
    case AtGate(e) =>
      StepListed(s.gate, s.issued, kicked, e);
      hide GateProofs.Step, Listed, GateInv, Tidy;
    case GateSeesClose(gs) => DownListed(s.gate, kicked, gs);
    case _ =>
  }

  lemma FormedHasTokens(s: State)
    requires Formed(s)
    ensures GateInv(s.gate, s.issued)
  {}

  // ---------- runs ----------

  predicate AllOrdered(s: State, es: seq<Cluster.Step>)
    requires Runs(s, es)
    decreases |es|
  {
    es == [] || (Ordered(s, es[0]) && AllOrdered(Cluster.Next(s, es[0]), es[1..]))
  }

  /** The ids kicked along a run. */
  function Kicked(es: seq<Cluster.Step>, kicked: set<TranId>): set<TranId> {
    if es == [] then kicked else Kicked(es[1..], KickedBy(kicked, es[0]))
  }

  lemma {:induction false} RunKeepsPresent(s: State, es: seq<Cluster.Step>, kicked: set<TranId>)
    requires AllPresent(s, kicked) && Runs(s, es) && AllOrdered(s, es)
    ensures AllPresent(Exec(s, es), Kicked(es, kicked))
    decreases |es|
  {
    hide AllPresent, Cluster.Next, Can, Ordered, Tidy;
    if es != [] {
      StepKeepsPresent(s, es[0], kicked);
      RunKeepsPresent(Cluster.Next(s, es[0]), es[1..], KickedBy(kicked, es[0]));
    }
  }

  lemma FreshPresent(s: State)
    requires Fresh(s)
    ensures AllPresent(s, {})
  {
    FreshInv(s);
    InvIsFormed(s);
  }

  /** No forgotten players: along every run in which registrations are handled in order - across logins, closes, timers and
      lost links - once the messages to an active game server have arrived over a connection that still stands, it has
      a session for every id that a connected gate session plays under there or that waits to reconnect to it, unless
      that id was kicked. */
  lemma PlayersArePresent(s: State, es: seq<Cluster.Step>, gs: GameId, t: TranId)
    requires Fresh(s) && Runs(s, es) && AllOrdered(s, es)
    requires var u := Exec(s, es);
      && gs in u.games && gs in u.gate.active && gs in u.conns && u.conns[gs] in u.games[gs].open
      && Drained(u, gs) && Bound(u.gate, gs, t) && t !in Kicked(es, {})
    ensures t in Exec(s, es).games[gs].users
  {
    FreshPresent(s);
    RunKeepsPresent(s, es, {});
    var u := Exec(s, es);
    hide Runs, Exec, Fresh, AllOrdered, Formed, Bound, Kicked;
    assert LinkPresent(u.gate, gs, ConnOf(u, gs), u.games[gs], Kicked(es, {}));
    assert Expecting(u.gate, gs, ConnOf(u, gs), u.games[gs]) == u.games[gs].users.Keys;
  }
}
