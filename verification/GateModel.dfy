/** The gate server's user bookkeeping (user_manager.cpp, user_session.cpp) as functions on values: which
    transaction ids are awaited, online or waiting to reconnect, and which session objects hold them. */
module GateModel {
  import opened Bytes

  type TranId = nat
  type Account = nat
  type GameId = nat

  const INVALID_TRANS_ID: TranId := 0
  const INVALID_ACCOUNT: Account := 0
  const INVALID_GAME_ID: GameId := 0
  const MAX_GAME_ID: GameId := 0xff

  datatype UserState = Disabled | WaitAccount | Connected | WaitClose

  /** One session object of the server's pool. */
  datatype User = User(state: UserState, tran: TranId, game: GameId)

  datatype Message = Add(t: TranId, a: Account) | Remove(t: TranId) | Offline(t: TranId)

  /** A message handed to the client of one game server. */
  datatype Post = Nothing | Post(game: GameId, message: Message)

  datatype Timer = WaitExpiry(t: TranId) | ReconnectExpiry(t: TranId)

  /**
   * users: the session pool; onlines, accounts, waiting, recon: the four maps (session objects by pool index).
   * active: game servers with a registered client; closeAsked: sessions on which close() was called.
   */
  datatype Gate = Gate(
    users: seq<User>,
    onlines: map<TranId, nat>, accounts: map<Account, TranId>,
    waiting: map<TranId, Account>, recon: map<TranId, GameId>,
    active: set<GameId>, timers: multiset<Timer>, closeAsked: set<nat>)

  // ---------- common_template.h ----------

  /** addData: never overwrites. */
  function AddData<K, V>(m: map<K, V>, k: K, v: V): map<K, V> {
    if k in m then m else m[k := v]
  }

  /** eraseValue: drops every entry with the value. */
  function EraseValue<K(!new), V(==)>(m: map<K, V>, v: V): (r: map<K, V>)
    ensures forall k :: k in r <==> k in m && m[k] != v
    ensures forall k :: k in r ==> r[k] == m[k]
  {
    map k | k in m && m[k] != v :: m[k]
  }

  // ---------- user_session.cpp ----------

  /** setState. Leaving for good clears the ids. */
  function SetState(u: User, s: UserState): User {
    if s == Disabled then User(Disabled, INVALID_TRANS_ID, INVALID_GAME_ID) else u.(state := s)
  }

  function SetUser(g: Gate, p: nat, u: User): Gate
    requires p < |g.users|
  {
    g.(users := g.users[p := u])
  }

  // ---------- user_manager.cpp ----------

  /** A message to game server gs, if its client is active. */
  function ToGame(g: Gate, gs: GameId, m: Message): Post {
    if gs in g.active then Post(gs, m) else Nothing
  }

  function KickUser(g: Gate, t: TranId, a: Account): (Gate, Post)
    requires t in g.onlines ==> g.onlines[t] < |g.users|
  {
    if t in g.onlines then
      var p := g.onlines[t];
      (g.(onlines := g.onlines - {t}, accounts := g.accounts - {a}, closeAsked := g.closeAsked + {p}),
       ToGame(g, g.users[p].game, Remove(t)))
    else
      var v := if t in g.waiting then g.waiting[t] else INVALID_ACCOUNT;
      var h := g.(waiting := g.waiting - {t}, accounts := if v != INVALID_ACCOUNT then g.accounts - {v} else g.accounts);
      if t in g.recon then (h.(recon := g.recon - {t}), ToGame(g, g.recon[t], Remove(t)))
      else (h, Nothing)
  }

  /** addToWait: the login server announces a user. */
  function AddToWait(g: Gate, t: TranId, a: Account): (Gate, Post)
    requires t in g.onlines ==> g.onlines[t] < |g.users|
  {
    var (h, post) := if t in g.onlines then KickUser(g, t, a) else (g, Nothing);
    (h.(waiting := AddData(h.waiting, t, a), timers := h.timers + multiset{WaitExpiry(t)}), post)
  }

  /** checkConn plus the assignment of m_tranid in parseLoginGame; idle is what getIdleGameClient returns. */
  function CheckConn(g: Gate, t: TranId, p: nat, idle: Option<GameId>): (Gate, Post)
    requires p < |g.users|
  {
    if t in g.waiting then
      var v := g.waiting[t];
      var h := g.(waiting := g.waiting - {t});
      match idle
      case None => (SetUser(h, p, SetState(g.users[p], WaitClose)), Nothing)
      case Some(gs) =>
        (SetUser(h, p, User(Connected, t, gs)).(onlines := AddData(g.onlines, t, p), accounts := AddData(g.accounts, v, t)),
         ToGame(g, gs, Add(t, v)))
    else if t in g.recon then
      (SetUser(g, p, User(Connected, t, g.recon[t])).(recon := g.recon - {t}, onlines := AddData(g.onlines, t, p)), Nothing)
    else
      (SetUser(g, p, SetState(g.users[p], WaitClose)), Nothing)
  }

  /** parseLoginGame. */
  function Login(g: Gate, p: nat, t: TranId, idle: Option<GameId>): (Gate, Post)
    requires p < |g.users|
  {
    if g.users[p].state == Connected then (g, Nothing) else CheckConn(g, t, p, idle)
  }

  predicate LoginAccepted(g: Gate, p: nat, t: TranId, idle: Option<GameId>)
    requires p < |g.users|
  {
    g.users[p].state != Connected && ((t in g.waiting && idle.Some?) || (t !in g.waiting && t in g.recon))
  }

  /** checkClose. */
  function CheckClose(g: Gate, p: nat): (Gate, Post)
    requires p < |g.users|
  {
    var u := g.users[p];
    var h := g.(onlines := g.onlines - {u.tran}, timers := g.timers + multiset{ReconnectExpiry(u.tran)});
    if u.game in g.active && u.state == Connected then
      (h.(recon := AddData(g.recon, u.tran, u.game)), ToGame(g, u.game, Offline(u.tran)))
    else
      (h.(accounts := EraseValue(g.accounts, u.tran)), ToGame(g, u.game, Remove(u.tran)))
  }

  /** UserSession::on_close: checkClose, then the session is disabled. */
  function Close(g: Gate, p: nat): (Gate, Post)
    requires p < |g.users|
  {
    var (h, post) := CheckClose(g, p);
    (SetUser(h, p, SetState(g.users[p], Disabled)).(closeAsked := g.closeAsked - {p}), post)
  }

  /** UserSession::on_accept. */
  function Accept(g: Gate, p: nat): Gate
    requires p < |g.users|
  {
    SetUser(g, p, SetState(g.users[p], WaitAccount))
  }

  /** eventCallRemoveWait. */
  function ExpireWait(g: Gate, t: TranId): Gate {
    g.(waiting := g.waiting - {t}, timers := g.timers - multiset{WaitExpiry(t)})
  }

  /** eventCallRemoveReconn. */
  function ExpireReconnect(g: Gate, t: TranId): (Gate, Post) {
    (g.(recon := g.recon - {t}, accounts := EraseValue(g.accounts, t), timers := g.timers - multiset{ReconnectExpiry(t)}),
     if t in g.recon then ToGame(g, g.recon[t], Remove(t)) else Nothing)
  }

  /** removeUsers, for a game server whose link is gone: its online users are told to close, its reconnects forgotten. */
  function RemoveUsers(g: Gate, gs: GameId): Gate {
    g.(users := seq(|g.users|, i requires 0 <= i < |g.users| =>
         if (exists t :: t in g.onlines && g.onlines[t] == i) && g.users[i].game == gs then SetState(g.users[i], WaitClose)
         else g.users[i]),
       recon := EraseValue(g.recon, gs))
  }

  /** removeActiveGameClient, called by the client's on_close. */
  function LinkDown(g: Gate, gs: GameId): Gate {
    if gs in g.active then RemoveUsers(g, gs).(active := g.active - {gs}) else g
  }

  /** addActiveGameClient: ids outside 1..254 are refused. */
  function LinkUp(g: Gate, gs: GameId): Gate {
    if INVALID_GAME_ID < gs < MAX_GAME_ID then g.(active := g.active + {gs}) else g
  }

  // ---------- tokens ----------

  predicate Holds(u: User, t: TranId) {
    u.state != Disabled && u.tran == t
  }

  /** At most one open session holds any id. */
  predicate HeldOnce(g: Gate) {
    forall i, j :: 0 <= i < j < |g.users| && g.users[i].tran != INVALID_TRANS_ID ==> g.users[i].tran != g.users[j].tran
  }

  predicate Disjoint(g: Gate) {
    && (forall t :: t in g.waiting ==> t !in g.onlines && t !in g.recon)
    && (forall t :: t in g.onlines ==> t !in g.recon)
  }

  /** An awaited or reconnecting id is held by nobody. */
  predicate FreeWhileParked(g: Gate) {
    forall i :: 0 <= i < |g.users| ==> g.users[i].tran !in g.waiting && g.users[i].tran !in g.recon
  }

  /** No transaction id is recorded for two accounts. */
  predicate AccountsDistinct(g: Gate) {
    && (forall a, b :: a in g.accounts && b in g.accounts && g.accounts[a] == g.accounts[b] ==> a == b)
    && (forall a :: a in g.accounts ==> g.accounts[a] !in g.waiting)
  }

  /** Ids in use were issued; 0 never is. */
  predicate Issued(g: Gate, issued: set<TranId>) {
    && INVALID_TRANS_ID !in issued
    && g.waiting.Keys <= issued && g.onlines.Keys <= issued && g.recon.Keys <= issued
    && (forall a :: a in g.accounts ==> g.accounts[a] in issued)
    && (forall i :: 0 <= i < |g.users| ==> g.users[i].tran == INVALID_TRANS_ID || g.users[i].tran in issued)
  }

  /** A disabled session has no ids; a connected one has both. Any other may still hold those of an earlier login. */
  predicate UserOk(u: User) {
    && (u.state == Disabled ==> u.tran == INVALID_TRANS_ID)
    && (u.state == Connected ==> u.tran != INVALID_TRANS_ID)
    && (u.tran == INVALID_TRANS_ID <==> u.game == INVALID_GAME_ID)
  }

  predicate Tidy(g: Gate) {
    && (forall i :: 0 <= i < |g.users| ==> UserOk(g.users[i]))
    && (forall t :: t in g.onlines ==> g.onlines[t] < |g.users|)
    && (forall t :: t in g.recon ==> g.recon[t] in g.active)
    && (forall gs :: gs in g.active ==> INVALID_GAME_ID < gs < MAX_GAME_ID)
  }

  /** Token uniqueness and what keeps it. */
  predicate GateInv(g: Gate, issued: set<TranId>) {
    Issued(g, issued) && Tidy(g) && HeldOnce(g) && Disjoint(g) && FreeWhileParked(g) && AccountsDistinct(g)
  }
}
