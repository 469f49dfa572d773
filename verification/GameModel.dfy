/** The game server's side of the link (gameserver/gate_manager.cpp, gate_session.cpp) as functions on values. */
module GameModel {
  import opened GateModel

  type GateId = nat

  const INVALID_GATE_ID: GateId := 0
  const MAX_GATE_ID: GateId := 0xff

  /** A game-side session: the account it plays for, the gate it came through, and whether it is online. */
  datatype GameUser = GameUser(account: Account, gate: GateId, online: bool)

  type GameUsers = map<TranId, GameUser>

  /** addUser: a new session, a reconnect of the very same user, or a refusal that changes nothing. */
  function AddUser(users: GameUsers, t: TranId, a: Account, gate: GateId): GameUsers {
    if t !in users then users[t := GameUser(a, gate, true)]
    else if users[t].gate == gate && users[t].account == a then users[t := users[t].(online := true)]
    else users
  }

  function RemoveUser(users: GameUsers, t: TranId): GameUsers {
    users - {t}
  }

  function OfflineUser(users: GameUsers, t: TranId): GameUsers {
    if t in users then users[t := users[t].(online := false)] else users
  }

  /** removeUserByGate. */
  function RemoveUserByGate(users: GameUsers, gate: GateId): (r: GameUsers)
    ensures forall t :: t in r <==> t in users && users[t].gate != gate
    ensures forall t :: t in r ==> r[t] == users[t]
  {
    map t | t in users && users[t].gate != gate :: users[t]
  }

  /** A new user plays for its account, through its gate, online. An id that is known is never taken over: it keeps its
      account and gate, and only that very account coming through that very gate puts it online. */
  lemma AddOutcome(users: GameUsers, t: TranId, a: Account, gate: GateId)
    ensures var r := AddUser(users, t, a, gate);
      && t in r && r - {t} == users - {t}
      && (t !in users ==> r[t].account == a && r[t].gate == gate && r[t].online)
      && (t in users ==> r[t].account == users[t].account && r[t].gate == users[t].gate)
      && (t in users ==> (r[t].online <==> users[t].online || (users[t].account == a && users[t].gate == gate)))
  {}

  /** parseAddUser, parseRemoveUser, parseOffline on a connection registered as `gate`. */
  function Receive(users: GameUsers, gate: GateId, m: Message): GameUsers {
    match m
    case Add(t, a) => AddUser(users, t, a, gate)
    case Remove(t) => RemoveUser(users, t)
    case Offline(t) => OfflineUser(users, t)
  }

  /** Whatever a gate sends, a session that stays keeps its account and its gate. */
  lemma IdentityKept(users: GameUsers, gate: GateId, m: Message, t: TranId)
    requires t in users && t in Receive(users, gate, m)
    ensures var r := Receive(users, gate, m); r[t].account == users[t].account && r[t].gate == users[t].gate
    ensures m.t != t ==> Receive(users, gate, m)[t] == users[t]
  {}
}
