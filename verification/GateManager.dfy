/** The game server's gate manager (gate_manager.cpp, gate_session.cpp): an array of registered connections and a map of
    session objects, changed in place. Its view is the session map of the protocol model. */
module GateManagers {
  import GameModel
  import opened GateTypes = GateModel
  import opened GameTypes = GameModel

  /** One user's session on the game server. */
  class Session {
    const tran: TranId
    const account: Account
    const gate: GateId
    var online: bool
    var hero: bool  // the hero's data has arrived

    constructor (t: TranId, a: Account, gate: GateId)
      ensures tran == t && account == a && this.gate == gate && online && !hero
    {
      tran, account, this.gate, online, hero := t, a, gate, true, false;
    }

    ghost function Value(): GameUser
      reads this`online
    {
      GameUser(account, gate, online)
    }
  }

  /** One connection from a gate. */
  class GateSession {
    var gate: GateId
    var closing: bool

    constructor ()
      ensures gate == INVALID_GATE_ID && !closing
    {
      gate, closing := INVALID_GATE_ID, false;
    }
  }

  predicate Registrable(gate: GateId) {
    INVALID_GATE_ID < gate < MAX_GATE_ID
  }

  class GateManager {
    const gates: array<GateSession?>
    var onlines: map<TranId, Session>

    ghost predicate Valid()
      reads this
    {
      gates.Length == MAX_GATE_ID && forall t :: t in onlines ==> onlines[t].tran == t
    }

    ghost function View(): GameUsers
      reads this, onlines.Values
    {
      map t | t in onlines :: onlines[t].Value()
    }

    constructor ()
      ensures Valid() && fresh(gates) && View() == map[]
      ensures forall i :: 0 <= i < gates.Length ==> gates[i] == null
    {
      gates := new GateSession?[MAX_GATE_ID](i => null);
      onlines := map[];
    }

    method AddGate(n: GateId, g: GateSession) returns (ok: bool)
      requires Valid()
      modifies gates
      ensures ok == Registrable(n)
      ensures gates[..] == if ok then old(gates[..])[n := g] else old(gates[..])
    {
      ok := INVALID_GATE_ID < n < MAX_GATE_ID;
      if ok {
        gates[n] := g;
      }
    }

    /** on_close of a connection: it purges its gate's users only if it is the one registered under its id. */
    method RemoveGate(g: GateSession)
      requires Valid()
      modifies this`onlines, gates
      ensures Valid()
      ensures var mine := Registrable(g.gate) && old(gates[g.gate]) == g;
        && View() == (if mine then GameModel.RemoveUserByGate(old(View()), g.gate) else old(View()))
        && gates[..] == (if mine then old(gates[..])[g.gate := null] else old(gates[..]))
    {
      var n := g.gate;
      if INVALID_GATE_ID < n < MAX_GATE_ID {
        if gates[n] == g {
          RemoveUserByGate(n);
          gates[n] := null;
        }
      }
    }

    /** Erases while walking, in a copy of the keys still ahead. */
    method RemoveUserByGate(n: GateId)
      requires Valid()
      modifies this`onlines
      ensures Valid() && View() == GameModel.RemoveUserByGate(old(View()), n)
    {
      ghost var before := onlines;
      var ahead := onlines.Keys;
      while ahead != {}
        invariant Valid() && ahead <= onlines.Keys <= before.Keys
        invariant forall t :: t in onlines ==> onlines[t] == before[t]
        invariant forall t :: t in before && t !in ahead ==> (t in onlines <==> before[t].gate != n)
        decreases |ahead|
      {
        var t :| t in ahead;
        ahead := ahead - {t};
        if onlines[t].gate == n {
          onlines := onlines - {t};
        }
      }
    }

    /** addUser: null when the id is taken by another account or gate. */
    method AddUser(t: TranId, a: Account, gate: GateId) returns (s: Session?)
      requires Valid()
      modifies this`onlines, onlines.Values`online
      ensures Valid() && View() == GameModel.AddUser(old(View()), t, a, gate)
      ensures s == null <==> t in old(View()) && (old(View())[t].gate != gate || old(View())[t].account != a)
      ensures s != null ==> t in onlines && onlines[t] == s && s.Value() == GameUser(a, gate, true)
    {
      if t !in onlines {
        s := new Session(t, a, gate);
        onlines := onlines[t := s];
      } else {
        s := onlines[t];
        assert s in onlines.Values;
        if s.gate == gate && s.account == a {
          s.online := true;
        } else {
          s := null;
        }
      }
    }

    /** offlineUser. The hero is marked without a test that it is there: false stands for the crash, which hits exactly
        the users whose data has not arrived. */
    method OfflineUser(t: TranId) returns (ok: bool)
      requires Valid()
      modifies onlines.Values`online
      ensures Valid() && View() == GameModel.OfflineUser(old(View()), t)
      ensures ok <==> (t in onlines ==> onlines[t].hero)
    {
      ok := true;
      if t in onlines {
        assert onlines[t] in onlines.Values;
        onlines[t].online := false;
        ok := onlines[t].hero;
      }
    }

    method RemoveUser(t: TranId)
      requires Valid()
      modifies this`onlines
      ensures Valid() && View() == GameModel.RemoveUser(old(View()), t)
    {
      onlines := onlines - {t};
    }

    // ---------- gate_session.cpp: the receiving end ----------

    /** parseGateRegister: a gate with the wrong version is told to close, and registered all the same. */
    method ParseGateRegister(g: GateSession, id: GateId, versionOk: bool)
      requires Valid()
      modifies g, gates
      ensures Valid() && g.gate == id && g.closing == (old(g.closing) || !versionOk) && View() == old(View())
      ensures gates[..] == if Registrable(id) then old(gates[..])[id := g] else old(gates[..])
    {
      g.gate := id;
      if !versionOk {
        g.closing := true;
      }
      var _ := AddGate(id, g);
    }

    /** parseAddUser, parseRemoveUser, parseOffline. */
    method ParseMessage(g: GateSession, m: Message) returns (ok: bool)
      requires Valid()
      modifies this`onlines, onlines.Values`online
      ensures Valid() && View() == GameModel.Receive(old(View()), g.gate, m)
      ensures ok <==> (m.Offline? && m.t in onlines ==> onlines[m.t].hero)
    {
      ok := true;
      match m
      case Add(t, a) => var _ := AddUser(t, a, g.gate);
      case Remove(t) => RemoveUser(t);
      case Offline(t) => ok := OfflineUser(t);
    }
  }
}
