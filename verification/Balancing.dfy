/** The load balancers: the login server hands users to the least loaded gate (login/gate_manager.cpp, gate_session.cpp);
    a gate hands them to an idle game server (gateserver/game_manager.cpp). */
module Balancing {
  import opened Bytes

  const SLOTS: nat := 0xff
  const BALANCE_TIME: nat := 40_000  // twenty periods of two seconds, in milliseconds

  // ---------- loads ----------

  /** The load of each registered gate, by slot. */
  type Loads = seq<Option<nat>>

  predicate Active(l: Loads, i: int) {
    0 <= i < |l| && l[i].Some?
  }

  /** The least loaded gate, the first of them on a tie. */
  ghost predicate IsIdle(l: Loads, i: nat) {
    && Active(l, i)
    && (forall j :: Active(l, j) ==> l[i].value <= l[j].value)
    && (forall j :: Active(l, j) && j < i ==> l[i].value < l[j].value)
  }

  /** The idle gate of the first n slots. */
  function IdleOf(l: Loads, n: nat): (i: Option<nat>)
    requires n <= |l|
    ensures i.Some? ==> i.value < n && IsIdle(l[..n], i.value)
    ensures i == None ==> forall j :: 0 <= j < n ==> l[j] == None
  {
    if n == 0 then None
    else
      var best := IdleOf(l, n - 1);
      if l[n - 1].Some? && (best == None || l[best.value].value > l[n - 1].value) then Some(n - 1) else best
  }

  /** giveUserToGate: the idle gate's load grows by one. */
  function Give(l: Loads): (r: Loads)
    ensures |r| == |l|
  {
    match IdleOf(l, |l|)
    case None => l
    case Some(i) => l[i := Some(l[i].value + 1)]
  }

  function GiveMany(l: Loads, k: nat): (r: Loads)
    ensures |r| == |l|
  {
    if k == 0 then l else Give(GiveMany(l, k - 1))
  }

  /** No gate carries more than d users more than another. */
  ghost predicate Within(l: Loads, d: nat) {
    forall i, j :: Active(l, i) && Active(l, j) ==> l[i].value <= l[j].value + d
  }

  lemma IdleIs(l: Loads)
    ensures match IdleOf(l, |l|)
      case None => forall j :: !Active(l, j)
      case Some(i) => Active(l, i) && IsIdle(l, i)
  {
    var o := IdleOf(l, |l|);
    assert l[..|l|] == l;
    assert o.Some? ==> IsIdle(l, o.value);
    hide IdleOf;
  }

  lemma GiveIs(l: Loads)
    ensures match IdleOf(l, |l|)
      case None => (forall j :: !Active(l, j)) && Give(l) == l
      case Some(i) => Active(l, i) && IsIdle(l, i) && Give(l) == l[i := Some(l[i].value + 1)]
    ensures forall i :: Active(Give(l), i) <==> Active(l, i)
  {
    hide IdleOf, IsIdle;
    IdleIs(l);
  }

  /** Giving never widens the gap between gates, beyond one. */
  lemma GiveKeepsWithin(l: Loads, d: nat)
    requires Within(l, d) && d >= 1
    ensures Within(Give(l), d)
  {
    GiveIs(l);
    hide IdleOf, Give;
  }

  /** Over any run of logins, with no report and no expiry, the gap between the most and the least loaded gate never
      exceeds the larger of its initial value and one. */
  lemma {:induction false} GapBounded(l: Loads, d: nat, k: nat)
    requires Within(l, d)
    ensures Within(GiveMany(l, k), if d < 1 then 1 else d)
  {
    if k > 0 {
      GapBounded(l, d, k - 1);
      GiveKeepsWithin(GiveMany(l, k - 1), if d < 1 then 1 else d);
    }
  }

  function Total(l: Loads): nat {
    if l == [] then 0 else Total(l[..|l| - 1]) + l[|l| - 1].GetOr(0)
  }

  lemma {:induction false} TotalUpdate(l: Loads, i: nat, v: nat)
    requires Active(l, i)
    ensures Total(l[i := Some(v)]) == Total(l) - l[i].value + v
  {
    var r := l[i := Some(v)];
    if i < |l| - 1 {
      TotalUpdate(l[..|l| - 1], i, v);
      assert r[..|l| - 1] == l[..|l| - 1][i := Some(v)];
    } else {
      assert r[..|l| - 1] == l[..|l| - 1];
    }
  }

  lemma GiveOnce(l: Loads)
    requires exists i :: Active(l, i)
    ensures Total(Give(l)) == Total(l) + 1
    ensures forall i :: Active(l, i) ==> Active(Give(l), i) && Give(l)[i].value >= l[i].value
  {
    GiveIs(l);
    hide IdleOf, Give, Total;
    var i := IdleOf(l, |l|).value;
    TotalUpdate(l, i, l[i].value + 1);
  }

  /** Every login is given to exactly one gate, as long as there is one. */
  lemma {:induction false} GiveConserves(l: Loads, k: nat)
    requires exists i :: Active(l, i)
    ensures Total(GiveMany(l, k)) == Total(l) + k
    ensures forall i :: Active(l, i) ==> Active(GiveMany(l, k), i) && GiveMany(l, k)[i].value >= l[i].value
  {
    hide IdleOf, Give, Total;
    if k > 0 {
      GiveConserves(l, k - 1);
      GiveOnce(GiveMany(l, k - 1));
    }
  }

  ghost predicate Under(l: Loads, top: nat) {
    forall i :: Active(l, i) ==> l[i].value <= top
  }

  function Room(x: Option<nat>, top: nat): nat {
    if x.Some? && x.value < top then top - x.value else 0
  }

  /** How many users it takes to fill every gate up to `top`. */
  function Slack(l: Loads, top: nat): nat {
    if l == [] then 0 else Slack(l[..|l| - 1], top) + Room(l[|l| - 1], top)
  }

  lemma {:induction false} SlackUpdate(l: Loads, top: nat, i: nat, v: Option<nat>)
    requires i < |l|
    ensures Slack(l[i := v], top) + Room(l[i], top) == Slack(l, top) + Room(v, top)
  {
    var n, r := |l| - 1, l[i := v];
    hide Room;
    if i < n {
      SlackUpdate(l[..n], top, i, v);
      assert r[..n] == l[..n][i := v];
    } else {
      assert r[..n] == l[..n];
    }
  }

  lemma {:induction false} NoSlack(l: Loads, top: nat)
    ensures Slack(l, top) == 0 <==> forall i :: Active(l, i) ==> l[i].value >= top
  {
    if l != [] {
      var n := |l| - 1;
      var r := l[..n];
      assert forall i :: Active(r, i) ==> Active(l, i) && r[i] == l[i];
      assert forall i :: Active(l, i) && i < n ==> Active(r, i);
      assert l[n].Some? ==> Active(l, n);
      NoSlack(r, top);
    }
  }

  /** Uneven gates level out: after exactly as many logins as it takes to fill every gate up to a common height, every
      gate is at that height. */
  lemma {:induction false} LevelsOut(l: Loads, top: nat, k: nat)
    requires Under(l, top) && k == Slack(l, top)
    ensures forall i :: Active(l, i) ==> GiveMany(l, k)[i] == Some(top)
    decreases k
  {
    if k == 0 {
      NoSlack(l, top);
    } else {
      hide IdleOf, Slack, Give, Under;
      GiveIs(l);
      GiveFills(l, top);
      LevelsOut(Give(l), top, k - 1);
      GiveFirst(l, k);
    }
  }

  /** A user given while there is slack takes up one of it. */
  lemma GiveFills(l: Loads, top: nat)
    requires Under(l, top) && Slack(l, top) > 0
    ensures Under(Give(l), top) && Slack(Give(l), top) == Slack(l, top) - 1
  {
    hide IdleOf, Slack, Give;
    NoSlack(l, top);
    GiveIs(l);
    var i := IdleOf(l, |l|).value;
    SlackUpdate(l, top, i, Some(l[i].value + 1));
  }

  lemma {:induction false} GiveFirst(l: Loads, k: nat)
    requires k > 0
    ensures GiveMany(l, k) == GiveMany(Give(l), k - 1)
  {
    if k > 1 {
      GiveFirst(l, k - 1);
    }
  }

  // ---------- recent hand-overs ----------

  /** The entries of the last BALANCE_TIME milliseconds. */
  function Recent(now: nat, times: seq<nat>): (r: seq<nat>)
    ensures forall t :: t in r ==> t in times && now <= BALANCE_TIME + t
    ensures |r| <= |times|
  {
    if times == [] then []
    else
      var r := Recent(now, times[..|times| - 1]);
      var t := times[|times| - 1];
      if now > BALANCE_TIME + t then r else r + [t]
  }

  lemma RecentSnoc(now: nat, times: seq<nat>, t: nat)
    ensures Recent(now, times + [t]) == Recent(now, times) + if now > BALANCE_TIME + t then [] else [t]
  {
    assert (times + [t])[..|times|] == times;
  }

  lemma {:induction false} RecentOfRecent(now: nat, later: nat, times: seq<nat>)
    requires now <= later
    ensures Recent(later, Recent(now, times)) == Recent(later, times)
  {
    if times != [] {
      var r, t := times[..|times| - 1], times[|times| - 1];
      RecentOfRecent(now, later, r);
      assert times == r + [t];
      RecentSnoc(now, r, t);
      RecentSnoc(later, r, t);
      RecentSnoc(later, Recent(now, r), t);
      hide Recent;
    }
  }

  /** Each entry is kept as often as it was recorded while it is recent, and not at all afterwards. */
  lemma {:induction false} RecentCounts(now: nat, times: seq<nat>, t: nat)
    ensures multiset(Recent(now, times))[t] == if now > BALANCE_TIME + t then 0 else multiset(times)[t]
  {
    if times != [] {
      var r, x := times[..|times| - 1], times[|times| - 1];
      RecentCounts(now, r, t);
      assert times == r + [x];
      RecentSnoc(now, r, x);
      hide Recent;
    }
  }

  /** What is kept is what is at most forty seconds old. */
  lemma RecentExactly(now: nat, times: seq<nat>)
    ensures forall t :: t in Recent(now, times) <==> t in times && now <= t + 40_000
  {
    hide Recent;
    forall t: nat
      ensures t in Recent(now, times) <==> t in times && now <= t + 40_000
    {
      RecentCounts(now, times, t);
      assert t in Recent(now, times) <==> multiset(Recent(now, times))[t] > 0;
      assert t in times <==> multiset(times)[t] > 0;
    }
  }

  /** How often the timer fires does not matter: what one later cleanup keeps, it keeps after any earlier one - and
      nothing that is still recent is ever dropped. */
  lemma RecentTwice(now: nat, later: nat, times: seq<nat>)
    requires now <= later
    ensures Recent(later, Recent(now, times)) == Recent(later, times)
    ensures multiset(Recent(now, times)) <= multiset(times)
    ensures forall t :: t in times && now <= BALANCE_TIME + t ==> multiset(Recent(now, times))[t] == multiset(times)[t]
  {
    hide Recent;
    RecentOfRecent(now, later, times);
    forall t: nat
      ensures multiset(Recent(now, times))[t] == if now > BALANCE_TIME + t then 0 else multiset(times)[t]
    {
      RecentCounts(now, times, t);
    }
  }

  /** The login server's end of a gate connection. */
  class GateSession {
    const id: nat  // under which it registered
    var onlines: nat
    var balance: seq<nat>

    constructor (id: nat, onlines: nat)
      ensures this.id == id && this.onlines == onlines && balance == []
    {
      this.id, this.onlines, balance := id, onlines, [];
    }

    /** getBalenceCount. */
    function Count(): nat
      reads this
    {
      onlines + |balance|
    }

    /** addBalenceTime. */
    method AddBalanceTime(now: nat)
      modifies this`balance
      ensures balance == old(balance) + [now]
    {
      balance := balance + [now];
    }

    /** balenceInfoEvent. */
    method BalanceInfoEvent(now: nat)
      modifies this`balance
      ensures balance == Recent(now, old(balance))
      ensures forall t :: t in balance <==> t in old(balance) && now <= t + 40_000
    {
      RecentExactly(now, balance);
      var recent: seq<nat> := [];
      var i := 0;
      while i < |balance|
        invariant 0 <= i <= |balance| && balance == old(balance)
        invariant recent == Recent(now, balance[..i])
      {
        assert balance[..i + 1][..i] == balance[..i];
        if now > BALANCE_TIME + balance[i] {
        } else {
          recent := recent + [balance[i]];
        }
        i := i + 1;
      }
      assert balance[..i] == balance;
      balance := [];
      i := 0;
      while i < |recent|
        invariant 0 <= i <= |recent| && balance == recent[..i]
      {
        balance := balance + [recent[i]];
        i := i + 1;
      }
    }
  }

  class Account {
    const id: nat
    const tran: nat
    var gate: nat

    constructor (id: nat, tran: nat, gate: nat)
      ensures this.id == id && this.tran == tran && this.gate == gate
    {
      this.id, this.tran, this.gate := id, tran, gate;
    }
  }

  /** A user's session with the login server. */
  class LoginSession {
    var account: nat
    var waitsForGate: bool

    constructor ()
      ensures account == 0 && !waitsForGate
    {
      account, waitsForGate := 0, false;
    }
  }

  /** MsgLN2GTUserLogin to the gate in a slot. */
  datatype UserLogin = UserLogin(slot: nat, account: nat, tran: nat)

  /** The login server's gate manager. */
  class GateManager {
    const gates: array<GateSession?>
    var waiting: map<nat, LoginSession>  // m_WaitSessions, by transaction id
    var outbox: seq<UserLogin>

    /** Slots hold different sessions. */
    ghost predicate Valid()
      reads gates
    {
      && gates.Length == SLOTS
      && (forall i, j :: 0 <= i < j < SLOTS && gates[i] != null ==> gates[i] != gates[j])
    }

    ghost function LoadsOf(): (l: Loads)
      reads gates, gates[..]
      ensures |l| == gates.Length
    {
      seq(gates.Length, i requires 0 <= i < gates.Length reads gates, gates[..] =>
        if gates[i] == null then None else Some(gates[i].Count()))
    }

    constructor ()
      ensures Valid() && fresh(gates) && (forall i :: 0 <= i < SLOTS ==> gates[i] == null) && waiting == map[] && outbox == []
    {
      gates := new GateSession?[SLOTS](_ => null);
      waiting, outbox := map[], [];
    }

    /** Slot s holds the gate with the fewest users, reported or handed over lately, and the first of those. */
    ghost predicate Lightest(s: nat)
      requires gates.Length == SLOTS && s < SLOTS
      reads gates, gates[..]
    {
      gates[s] != null && forall j :: 0 <= j < SLOTS && gates[j] != null ==>
        && gates[s].onlines + |gates[s].balance| <= gates[j].onlines + |gates[j].balance|
        && (j < s ==> gates[s].onlines + |gates[s].balance| < gates[j].onlines + |gates[j].balance|)
    }

    lemma IdleIsLightest(s: nat)
      requires gates.Length == SLOTS && IsIdle(LoadsOf(), s)
      ensures s < SLOTS && Lightest(s)
    {
      forall j | 0 <= j < SLOTS && gates[j] != null
        ensures Active(LoadsOf(), j)
      {}
    }

    /** getIdleGate. */
    method GetIdleGate() returns (slot: Option<nat>)
      requires Valid()
      ensures slot == IdleOf(LoadsOf(), SLOTS)
      ensures slot == None <==> forall j :: 0 <= j < SLOTS ==> gates[j] == null
      ensures slot.Some? ==> slot.value < SLOTS && Lightest(slot.value)
    {
      IdleIs(LoadsOf());
      slot := None;
      var i := 0;
      while i < SLOTS
        invariant 0 <= i <= SLOTS
        invariant slot == IdleOf(LoadsOf(), i)
      {
        if gates[i] != null {
          if slot == None {
            slot := Some(i);
          } else if gates[slot.value].Count() > gates[i].Count() {
            slot := Some(i);
          }
        }
        i := i + 1;
      }
      if slot.Some? {
        IdleIsLightest(slot.value);
      } else {
        NoneRegistered();
      }
    }

    lemma NoneRegistered()
      requires gates.Length == SLOTS && forall j :: !Active(LoadsOf(), j)
      ensures forall j :: 0 <= j < SLOTS ==> gates[j] == null
    {
      forall j | 0 <= j < SLOTS && gates[j] != null
        ensures Active(LoadsOf(), j)
      {}
    }

    /** The hand-over is recorded at the idle gate. */
    method Record(now: nat) returns (slot: Option<nat>)
      requires Valid()
      modifies gates[..]
      ensures Valid() && LoadsOf() == Give(old(LoadsOf()))
      ensures slot == IdleOf(old(LoadsOf()), SLOTS)
      ensures slot.Some? <==> exists i :: Active(old(LoadsOf()), i)
      ensures slot.Some? ==> IsIdle(old(LoadsOf()), slot.value) && gates[slot.value] != null && old(Lightest(slot.value))
      ensures slot.Some? ==> gates[slot.value].balance == old(gates[slot.value].balance) + [now]
      ensures forall j :: 0 <= j < SLOTS && gates[j] != null ==>
        gates[j].onlines == old(gates[j].onlines) && (slot != Some(j) ==> gates[j].balance == old(gates[j].balance))
    {
      hide IdleOf, Give, IsIdle, Lightest;
      GiveIs(LoadsOf());
      slot := GetIdleGate();
      if slot.Some? {
        gates[slot.value].AddBalanceTime(now);
        assert forall i :: 0 <= i < SLOTS && i != slot.value ==> LoadsOf()[i] == old(LoadsOf())[i];
      }
    }

    /** giveUserToGate: the idle gate takes the user, and is told so; the user's session waits for its answer. */
    method GiveUserToGate(account: Account?, session: LoginSession?, now: nat) returns (given: bool)
      requires Valid()
      modifies this`waiting, this`outbox, gates[..], {account}, {session}
      ensures Valid()
      ensures given <==> account != null && session != null && exists i :: Active(old(LoadsOf()), i)
      ensures LoadsOf() == if account != null && session != null then Give(old(LoadsOf())) else old(LoadsOf())
      ensures forall j :: 0 <= j < SLOTS && gates[j] != null ==>
        && gates[j].onlines == old(gates[j].onlines)
        && (!given || IdleOf(old(LoadsOf()), SLOTS) != Some(j) ==> gates[j].balance == old(gates[j].balance))
      ensures !given ==> waiting == old(waiting) && outbox == old(outbox)
      ensures !given && account != null ==> unchanged(account)
      ensures !given && session != null ==> unchanged(session)
      ensures given ==> var slot := IdleOf(old(LoadsOf()), SLOTS);
        && slot.Some? && IsIdle(old(LoadsOf()), slot.value) && gates[slot.value] != null && old(Lightest(slot.value))
        && gates[slot.value].balance == old(gates[slot.value].balance) + [now]
        && account.gate == gates[slot.value].id && session.account == account.id && session.waitsForGate
        && waiting == (if account.tran in old(waiting) then old(waiting) else old(waiting)[account.tran := session])
        && outbox == old(outbox) + [UserLogin(slot.value, account.id, account.tran)]
    {
      if account == null || session == null {
        return false;
      }
      hide IdleOf, Give, IsIdle, Lightest;
      var slot := Record(now);
      if slot == None {
        assert LoadsOf() == old(LoadsOf()) by { GiveNone(old(LoadsOf())); }
        return false;
      }
      HandOver(account, session, slot.value, gates[slot.value].id);
      given := true;
    }

    /** The account learns its gate, the session waits for the answer, the gate is told. */
    method HandOver(account: Account, session: LoginSession, slot: nat, gate: nat)
      modifies this`waiting, this`outbox, account, session
      ensures account.gate == gate && session.account == account.id && session.waitsForGate
      ensures waiting == if account.tran in old(waiting) then old(waiting) else old(waiting)[account.tran := session]
      ensures outbox == old(outbox) + [UserLogin(slot, account.id, account.tran)]
    {
      account.gate := gate;
      session.account := account.id;
      session.waitsForGate := true;
      if account.tran !in waiting {
        waiting := waiting[account.tran := session];
      }
      outbox := outbox + [UserLogin(slot, account.id, account.tran)];
    }
  }

  lemma GiveNone(l: Loads)
    requires IdleOf(l, |l|) == None
    ensures Give(l) == l
  {}

  // ---------- game servers ----------

  /** Which game server a gate chooses: the first one with room, otherwise the first of those with the fewest players. */
  ghost predicate Chosen(l: Loads, limit: nat, i: nat) {
    && Active(l, i)
    && (forall j :: Active(l, j) && j < i ==> l[j].value >= limit && l[i].value < l[j].value)
    && (l[i].value >= limit ==> forall j :: Active(l, j) ==> l[i].value <= l[j].value)
  }

  /** There is exactly one, unless no game server is active. */
  lemma ChosenIsUnique(l: Loads, limit: nat, i: nat, j: nat)
    requires Chosen(l, limit, i) && Chosen(l, limit, j)
    ensures i == j
  {}

  /** In the words of the rule: the lowest-indexed active server below the limit if there is one, otherwise the
      lowest-indexed one with the fewest players. */
  lemma ChosenIs(l: Loads, limit: nat, i: nat)
    ensures Chosen(l, limit, i) <==>
      if exists j :: Active(l, j) && l[j].value < limit
      then Active(l, i) && l[i].value < limit && forall j :: Active(l, j) && j < i ==> l[j].value >= limit
      else IsIdle(l, i)
  {
    if Chosen(l, limit, i) && exists j :: Active(l, j) && l[j].value < limit {
      var j :| Active(l, j) && l[j].value < limit;
      assert l[i].value < limit;
    }
  }

  /** How the least loaded of the first slots changes with the next one. */
  lemma IdleStep(l: Loads, i: nat, slot: Option<nat>)
    requires i < |l| && if slot.Some? then IsIdle(l[..i], slot.value) else forall j :: !Active(l[..i], j)
    ensures slot.Some? ==> slot.value < i
    ensures slot.Some? && l[i].Some? && l[slot.value].value > l[i].value ==> IsIdle(l[..i + 1], i)
    ensures slot.Some? && (l[i].Some? ==> l[slot.value].value <= l[i].value) ==> IsIdle(l[..i + 1], slot.value)
    ensures slot == None && l[i].Some? ==> IsIdle(l[..i + 1], i)
  {
    forall j | Active(l[..i + 1], j)
      ensures j == i || (Active(l[..i], j) && l[..i][j] == l[j])
    {}
  }

  class GameClient {
    var onlines: nat

    constructor (onlines: nat)
      ensures this.onlines == onlines
    {
      this.onlines := onlines;
    }
  }

  /** The gate's game manager. */
  class GameManager {
    const active: array<GameClient?>

    constructor ()
      ensures active.Length == SLOTS && fresh(active) && forall i :: 0 <= i < SLOTS ==> active[i] == null
    {
      active := new GameClient?[SLOTS](_ => null);
    }

    ghost function LoadsOf(): (l: Loads)
      reads this, active, active[..]
      ensures |l| == active.Length
    {
      seq(active.Length, i requires 0 <= i < active.Length reads this, active, active[..] =>
        if active[i] == null then None else Some(active[i].onlines))
    }

    /** getIdleGameClient: leaves the loop as soon as the best server so far has room. */
    method GetIdleGameClient(limit: nat) returns (slot: Option<nat>)
      requires active.Length == SLOTS
      ensures slot == None <==> forall i :: !Active(LoadsOf(), i)
      ensures slot.Some? ==> Chosen(LoadsOf(), limit, slot.value)
    {
      slot := None;
      var i := 0;
      while i < SLOTS
        invariant 0 <= i <= SLOTS
        invariant slot == None ==> forall j :: 0 <= j < i ==> active[j] == null
        invariant slot.Some? ==> slot.value < i && IsIdle(LoadsOf()[..i], slot.value) && active[slot.value].onlines >= limit
      {
        IdleStep(LoadsOf(), i, slot);
        if active[i] != null {
          assert Active(LoadsOf(), i);
          if slot == None {
            slot := Some(i);
            if active[i].onlines < limit {
              return;
            }
          } else {
            if active[slot.value].onlines > active[i].onlines {
              slot := Some(i);
              if active[i].onlines < limit {
                return;
              }
            }
          }
        }
        i := i + 1;
      }
      assert LoadsOf()[..i] == LoadsOf();
    }
  }
}
