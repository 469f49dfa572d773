/** The double-buffered queue found in call_back_mgr, task_thread, tcp_server and tcp_client: producers push under a lock
    onto the current queue; one consumer swaps the queues under the lock and drains the old one without it. */
module DoubleBuffer {

  // ---------- all interleavings ----------

  /**
   * proc: whether the consumer is draining the other queue, and busy: whether it has handled that queue's front without
   * having popped it yet. pushed and consumed are the history; a consumed item is marked with whether it was passed on
   * (tcp_server drops the messages of sessions that are gone).
   */
  datatype State<T> = State(queues: seq<seq<T>>, current: nat, draining: bool, busy: bool, pushed: seq<T>, consumed: seq<(T, bool)>)

  datatype Step<T> =
    | Push(x: T)             // any thread, also from inside a callback
    | Swap                   // the consumer, on a non-empty current queue
    | Handle(passOn: bool)   // the consumer, on the front of the drained queue
    | Pop
    | Finish                 // the drained queue is empty

  predicate Shape<T>(s: State<T>) {
    |s.queues| == 2 && s.current < 2
  }

  function Other<T>(s: State<T>): nat
    requires Shape(s)
  {
    1 - s.current
  }

  predicate Can<T>(s: State<T>, e: Step<T>)
    requires Shape(s)
  {
    match e
    case Push(x) => true
    case Swap => !s.draining && s.queues[s.current] != []
    case Handle(passOn) => s.draining && !s.busy && s.queues[Other(s)] != []
    case Pop => s.draining && s.busy && s.queues[Other(s)] != []
    case Finish => s.draining && !s.busy && s.queues[Other(s)] == []
  }

  function Next<T>(s: State<T>, e: Step<T>): State<T>
    requires Shape(s) && Can(s, e)
  {
    match e
    case Push(x) => s.(queues := s.queues[s.current := s.queues[s.current] + [x]], pushed := s.pushed + [x])
    case Swap => s.(current := Other(s), draining := true)
    case Handle(passOn) => s.(busy := true, consumed := s.consumed + [(s.queues[Other(s)][0], passOn)])
    case Pop => s.(busy := false, queues := s.queues[Other(s) := s.queues[Other(s)][1..]])
    case Finish => s.(draining := false)
  }

  function Items<T>(c: seq<(T, bool)>): (r: seq<T>)
    ensures |r| == |c|
    ensures forall i :: 0 <= i < |c| ==> r[i] == c[i].0
  {
    seq(|c|, i requires 0 <= i < |c| => c[i].0)
  }

  /** What the consumer has taken over and not handled yet. */
  function Rest<T>(s: State<T>): seq<T>
    requires Shape(s) && (s.busy ==> s.queues[Other(s)] != [])
  {
    if s.busy then s.queues[Other(s)][1..] else s.queues[Other(s)]
  }

  /** The two queues are one queue: what was consumed, what is being drained and what is current are everything pushed,
      in order. */
  predicate OneQueue<T(==)>(s: State<T>) {
    && Shape(s)
    && (s.busy ==> s.draining && s.queues[Other(s)] != [])
    && (!s.draining ==> s.queues[Other(s)] == [])
    && Items(s.consumed) + Rest(s) + s.queues[s.current] == s.pushed
  }

  lemma StepKeepsOneQueue<T>(s: State<T>, e: Step<T>)
    requires OneQueue(s) && Can(s, e)
    ensures OneQueue(Next(s, e))
  {
    var t := Next(s, e);
    match e
    case Push(x) =>
      assert Items(s.consumed) + Rest(s) + (s.queues[s.current] + [x]) == (Items(s.consumed) + Rest(s) + s.queues[s.current]) + [x];
    case Swap =>
      assert Items(s.consumed) + [] + s.queues[s.current] == Items(s.consumed) + s.queues[s.current] + [];
    case Handle(passOn) =>
      var q := s.queues[Other(s)];
      assert Items(t.consumed) == Items(s.consumed) + [q[0]];
      assert [q[0]] + q[1..] == q;
      assert Items(s.consumed) + [q[0]] + q[1..] == Items(s.consumed) + q;
    case Pop =>
    case Finish =>
  }

  /** The states along a run from an empty buffer. */
  predicate IsRun<T(==)>(states: seq<State<T>>, steps: seq<Step<T>>) {
    && |states| == |steps| + 1
    && Shape(states[0]) && states[0] == State([[], []], states[0].current, false, false, [], [])
    && forall i :: 0 <= i < |steps| ==> Moves(states[i], steps[i], states[i + 1])
  }

  predicate Moves<T(==)>(s: State<T>, e: Step<T>, t: State<T>) {
    Shape(s) && Can(s, e) && t == Next(s, e)
  }

  lemma {:induction false} RunKeepsOneQueue<T>(states: seq<State<T>>, steps: seq<Step<T>>, k: nat)
    requires IsRun(states, steps) && k <= |steps|
    ensures OneQueue(states[k])
  {
    if k > 0 {
      RunKeepsOneQueue(states, steps, k - 1);
      assert Moves(states[k - 1], steps[k - 1], states[k]);
      StepKeepsOneQueue(states[k - 1], steps[k - 1]);
    }
  }

  /** First in, first out, each item once: along every interleaving the consumed items are a prefix of those pushed, and
      all of them when the consumer rests on an empty buffer. */
  lemma FirstInFirstOut<T>(states: seq<State<T>>, steps: seq<Step<T>>, k: nat)
    requires IsRun(states, steps) && k <= |steps|
    ensures Shape(states[k])
    ensures var s := states[k];
      && Items(s.consumed) <= s.pushed
      && (!s.draining && s.queues[s.current] == [] ==> Items(s.consumed) == s.pushed)
  {
    RunKeepsOneQueue(states, steps, k);
  }

  /** Along every interleaving a swap makes an empty queue current, and a push leaves the queue being drained alone. */
  lemma DrainedAlone<T>(states: seq<State<T>>, steps: seq<Step<T>>, k: nat)
    requires IsRun(states, steps) && k < |steps|
    ensures steps[k] == Swap ==> states[k + 1].queues[states[k + 1].current] == []
    ensures steps[k].Push? && states[k].draining ==>
      states[k + 1].draining && states[k + 1].queues[Other(states[k + 1])] == states[k].queues[Other(states[k])]
  {
    RunKeepsOneQueue(states, steps, k);
    assert Moves(states[k], steps[k], states[k + 1]);
  }

  lemma RunMoves<T>(states: seq<State<T>>, steps: seq<Step<T>>, i: nat)
    requires IsRun(states, steps) && i < |steps|
    ensures Moves(states[i], steps[i], states[i + 1])
  {}

  lemma SwapStep<T>(s: State<T>, t: State<T>)
    requires OneQueue(s) && Moves(s, Swap, t)
    ensures OneQueue(t) && t.draining && Items(t.consumed) + Rest(t) == Items(s.consumed) + s.queues[s.current]
  {
    StepKeepsOneQueue(s, Swap);
    hide Items;
  }

  lemma DrainStep<T>(s: State<T>, e: Step<T>, t: State<T>)
    requires OneQueue(s) && s.draining && Moves(s, e, t) && e != Finish
    ensures OneQueue(t) && t.draining && Items(t.consumed) + Rest(t) == Items(s.consumed) + Rest(s)
  {
    StepKeepsOneQueue(s, e);
    if e.Handle? {
      var q := s.queues[Other(s)];
      assert Items(t.consumed) == Items(s.consumed) + [q[0]];
      assert [q[0]] + q[1..] == q;
    }
  }

  /** A drain handles exactly what was in the queue at its swap, however many items are pushed meanwhile: as long as the
      consumer has not finished, a front part of that queue has been handled and the rest is left. */
  lemma {:induction false} DrainHandlesTheSwapped<T>(states: seq<State<T>>, steps: seq<Step<T>>, start: nat, k: nat)
    requires IsRun(states, steps) && start < k <= |steps| && steps[start] == Swap
    requires forall i :: start <= i < k ==> steps[i] != Finish
    ensures OneQueue(states[start]) && OneQueue(states[k]) && states[k].draining
    ensures Items(states[k].consumed) + Rest(states[k]) == Items(states[start].consumed) + states[start].queues[states[start].current]
  {
    assert |states| == |steps| + 1;
    hide IsRun, Moves, OneQueue, Rest, Items;
    RunKeepsOneQueue(states, steps, start);
    RunMoves(states, steps, k - 1);
    if k > start + 1 {
      DrainHandlesTheSwapped(states, steps, start, k - 1);
      DrainStep(states[k - 1], steps[k - 1], states[k]);
    } else {
      SwapStep(states[start], states[k]);
    }
  }

  /** So when a drain finishes it has handled exactly the queue it swapped out. */
  lemma DrainEndsWithTheSwapped<T>(states: seq<State<T>>, steps: seq<Step<T>>, start: nat, k: nat)
    requires IsRun(states, steps) && start < k < |steps| && steps[start] == Swap && steps[k] == Finish
    requires forall i :: start <= i < k ==> steps[i] != Finish
    ensures Shape(states[start])
    ensures Items(states[k + 1].consumed) == Items(states[start].consumed) + states[start].queues[states[start].current]
  {
    DrainHandlesTheSwapped(states, steps, start, k);
    assert Moves(states[k], steps[k], states[k + 1]);
  }

  /** The consumer's remaining work in a drain. */
  function Work<T>(s: State<T>): nat
    requires OneQueue(s)
  {
    if !s.draining then 0 else 2 * |s.queues[Other(s)]| + (if s.busy then 0 else 1)
  }

  /** A drain ends: pushes do not add to its work, each step of the consumer takes some away, and there is always one
      it can take. */
  lemma DrainEnds<T>(s: State<T>, e: Step<T>)
    requires OneQueue(s) && s.draining && Can(s, e)
    ensures OneQueue(Next(s, e))
    ensures if e.Push? then Work(Next(s, e)) == Work(s) else Work(Next(s, e)) < Work(s)
    ensures Can(s, Handle(true)) || Can(s, Pop) || Can(s, Finish)
  {
    StepKeepsOneQueue(s, e);
  }

  // ---------- the object ----------

  /** All that a drained queue's callbacks push, in order. */
  function Pushes<T>(q: seq<T>, call: T -> seq<T>): seq<T> {
    if q == [] then [] else Pushes(q[..|q| - 1], call) + call(q[|q| - 1])
  }

  lemma PushesNext<T>(q: seq<T>, n: nat, call: T -> seq<T>)
    requires n < |q|
    ensures Pushes(q[..n + 1], call) == Pushes(q[..n], call) + call(q[n])
  {
    assert q[..n + 1][..n] == q[..n];
  }

  lemma ItemsNext<T>(c: seq<(T, bool)>, q: seq<T>, n: nat, before: seq<T>)
    requires n < |q| && Items(c) == before + q[..n]
    ensures Items(c + [(q[n], true)]) == before + q[..n + 1]
  {
    assert Items(c + [(q[n], true)]) == Items(c) + [q[n]];
    assert q[..n + 1] == q[..n] + [q[n]];
  }

  class CallBackMgr<T(==)> {
    const queues: array<seq<T>>
    var current: nat
    ghost var pushed: seq<T>
    ghost var consumed: seq<(T, bool)>

    /** Between polls. */
    ghost function View(): State<T>
      reads this, queues
    {
      State(queues[..], current, false, false, pushed, consumed)
    }

    ghost predicate Valid()
      reads this, queues
    {
      queues.Length == 2 && OneQueue(View())
    }

    constructor ()
      ensures Valid() && fresh(queues) && View() == State([[], []], 0, false, false, [], [])
    {
      queues := new seq<T>[2](_ => []);
      current, pushed, consumed := 0, [], [];
      new;
      assert queues[..] == [[], []];
    }

    /** add_cb, push_message, push. */
    method Push(x: T)
      requires queues.Length == 2 && current < 2
      modifies queues, this`pushed
      ensures View() == Next(old(View()), Step.Push(x))
      ensures queues[..] == old(queues[..])[current := old(queues[current]) + [x]] && pushed == old(pushed) + [x]
    {
      queues[current] := queues[current] + [x];
      pushed := pushed + [x];
    }

    /** Pushes made by one callback. */
    method PushAll(xs: seq<T>)
      requires queues.Length == 2 && current < 2
      modifies queues, this`pushed
      ensures queues[current] == old(queues[current]) + xs && queues[1 - current] == old(queues[1 - current])
      ensures pushed == old(pushed) + xs
    {
      var i := 0;
      while i < |xs|
        invariant 0 <= i <= |xs|
        invariant queues[current] == old(queues[current]) + xs[..i] && queues[1 - current] == old(queues[1 - current])
        invariant pushed == old(pushed) + xs[..i]
      {
        Push(xs[i]);
        i := i + 1;
        assert xs[..i] == xs[..i - 1] + [xs[i - 1]];
      }
      assert xs[..|xs|] == xs;
    }

    /** poll: runs every callback queued before the swap, once and in order; what they push waits for the next poll. */
    method Poll(call: T -> seq<T>)
      requires Valid()
      modifies queues, this
      ensures Valid()
      ensures var q := old(queues[current]);
        && Items(consumed) == Items(old(consumed)) + q
        && pushed == old(pushed) + Pushes(q, call)
        && queues[current] == Pushes(q, call) && queues[1 - current] == []
        && (q == [] ==> current == old(current)) && (q != [] ==> current == 1 - old(current))
    {
      if queues[current] == [] {
        return;
      }
      ghost var q, before := queues[current], Items(consumed);
      assert before + q == pushed;
      Drain(call);
      assert before + q + Pushes(q, call) == old(pushed) + Pushes(q, call);
    }

    method Drain(call: T -> seq<T>)
      requires queues.Length == 2 && current < 2 && queues[1 - current] == []
      modifies queues, this
      ensures current == 1 - old(current)
      ensures var q := old(queues[current]);
        && Items(consumed) == Items(old(consumed)) + q
        && pushed == old(pushed) + Pushes(q, call)
        && queues[current] == Pushes(q, call) && queues[1 - current] == []
    {
      ghost var q, before := queues[current], Items(consumed);
      ghost var done := 0;
      var proc := current;
      current := 1 - current;
      assert before == Items(consumed);
      hide Items, Pushes;
      assert Pushes(q[..0], call) == [] by { PushesNone(call); assert q[..0] == []; }
      assert before + q[..0] == before;
      while queues[proc] != []
        invariant 0 <= proc < 2 && current == 1 - proc
        invariant 0 <= done <= |q| && queues[proc] == q[done..]
        invariant queues[current] == Pushes(q[..done], call)
        invariant pushed == old(pushed) + Pushes(q[..done], call)
        invariant Items(consumed) == before + q[..done]
        decreases |queues[proc]|
      {
        var p := queues[proc][0];
        PushesNext(q, done, call);
        ItemsNext(consumed, q, done, before);
        PushAll(call(p));
        consumed := consumed + [(p, true)];
        queues[proc] := queues[proc][1..];
        done := done + 1;
      }
      assert q[..done] == q;
    }
  }

  lemma PushesNone<T>(call: T -> seq<T>)
    ensures Pushes([], call) == []
  {}
}
