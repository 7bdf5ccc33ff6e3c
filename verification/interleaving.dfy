/**
 * Several fibers sharing one pool. A fiber enters `hold` (Begin), either
 * suspends in the gate or takes a connection and starts its work; its work
 * later ends (Finish), which runs the release and resumes the head of the
 * queue. `disconnect` may run between any two events. Each event runs without
 * interruption, as the pool's `sync` blocks do on a single-threaded reactor.
 */
module Interleaving {
  import opened Wrappers
  import opened PoolModel

  /** Where a fiber that is inside `hold` stands. */
  datatype Phase =
    | Yielded                     // queued in the gate, waiting to be resumed
    | Working(conn: Option<Conn>) // running its work with the connection it popped

  datatype System = System(pool: PoolState, fibers: map<Token, Phase>)

  datatype Event =
    | Begin(tok: Token)
    | Finish(tok: Token, work: Outcome)
    | DisconnectAll(blockGiven: bool)

  /** A fresh pool with no fiber inside `hold`. */
  function Start(p: PoolState): System {
    System(p, map[])
  }

  /**
   * The resumed fiber carries on after `Fiber.yield`: it leaves the queue and
   * pops a connection (none when the stack is empty); no other fiber moves.
   */
  function Wake(p: PoolState, fibers: map<Token, Phase>, resumed: Option<Token>): (r: System)
    ensures r.fibers.Keys == fibers.Keys
    ensures forall t :: t in fibers && resumed != Some(t) ==> r.fibers[t] == fibers[t]
    ensures (resumed.None? || resumed.value !in fibers || fibers[resumed.value] != Yielded) ==> r == System(p, fibers)
    ensures resumed.Some? && resumed.value in fibers && fibers[resumed.value] == Yielded ==>
      && r.fibers[resumed.value].Working?
      && resumed.value !in r.pool.waiting
      && (r.fibers[resumed.value].conn.None? <==> p.available == [])
      && (r.fibers[resumed.value].conn.Some? ==> r.pool.available + [r.fibers[resumed.value].conn.value] == p.available)
      && r.pool == p.(available := r.pool.available, waiting := Delete(p.waiting, resumed.value))
  {
    if resumed.Some? && resumed.value in fibers && fibers[resumed.value] == Yielded then
      var a := AcquireStep(p, resumed.value);
      System(a.state, fibers[resumed.value := Working(a.conn)])
    else System(p, fibers)
  }

  /**
   * One event; an event its fiber cannot take part in (already inside `hold`,
   * or not working) changes nothing. A fiber entering `hold` joins the fibers
   * inside it, one finishing its work leaves, and `disconnect` empties the
   * idle stack without touching any fiber.
   */
  function Step(sys: System, e: Event): (r: System)
    ensures e.Begin? && e.tok in sys.fibers ==> r == sys
    ensures e.Begin? ==> e.tok in r.fibers && (forall t :: t in r.fibers <==> t in sys.fibers || t == e.tok)
    ensures e.Finish? && !(e.tok in sys.fibers && sys.fibers[e.tok].Working?) ==> r == sys
    ensures e.Finish? && e.tok in sys.fibers && sys.fibers[e.tok].Working? ==>
      e.tok !in r.fibers && (forall t :: t in r.fibers <==> t in sys.fibers && t != e.tok)
    ensures e.DisconnectAll? ==> r.fibers == sys.fibers && r.pool.available == [] && r.pool.waiting == sys.pool.waiting
  {
    match e
    case Begin(tok) =>
      if tok in sys.fibers then sys
      else
        var g := GateStep(sys.pool, tok);
        if g.suspended then System(g.state, sys.fibers[tok := Yielded])
        else
          var a := AcquireStep(g.state, tok);
          System(a.state, sys.fibers[tok := Working(a.conn)])
    case Finish(tok, work) =>
      if tok in sys.fibers && sys.fibers[tok].Working? then
        var rel := ReleaseStep(sys.pool, sys.fibers[tok].conn, work);
        Wake(rel.state, sys.fibers - {tok}, rel.resumed)
      else sys
    case DisconnectAll(blockGiven) =>
      System(DisconnectStep(sys.pool, blockGiven).state, sys.fibers)
  }

  /** The state after the events `es`, first to last. */
  function Run(sys: System, es: seq<Event>): System
    decreases |es|
  {
    if es == [] then sys else Step(Run(sys, es[..|es| - 1]), es[|es| - 1])
  }

  /**
   * What holds in every reachable state: the pool is well formed, nobody is
   * queued, every fiber inside `hold` is working with a real connection, no
   * borrowed connection is idle, and no connection is lent to two fibers.
   */
  ghost predicate Inv(sys: System) {
    && Wf(sys.pool)
    && sys.pool.waiting == []
    && (forall t :: t in sys.fibers ==>
          && sys.fibers[t].Working? && sys.fibers[t].conn.Some?
          && sys.fibers[t].conn.value !in sys.pool.available
          && sys.fibers[t].conn.value < sys.pool.nextId)
    && (forall t, u :: t in sys.fibers && u in sys.fibers && t != u ==> sys.fibers[t].conn != sys.fibers[u].conn)
  }

  lemma StartInv(p: PoolState)
    requires Wf(p) && p.waiting == []
    ensures Inv(Start(p))
  {
  }

  /** Lending a connection that is neither idle nor lent keeps the invariant. */
  lemma LendKeepsInv(pool: PoolState, fibers: map<Token, Phase>, tok: Token, c: Conn)
    requires Wf(pool) && pool.waiting == [] && tok !in fibers
    requires c !in pool.available && c < pool.nextId
    requires forall t :: t in fibers ==>
      && fibers[t].Working? && fibers[t].conn.Some?
      && fibers[t].conn.value !in pool.available
      && fibers[t].conn.value < pool.nextId
      && fibers[t].conn.value != c
    requires forall t, u :: t in fibers && u in fibers && t != u ==> fibers[t].conn != fibers[u].conn
    ensures Inv(System(pool, fibers[tok := Working(Some(c))]))
  {
  }

  /** Entering `hold` from a reachable state never suspends and lends a connection nobody else holds. */
  lemma BeginKeepsInv(sys: System, tok: Token)
    requires Inv(sys) && tok !in sys.fibers
    ensures var n := Step(sys, Begin(tok));
      && Inv(n)
      && tok in n.fibers && n.fibers[tok].Working? && n.fibers[tok].conn.Some?
      && (sys.pool.available == [] ==> n.fibers[tok].conn == Some(sys.pool.nextId) && n.pool.available == [])
      && (sys.pool.available != [] ==>
            && n.fibers[tok].conn == Some(Top(sys.pool.available))
            && n.pool.available + [Top(sys.pool.available)] == sys.pool.available)
      && (forall t :: t in sys.fibers ==> t in n.fibers && n.fibers[t] == sys.fibers[t])
  {
    var g := GateStep(sys.pool, tok);
    var a := AcquireStep(g.state, tok);
    assert !g.suspended && a.conn.Some?;
    var c := a.conn.value;
    assert Wf(a.state) && c !in a.state.available && c < a.state.nextId by {
      GateKeepsWf(sys.pool, tok);
      AcquireKeepsWf(g.state, tok);
    }
    assert forall t :: t in sys.fibers ==>
      sys.fibers[t].conn.value !in a.state.available && sys.fibers[t].conn.value != c
    by {
      assert a.state.available + [c] == g.state.available;
      assert forall x :: x in g.state.available ==> x in sys.pool.available || x == sys.pool.nextId;
    }
    LendKeepsInv(a.state, sys.fibers, tok, c);
  }

  /**
   * Ending the work of a fiber from a reachable state takes the fiber out of
   * `hold` and resumes nobody: its connection goes back on top of the idle
   * stack, or, after a fatal disconnect, is dropped and a fresh one is pushed
   * in its place.
   */
  lemma FinishKeepsInv(sys: System, tok: Token, work: Outcome)
    requires Inv(sys)
    ensures var n := Step(sys, Finish(tok, work));
      && Inv(n)
      && tok !in n.fibers
      && (forall t :: t in n.fibers ==> t in sys.fibers && n.fibers[t] == sys.fibers[t])
      && (tok !in sys.fibers ==> n == sys)
      && (tok in sys.fibers && work != FatalDisconnect ==>
            n.pool.available == sys.pool.available + [sys.fibers[tok].conn.value])
      && (tok in sys.fibers && work == FatalDisconnect ==>
            && n.pool.available == sys.pool.available + [sys.pool.nextId]
            && sys.fibers[tok].conn.value !in n.pool.available)
  {
    if tok in sys.fibers {
      var c := sys.fibers[tok].conn.value;
      var rel := ReleaseStep(sys.pool, sys.fibers[tok].conn, work);
      ReleaseKeepsWf(sys.pool, sys.fibers[tok].conn, work);
      assert rel.resumed == None;
      var n := Step(sys, Finish(tok, work));
      assert n == System(rel.state, sys.fibers - {tok});
      forall t | t in n.fibers
        ensures n.fibers[t].conn.value !in n.pool.available && n.fibers[t].conn.value < n.pool.nextId
      {
        assert n.fibers[t] == sys.fibers[t];
        assert sys.fibers[t].conn != sys.fibers[tok].conn;
      }
    }
  }

  lemma StepKeepsInv(sys: System, e: Event)
    requires Inv(sys)
    ensures Inv(Step(sys, e))
  {
    match e
    case Begin(tok) =>
      if tok !in sys.fibers {
        BeginKeepsInv(sys, tok);
      }
    case Finish(tok, work) =>
      FinishKeepsInv(sys, tok, work);
    case DisconnectAll(blockGiven) =>
      DisconnectKeepsWf(sys.pool, blockGiven);
  }

  lemma {:induction false} RunKeepsInv(sys: System, es: seq<Event>)
    requires Inv(sys)
    ensures Inv(Run(sys, es))
    decreases |es|
  {
    if es != [] {
      RunKeepsInv(sys, es[..|es| - 1]);
      StepKeepsInv(Run(sys, es[..|es| - 1]), es[|es| - 1]);
    }
  }

  /**
   * The waiting queue never holds anyone: from a freshly configured pool, after
   * any interleaving of `hold`s and `disconnect`s, the queue is empty, `size`
   * counts only idle connections, every fiber inside `hold` is working with a
   * real connection, and no connection is lent to two fibers or lent and idle
   * at once.
   */
  lemma QueueStaysEmpty(maxConnections: Option<int>, hasTeardown: bool, es: seq<Event>)
    requires Initial(maxConnections, hasTeardown).Success?
    ensures var sys := Run(Start(Initial(maxConnections, hasTeardown).value), es);
      && sys.pool.waiting == []
      && Size(sys.pool) == |sys.pool.available|
      && (forall t :: t in sys.fibers ==> sys.fibers[t].Working? && sys.fibers[t].conn.Some?)
      && (forall t :: t in sys.fibers ==> sys.fibers[t].conn.value !in sys.pool.available)
      && (forall t, u :: t in sys.fibers && u in sys.fibers && t != u ==> sys.fibers[t].conn != sys.fibers[u].conn)
  {
    var p := Initial(maxConnections, hasTeardown).value;
    StartInv(p);
    RunKeepsInv(Start(p), es);
  }

  /**
   * The idle count of a sequential `hold` does not survive interleaving: a
   * `disconnect` while a fiber works empties the stack, and the release then
   * leaves the borrowed connection as the only idle one, however many there
   * were before.
   */
  lemma DisconnectDuringWork(p: PoolState, tok: Token, blockGiven: bool)
    requires Wf(p) && p.waiting == [] && |p.available| >= 2
    ensures var n := Step(Step(Step(Start(p), Begin(tok)), DisconnectAll(blockGiven)), Finish(tok, Ok));
      && tok !in n.fibers
      && n.pool.available == [Top(p.available)]
      && |n.pool.available| < Max(|p.available|, 1)
  {
    StartInv(p);
    var s1 := Step(Start(p), Begin(tok));
    BeginKeepsInv(Start(p), tok);
    var s2 := Step(s1, DisconnectAll(blockGiven));
    StepKeepsInv(s1, DisconnectAll(blockGiven));
    FinishKeepsInv(s2, tok, Ok);
  }

  /**
   * A connection that is gone: the factory made it, it is not idle, and no
   * fiber works with it.
   */
  ghost predicate Gone(sys: System, c: Conn) {
    && c < sys.pool.nextId
    && c !in sys.pool.available
    && (forall t :: t in sys.fibers ==> sys.fibers[t] != Working(Some(c)))
  }

  /** A fatal disconnect reported by a fiber's work makes the fiber's connection gone. */
  lemma FatalFinishMakesGone(sys: System, tok: Token)
    requires Inv(sys) && tok in sys.fibers
    ensures Gone(Step(sys, Finish(tok, FatalDisconnect)), sys.fibers[tok].conn.value)
  {
    var c := sys.fibers[tok].conn.value;
    FinishKeepsInv(sys, tok, FatalDisconnect);
    var n := Step(sys, Finish(tok, FatalDisconnect));
    forall t | t in n.fibers
      ensures n.fibers[t] != Working(Some(c))
    {
      assert sys.fibers[t].conn != sys.fibers[tok].conn;
    }
  }

  /** No event brings back a connection that is gone: it is never made, stacked or lent again. */
  lemma StepKeepsGone(sys: System, e: Event, c: Conn)
    requires Gone(sys, c)
    ensures Gone(Step(sys, e), c)
  {
    match e
    case Begin(tok) =>
      if tok !in sys.fibers {
        var g := GateStep(sys.pool, tok);
        assert c !in g.state.available;
        if !g.suspended {
          var a := AcquireStep(g.state, tok);
          assert a.conn.value in g.state.available;
        }
      }
    case Finish(tok, work) =>
      if tok in sys.fibers && sys.fibers[tok].Working? {
        var rel := ReleaseStep(sys.pool, sys.fibers[tok].conn, work);
        assert c !in rel.state.available;
        var resumed := rel.resumed;
        if resumed.Some? && resumed.value in sys.fibers - {tok} && (sys.fibers - {tok})[resumed.value] == Yielded {
          var a := AcquireStep(rel.state, resumed.value);
          assert a.conn.Some? ==> a.conn.value in rel.state.available;
        }
      }
    case DisconnectAll(blockGiven) =>
  }

  /** Once gone, a connection stays gone over any sequence of events. */
  lemma {:induction false} RunKeepsGone(sys: System, es: seq<Event>, c: Conn)
    requires Gone(sys, c)
    ensures Gone(Run(sys, es), c)
    decreases |es|
  {
    if es != [] {
      RunKeepsGone(sys, es[..|es| - 1], c);
      StepKeepsGone(Run(sys, es[..|es| - 1]), es[|es| - 1], c);
    }
  }

  /** On an empty idle stack with nobody queued, entering `hold` makes a connection and lends it at once. */
  lemma BeginOnEmptyStack(sys: System, tok: Token)
    requires sys.pool.maxSize >= 1 && sys.pool.available == [] && sys.pool.waiting == []
    requires tok !in sys.fibers
    ensures Step(sys, Begin(tok))
         == System(sys.pool.(nextId := sys.pool.nextId + 1), sys.fibers[tok := Working(Some(sys.pool.nextId))])
  {
    var g := GateStep(sys.pool, tok);
    assert g == Gated(PushFresh(sys.pool), false);
    var a := AcquireStep(g.state, tok);
    assert a == Acquired(sys.pool.(nextId := sys.pool.nextId + 1), Some(sys.pool.nextId)) by {
      assert g.state.available == [sys.pool.nextId];
      assert a.state.available + [a.conn.value] == [sys.pool.nextId];
    }
  }

  /** Fibers `0 .. n-1`, fiber `i` working with connection `first + i`: each holds its own connection. */
  function Lending(first: nat, n: nat): (m: map<Token, Phase>)
    ensures forall t: Token :: t in m <==> t < n
    ensures forall t :: t in m ==> m[t] == Working(Some(first + t))
  {
    if n == 0 then map[]
    else Lending(first, n - 1)[n - 1 := Working(Some(first + n - 1))]
  }

  /** One more fiber holding the next fresh connection extends the lending by one. */
  lemma LendingExtends(p: PoolState, n: nat, prev: System)
    requires n >= 1
    requires prev == System(p.(nextId := p.nextId + n - 1), Lending(p.nextId, n - 1))
    ensures n - 1 !in prev.fibers
    ensures System(prev.pool.(nextId := prev.pool.nextId + 1), prev.fibers[n - 1 := Working(Some(prev.pool.nextId))])
         == System(p.(nextId := p.nextId + n), Lending(p.nextId, n))
  {
    assert Lending(p.nextId, n) == Lending(p.nextId, n - 1)[n - 1 := Working(Some(p.nextId + n - 1))];
    assert prev.pool.(nextId := prev.pool.nextId + 1) == p.(nextId := p.nextId + n);
  }

  /** One more fiber entering `hold` extends the lending by one fresh connection. */
  lemma LendingGrows(p: PoolState, n: nat, prev: System)
    requires p.maxSize >= 1 && p.waiting == [] && p.available == [] && n >= 1
    requires prev == System(p.(nextId := p.nextId + n - 1), Lending(p.nextId, n - 1))
    ensures Step(prev, Begin(n - 1)) == System(p.(nextId := p.nextId + n), Lending(p.nextId, n))
  {
    LendingExtends(p, n, prev);
    BeginOnEmptyStack(prev, n - 1);
  }

  /**
   * The creation bound does not bound creation: starting from an empty idle
   * stack, fibers `0 .. n-1` entering `hold` one after another, none of them
   * finishing, make and lend `n` distinct connections, whatever `maxSize` is.
   */
  lemma {:induction false} CreationIsUnbounded(p: PoolState, es: seq<Event>)
    requires p.maxSize >= 1 && p.waiting == [] && p.available == []
    requires forall i :: 0 <= i < |es| ==> es[i] == Begin(i)
    ensures Run(Start(p), es) == System(p.(nextId := p.nextId + |es|), Lending(p.nextId, |es|))
    decreases |es|
  {
    if es != [] {
      var n := |es|;
      var front := es[..n - 1];
      CreationIsUnbounded(p, front);
      assert es[n - 1] == Begin(n - 1);
      LendingGrows(p, n, Run(Start(p), front));
    }
  }
}
