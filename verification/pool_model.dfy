/**
 * Pure model of the bookkeeping of EM::Sequel::FiberedConnectionPool
 * (lib/em-postgresql-sequel/fibered_connection_pool.rb).
 *
 * The pool's state is a value: the idle stack, the queue of suspended
 * fibers, the creation bound, the factory's next fresh handle and the log of
 * handles passed to the disconnection proc. Each piece of `hold` is a step
 * function from one state to the next; `hold` itself is their composition.
 */
module PoolModel {
  import opened Wrappers

  /** A connection handle; `make_new` hands out handles that were never used before. */
  type Conn = nat

  /** An opaque token standing for a fiber. */
  type Token = nat

  /** The creation bound used when `:max_connections` is not given. */
  const DefaultMaxConnections: int := 4

  /** How the caller's work block ends: normally, with a DatabaseDisconnectError, or with any other error. */
  datatype Outcome = Ok | FatalDisconnect | OtherError

  /** The error `initialize` raises for a bound below 1. */
  datatype ConfigError = MaxConnectionsNotPositive

  datatype PoolState = PoolState(
    available: seq<Conn>,  // the idle stack; its last element is the top
    waiting: seq<Token>,   // the queue of suspended fibers; its first element is the head
    maxSize: int,          // the creation bound
    nextId: nat,           // the handle the next `make_new` returns
    hasTeardown: bool,     // whether a disconnection proc is configured
    tornDown: seq<Conn>)   // every handle passed to the disconnection proc, in call order

  /** No element occurs twice. */
  predicate Distinct<T(==)>(s: seq<T>) {
    forall i, j :: 0 <= i < j < |s| ==> s[i] != s[j]
  }

  /** The top of a non-empty stack. */
  function Top(s: seq<Conn>): Conn
    requires s != []
  {
    s[|s| - 1]
  }

  /** Popping the top of a stack without repeats leaves no copy of it behind. */
  lemma PopDistinct(s: seq<Conn>)
    requires s != []
    ensures Distinct(s) ==> Distinct(s[..|s| - 1]) && Top(s) !in s[..|s| - 1]
  {
  }

  /** Pushing a handle that is not on the stack keeps it free of repeats. */
  lemma PushDistinct(s: seq<Conn>, c: Conn)
    ensures Distinct(s) && c !in s ==> Distinct(s + [c])
  {
  }

  function Max(a: int, b: int): int {
    if a < b then b else a
  }

  /**
   * A well-formed pool: a positive bound, no handle idle twice, and every
   * idle handle was made by the factory.
   */
  predicate Wf(s: PoolState) {
    && s.maxSize >= 1
    && Distinct(s.available)
    && (forall c :: c in s.available ==> c < s.nextId)
  }

  /**
   * `size`: the number of idle connections plus the number of suspended
   * fibers, so it counts exactly the idle connections when nobody is queued.
   */
  function Size(s: PoolState): (n: nat)
    ensures n >= |s.available| && n >= |s.waiting|
    ensures n == |s.available| <==> s.waiting == []
  {
    |s.available| + |s.waiting|
  }

  /**
   * `initialize`: the bound is `:max_connections`, or 4 when it is not given;
   * a bound below 1 is an error; both lists start empty.
   */
  function Initial(maxConnections: Option<int>, hasTeardown: bool): (r: Result<PoolState, ConfigError>)
    ensures r.Failure? <==> maxConnections.Some? && maxConnections.value < 1
    ensures r.Success? ==> Wf(r.value) && r.value.available == [] && r.value.waiting == []
    ensures r.Success? ==> r.value.maxSize == if maxConnections.Some? then maxConnections.value else DefaultMaxConnections
    ensures r.Success? ==> r.value.hasTeardown == hasTeardown && r.value.tornDown == []
  {
    var maxSize := if maxConnections.Some? then maxConnections.value else DefaultMaxConnections;
    if maxSize < 1 then Failure(MaxConnectionsNotPositive)
    else Success(PoolState([], [], maxSize, 0, hasTeardown, []))
  }

  /**
   * `@available_connections << make_new(DEFAULT_SERVER)`: the factory's handle
   * goes on top of the idle stack, and it is one the pool has never seen
   * (`GateKeepsWf` draws the consequence for well-formedness).
   */
  function PushFresh(s: PoolState): (r: PoolState)
    ensures r.available != [] && r.available[..|r.available| - 1] == s.available
    ensures Top(r.available) >= s.nextId && r.nextId > Top(r.available)
    ensures r == s.(available := r.available, nextId := r.nextId)
  {
    var r := s.(available := s.available + [s.nextId], nextId := s.nextId + 1);
    assert r.available[..|r.available| - 1] == s.available;
    r
  }

  /**
   * Ruby's `Array#delete`: every occurrence of `t` removed, every other
   * element kept as often as it occurred (and, by `DeleteAppend`, in order).
   */
  function Delete(s: seq<Token>, t: Token): (r: seq<Token>)
    ensures t !in r
    ensures forall x :: x in r <==> x in s && x != t
    ensures multiset(r) == multiset(s)[t := 0]
    ensures |r| <= |s|
    ensures t !in s ==> r == s
  {
    if s == [] then []
    else
      assert s == [s[0]] + s[1..];
      if s[0] == t then Delete(s[1..], t)
      else [s[0]] + Delete(s[1..], t)
  }

  /** `Array#delete` keeps the order of what remains: it works piece by piece. */
  lemma {:induction false} DeleteAppend(a: seq<Token>, b: seq<Token>, t: Token)
    ensures Delete(a + b, t) == Delete(a, t) + Delete(b, t)
    decreases |a|
  {
    if a == [] {
      assert a + b == b;
    } else {
      assert (a + b)[0] == a[0];
      assert (a + b)[1..] == a[1..] + b;
      DeleteAppend(a[1..], b, t);
    }
  }

  datatype Gated = Gated(state: PoolState, suspended: bool)

  /**
   * The creation gate at the top of `hold`. With an empty idle stack it makes a
   * connection while fewer than `maxSize` fibers are queued, and otherwise
   * queues the caller, which then suspends.
   */
  function GateStep(s: PoolState, tok: Token): (r: Gated)
    ensures r.suspended <==> s.available == [] && |s.waiting| >= s.maxSize
    ensures r.suspended ==> r.state == s.(waiting := s.waiting + [tok])
    ensures !r.suspended ==> r.state.available != [] && r.state.waiting == s.waiting
    ensures s.available != [] ==> r.state == s
    ensures s.available == [] && !r.suspended ==> r.state.available == [s.nextId] && r.state.nextId == s.nextId + 1
    ensures r.state.maxSize == s.maxSize && r.state.tornDown == s.tornDown && r.state.hasTeardown == s.hasTeardown
  {
    if s.available != [] then Gated(s, false)
    else if |s.waiting| < s.maxSize then Gated(PushFresh(s), false)
    else Gated(s.(waiting := s.waiting + [tok]), true)
  }

  datatype Acquired = Acquired(state: PoolState, conn: Option<Conn>)

  /**
   * What a runnable fiber does next: it removes itself from the queue (a no-op
   * when it is not there) and pops the top of the idle stack, `nil` when the
   * stack is empty.
   */
  function AcquireStep(s: PoolState, tok: Token): (r: Acquired)
    ensures r.state == s.(available := r.state.available, waiting := r.state.waiting)
    ensures r.state.waiting == Delete(s.waiting, tok) && tok !in r.state.waiting
    ensures r.conn.None? <==> s.available == []
    ensures r.conn.None? ==> r.state.available == []
    ensures r.conn.Some? ==> r.conn.value == Top(s.available) && r.state.available + [r.conn.value] == s.available
  {
    var s1 := s.(waiting := Delete(s.waiting, tok));
    if s.available == [] then Acquired(s1, None)
    else
      var rest := s.available[..|s.available| - 1];
      assert rest + [Top(s.available)] == s.available;
      Acquired(s1.(available := rest), Some(Top(s.available)))
  }

  datatype Released = Released(state: PoolState, resumed: Option<Token>)

  /**
   * What `hold` does after the work: on a DatabaseDisconnectError the broken
   * handle goes to the disconnection proc (if configured and if a handle was in
   * hand) and a fresh connection is pushed; then, always, the handle still in
   * hand is pushed back and the head of the queue is dequeued to be resumed.
   */
  function ReleaseStep(s: PoolState, conn: Option<Conn>, work: Outcome): (r: Released)
    ensures r.resumed == (if s.waiting == [] then None else Some(s.waiting[0]))
    ensures r.state.waiting == (if s.waiting == [] then [] else s.waiting[1..])
    ensures r.state.maxSize == s.maxSize && r.state.hasTeardown == s.hasTeardown
    ensures work != FatalDisconnect ==>
      && r.state.available == s.available + (if conn.Some? then [conn.value] else [])
      && r.state.nextId == s.nextId && r.state.tornDown == s.tornDown
    ensures work == FatalDisconnect ==>
      && r.state.available == s.available + [s.nextId]
      && r.state.nextId == s.nextId + 1
      && r.state.tornDown == s.tornDown + (if s.hasTeardown && conn.Some? then [conn.value] else [])
  {
    // rescue ::Sequel::DatabaseDisconnectError
    var (s1, inHand) :=
      if work == FatalDisconnect then
        var torn := if s.hasTeardown && conn.Some? then s.tornDown + [conn.value] else s.tornDown;
        (PushFresh(s.(tornDown := torn)), None)
      else (s, conn);
    // ensure
    var s2 := if inHand.Some? then s1.(available := s1.available + [inHand.value]) else s1;
    if s2.waiting == [] then Released(s2, None)
    else Released(s2.(waiting := s2.waiting[1..]), Some(s2.waiting[0]))
  }

  /** How a call of `hold` ends: suspended in the gate, or completed. */
  datatype HoldOutcome =
    | Suspended
    | Completed(borrowed: Option<Conn>, propagated: Outcome, resumed: Option<Token>)

  datatype Held = Held(state: PoolState, outcome: HoldOutcome)

  /**
   * `hold` run by fiber `tok` whose work ends with `work`, up to the point where
   * it either suspends in the gate or completes.
   */
  function HoldStep(s: PoolState, tok: Token, work: Outcome): (r: Held)
    ensures r.outcome.Suspended? <==> s.available == [] && |s.waiting| >= s.maxSize
    ensures r.outcome.Completed? ==> r.outcome.borrowed.Some? && r.outcome.propagated == work
    ensures r.state.maxSize == s.maxSize && r.state.hasTeardown == s.hasTeardown
  {
    var g := GateStep(s, tok);
    if g.suspended then Held(g.state, Suspended)
    else
      var a := AcquireStep(g.state, tok);
      var rel := ReleaseStep(a.state, a.conn, work);
      Held(rel.state, Completed(a.conn, work, rel.resumed))
  }

  datatype Disconnected = Disconnected(state: PoolState, calls: seq<Conn>)

  /**
   * `disconnect`: the given block, or else the disconnection proc, is called on
   * every idle connection in stack order (bottom first); then the idle stack is
   * emptied.
   */
  function DisconnectStep(s: PoolState, blockGiven: bool): (r: Disconnected)
    ensures r.state == s.(available := [], tornDown := r.state.tornDown)
    ensures r.calls == if blockGiven || s.hasTeardown then s.available else []
    ensures r.state.tornDown == s.tornDown + (if !blockGiven && s.hasTeardown then s.available else [])
  {
    var calls := if blockGiven || s.hasTeardown then s.available else [];
    var torn := if blockGiven then s.tornDown else s.tornDown + calls;
    Disconnected(s.(available := [], tornDown := torn), calls)
  }

  // ---------------------------------------------------------------------------
  // Well-formedness: no handle idle twice, every idle handle made by the factory
  // ---------------------------------------------------------------------------

  /** The gate keeps the pool well formed: a handle it makes is new. */
  lemma GateKeepsWf(s: PoolState, tok: Token)
    requires Wf(s)
    ensures Wf(GateStep(s, tok).state)
  {
  }

  /** Popping keeps the pool well formed, and the popped handle is left nowhere on the stack. */
  lemma AcquireKeepsWf(s: PoolState, tok: Token)
    requires Wf(s)
    ensures var r := AcquireStep(s, tok);
      && Wf(r.state)
      && (r.conn.Some? ==> r.conn.value !in r.state.available && r.conn.value < r.state.nextId)
  {
    if s.available != [] {
      var r := AcquireStep(s, tok);
      assert Top(s.available) in s.available;
      assert forall c :: c in r.state.available ==> c in s.available;
      PopDistinct(s.available);
    }
  }

  /**
   * The release keeps the pool well formed as long as the handle in hand is
   * not idle already and was made by the factory.
   */
  lemma ReleaseKeepsWf(s: PoolState, conn: Option<Conn>, work: Outcome)
    requires Wf(s)
    requires conn.Some? ==> conn.value !in s.available && conn.value < s.nextId
    ensures Wf(ReleaseStep(s, conn, work).state)
  {
    if work == FatalDisconnect {
      PushDistinct(s.available, s.nextId);
    } else if conn.Some? {
      PushDistinct(s.available, conn.value);
    }
  }

  /** `disconnect` keeps the pool well formed. */
  lemma DisconnectKeepsWf(s: PoolState, blockGiven: bool)
    requires Wf(s)
    ensures Wf(DisconnectStep(s, blockGiven).state)
  {
  }

  /** Every step of `hold` keeps the pool well formed. */
  lemma HoldPreservesWf(s: PoolState, tok: Token, work: Outcome)
    requires Wf(s)
    ensures Wf(HoldStep(s, tok, work).state)
  {
    var g := GateStep(s, tok);
    GateKeepsWf(s, tok);
    if !g.suspended {
      var a := AcquireStep(g.state, tok);
      AcquireKeepsWf(g.state, tok);
      ReleaseKeepsWf(a.state, a.conn, work);
    }
  }

  /**
   * LIFO reuse: with an idle connection at hand and work that does not report a
   * broken connection, `hold` lends the top of the stack and puts it back, so
   * the stack is exactly as before and nothing is made or torn down.
   */
  lemma HoldReusesTop(s: PoolState, tok: Token, work: Outcome)
    requires s.available != [] && work != FatalDisconnect
    ensures var r := HoldStep(s, tok, work);
      && r.outcome.Completed?
      && r.outcome.borrowed == Some(Top(s.available))
      && r.outcome.propagated == work
      && r.state.available == s.available
      && r.state.nextId == s.nextId
      && r.state.tornDown == s.tornDown
  {
    var a := AcquireStep(s, tok);
    assert a.state.available + [a.conn.value] == s.available;
  }

  /**
   * Replace on fatal: when the work reports a broken connection, the borrowed
   * handle is handed to the disconnection proc (when one is configured), never
   * returns to the idle stack, a handle never seen before is pushed in its
   * place, and the error is passed on.
   */
  lemma HoldReplacesOnFatal(s: PoolState, tok: Token)
    requires Wf(s)
    requires s.available != [] || |s.waiting| < s.maxSize
    ensures var r := HoldStep(s, tok, FatalDisconnect);
      && r.outcome.Completed? && r.outcome.borrowed.Some?
      && r.outcome.propagated == FatalDisconnect
      && r.outcome.borrowed.value !in r.state.available
      && |r.state.available| == Max(|s.available|, 1)
      && Top(r.state.available) !in s.available
      && Top(r.state.available) >= s.nextId
      && Top(r.state.available) != r.outcome.borrowed.value
      && r.state.available[..|r.state.available| - 1]
         == (if s.available == [] then [] else s.available[..|s.available| - 1])
      && r.state.tornDown == s.tornDown + (if s.hasTeardown then [r.outcome.borrowed.value] else [])
  {
    var g := GateStep(s, tok);
    var a := AcquireStep(g.state, tok);
    assert !g.suspended && a.conn.Some?;
    var c := a.conn.value;
    var rel := ReleaseStep(a.state, a.conn, FatalDisconnect);
    assert HoldStep(s, tok, FatalDisconnect) == Held(rel.state, Completed(a.conn, FatalDisconnect, rel.resumed));
    var rest := if s.available == [] then [] else s.available[..|s.available| - 1];
    var made := a.state.nextId;
    assert a.state.available == rest && |rest| + 1 == Max(|s.available|, 1) by {
      assert a.state.available + [c] == g.state.available;
    }
    assert made >= s.nextId;
    assert c !in rest && c < made by {
      GateKeepsWf(s, tok);
      AcquireKeepsWf(g.state, tok);
    }
    assert rel.state.available == rest + [made];
    assert (rest + [made])[..|rest|] == rest;
    assert made !in s.available;
  }

  /** Every completed `hold` leaves `max(n, 1)` idle connections where there were `n`. */
  lemma HoldKeepsIdleCount(s: PoolState, tok: Token, work: Outcome)
    requires s.available != [] || |s.waiting| < s.maxSize
    ensures |HoldStep(s, tok, work).state.available| == Max(|s.available|, 1)
  {
    var g := GateStep(s, tok);
    var a := AcquireStep(g.state, tok);
    assert |a.state.available| + 1 == |g.state.available|;
  }

  /**
   * With nobody queued, `hold` never suspends, lends a real connection and
   * resumes nobody; the queue stays empty.
   */
  lemma HoldKeepsQueueEmpty(s: PoolState, tok: Token, work: Outcome)
    requires s.maxSize >= 1 && s.waiting == []
    ensures var r := HoldStep(s, tok, work);
      && r.outcome.Completed? && r.outcome.borrowed.Some?
      && r.outcome.resumed == None
      && r.state.waiting == []
  {
  }

  /**
   * A resumed fiber's own `delete` is a no-op: the release already took its
   * token off the head of a queue in which no token occurs twice.
   */
  lemma ResumedDeleteIsNoop(s: PoolState, conn: Option<Conn>, work: Outcome)
    requires Distinct(s.waiting) && s.waiting != []
    ensures var r := ReleaseStep(s, conn, work);
      r.resumed.Some? && Delete(r.state.waiting, r.resumed.value) == r.state.waiting
  {
  }
}
