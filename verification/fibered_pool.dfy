/**
 * EM::Sequel::FiberedConnectionPool as an object whose methods update its
 * lists in place. Each method is proved to leave the object in the state the
 * matching step function of PoolModel computes from the state it started in,
 * so every lemma of PoolModel applies to it.
 */
module FiberedPool {
  import opened Wrappers
  import opened PoolModel

  class FiberedConnectionPool {
    /** `@available_connections`: the idle stack; `<<` pushes, `pop` takes the last. */
    var available: seq<Conn>
    /** `@waiting_connections`: the queue of suspended fibers; `shift` takes the first. */
    var waiting: seq<Token>
    /** `max_size`, fixed at construction. */
    const maxSize: int
    /** The handle the connection factory returns next. */
    var nextId: nat
    /** Whether a disconnection proc is configured. */
    const hasTeardown: bool
    /** Every handle passed to the disconnection proc, in call order. */
    var tornDown: seq<Conn>

    /** The object's fields as a PoolModel state. */
    function State(): PoolState
      reads this
    {
      PoolState(available, waiting, maxSize, nextId, hasTeardown, tornDown)
    }

    ghost predicate Valid()
      reads this
    {
      Wf(State())
    }

    /** `size`: idle connections plus suspended fibers; only the idle ones when nobody is queued. */
    function Size(): (n: nat)
      reads this
      ensures n == |available| + |waiting|
      ensures n == |available| <==> waiting == []
    {
      PoolModel.Size(State())
    }

    /** The lists start empty and no connection has been made yet. */
    constructor (maxSize: int, hasTeardown: bool)
      requires maxSize >= 1
      ensures State() == PoolState([], [], maxSize, 0, hasTeardown, [])
      ensures Valid()
    {
      this.maxSize := maxSize;
      this.hasTeardown := hasTeardown;
      available := [];
      waiting := [];
      nextId := 0;
      tornDown := [];
    }

    /** `initialize`: the bound defaults to 4, one below 1 is refused, and both lists start empty. */
    static method New(maxConnections: Option<int>, hasTeardown: bool)
      returns (r: Result<FiberedConnectionPool, ConfigError>)
      ensures r.Failure? <==> maxConnections.Some? && maxConnections.value < 1
      ensures r.Failure? ==> Initial(maxConnections, hasTeardown) == Failure(r.error)
      ensures r.Success? ==> fresh(r.value) && r.value.Valid()
      ensures r.Success? ==> Initial(maxConnections, hasTeardown) == Success(r.value.State())
    {
      var maxSize := if maxConnections.Some? then maxConnections.value else DefaultMaxConnections;
      if maxSize < 1 {
        return Failure(MaxConnectionsNotPositive);
      }
      var pool := new FiberedConnectionPool(maxSize, hasTeardown);
      r := Success(pool);
    }

    /** `@available_connections << make_new(DEFAULT_SERVER)`: the factory's fresh handle goes on top. */
    method PushNew()
      modifies this
      ensures State() == PushFresh(old(State()))
    {
      available := available + [nextId];
      nextId := nextId + 1;
    }

    /**
     * The creation gate: with an empty idle stack, make a connection while
     * fewer than `maxSize` fibers are queued, otherwise queue `tok`, which then
     * suspends.
     */
    method Enter(tok: Token) returns (suspended: bool)
      modifies this
      ensures var g := GateStep(old(State()), tok); State() == g.state && suspended == g.suspended
    {
      suspended := false;
      if available == [] {
        if |waiting| < maxSize {
          PushNew();
        } else {
          waiting := waiting + [tok];
          suspended := true;
        }
      }
    }

    /** `acquire`: pop the top of the idle stack, `None` (Ruby's `nil`) when it is empty. */
    method Acquire() returns (conn: Option<Conn>)
      modifies this
      ensures old(available) == [] ==> conn.None? && available == []
      ensures old(available) != [] ==> conn == Some(Top(old(available))) && available + [conn.value] == old(available)
      ensures State() == old(State()).(available := available)
    {
      if available == [] {
        conn := None;
      } else {
        conn := Some(available[|available| - 1]);
        available := available[..|available| - 1];
      }
    }

    /**
     * The `rescue` and `ensure` of `hold`: a broken connection is handed to the
     * disconnection proc and replaced by a fresh one; any connection still in
     * hand goes back on the stack; the head of the queue is dequeued to be
     * resumed.
     */
    method Release(conn: Option<Conn>, work: Outcome) returns (resumed: Option<Token>)
      modifies this
      ensures var rel := ReleaseStep(old(State()), conn, work); State() == rel.state && resumed == rel.resumed
    {
      var inHand := conn;
      if work == FatalDisconnect {
        if hasTeardown && inHand.Some? {
          tornDown := tornDown + [inHand.value];
        }
        inHand := None;
        PushNew();
      }
      if inHand.Some? {
        available := available + [inHand.value];
      }
      resumed := None;
      if waiting != [] {
        resumed := Some(waiting[0]);
        waiting := waiting[1..];
      }
    }

    /**
     * `hold` run by fiber `tok` whose work ends with `work`. It suspends only
     * when the stack is empty and `maxSize` fibers already wait; otherwise it
     * lends a connection, returns or replaces it, and resumes the head of the
     * queue. A completed call leaves `max(n, 1)` idle connections where there
     * were `n`, and one made on a pool with nobody queued leaves nobody queued.
     */
    method Hold(tok: Token, work: Outcome) returns (r: HoldOutcome)
      requires Valid()
      modifies this
      ensures Valid()
      ensures var h := HoldStep(old(State()), tok, work); State() == h.state && r == h.outcome
      ensures r.Completed? ==> |available| == Max(|old(available)|, 1)
      ensures old(waiting) == [] ==> r.Completed? && r.resumed.None? && waiting == []
    {
      ghost var s0 := State();
      HoldPreservesWf(s0, tok, work);
      var suspended := Enter(tok);
      if suspended {
        return Suspended;
      }
      waiting := Delete(waiting, tok);
      var conn := Acquire();
      assert State() == AcquireStep(GateStep(s0, tok).state, tok).state;
      var resumed := Release(conn, work);
      r := Completed(conn, work, resumed);
      HoldKeepsIdleCount(s0, tok, work);
    }

    /** `@available_connections.each`: every idle connection, bottom of the stack first; nothing changes. */
    method EachIdle() returns (visited: seq<Conn>)
      ensures visited == available
    {
      visited := [];
      var i := 0;
      while i < |available|
        invariant 0 <= i <= |available|
        invariant visited == available[..i]
      {
        visited := visited + [available[i]];
        i := i + 1;
      }
      assert available[..i] == available;
    }

    /**
     * `all_connections`: inside a `hold` whose work ends normally, visit the
     * connection lent to the caller and then every idle connection, bottom of
     * the stack first.
     */
    method AllConnections(tok: Token) returns (r: HoldOutcome, visited: seq<Conn>)
      requires Valid()
      modifies this
      ensures Valid()
      ensures var h := HoldStep(old(State()), tok, Ok); State() == h.state && r == h.outcome
      ensures r.Suspended? ==> visited == []
      ensures r.Completed? ==> available != [] && visited == [r.borrowed.value] + available[..|available| - 1]
    {
      ghost var s0 := State();
      HoldPreservesWf(s0, tok, Ok);
      visited := [];
      var suspended := Enter(tok);
      if suspended {
        return Suspended, visited;
      }
      waiting := Delete(waiting, tok);
      var conn := Acquire();
      assert State() == AcquireStep(GateStep(s0, tok).state, tok).state;
      var idle := EachIdle();
      visited := [conn.value] + idle;
      var resumed := Release(conn, Ok);
      assert available == idle + [conn.value];
      assert available[..|available| - 1] == idle;
      r := Completed(conn, Ok, resumed);
    }

    /**
     * `disconnect`: call the given block, or else the disconnection proc, on
     * every idle connection bottom first, then empty the idle stack; the queue,
     * the bound and every lent connection are left alone.
     */
    method Disconnect(blockGiven: bool) returns (calls: seq<Conn>)
      requires Valid()
      modifies this
      ensures Valid()
      ensures var d := DisconnectStep(old(State()), blockGiven); State() == d.state && calls == d.calls
    {
      DisconnectKeepsWf(State(), blockGiven);
      calls := [];
      if blockGiven || hasTeardown {
        var i := 0;
        while i < |available|
          invariant 0 <= i <= |available|
          invariant available == old(available) && waiting == old(waiting) && nextId == old(nextId)
          invariant calls == available[..i]
          invariant tornDown == old(tornDown) + (if blockGiven then [] else available[..i])
        {
          if !blockGiven {
            tornDown := tornDown + [available[i]];
          }
          calls := calls + [available[i]];
          i := i + 1;
        }
        assert available[..i] == available;
      }
      available := [];
    }
  }
}
