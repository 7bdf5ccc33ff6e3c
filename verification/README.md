# Fibered connection pool: a verified model

This project models `EM::Sequel::FiberedConnectionPool`, the connection pool of
em-postgresql-sequel. The pool serves fibers on a single-threaded EventMachine
reactor. It keeps three pieces of state:

- the creation bound `max_size`;
- the idle stack `@available_connections`, where `<<` pushes and `pop` takes the most recently pushed connection;
- the queue `@waiting_connections` of suspended fibers.

`hold` runs a creation gate, pops a connection and runs the caller's work.
It then always returns or replaces the connection and resumes the head of the queue.
A `DatabaseDisconnectError` raised by the work makes the pool hand the broken connection to the disconnection proc.
The broken connection is dropped, a fresh one is pushed in its place, and the error is re-raised.
`disconnect` tears down and clears the idle stack. `size` adds the two list lengths.

The model has three layers:

- `PoolModel` (pool_model.dfy) holds the state as a value, `PoolState`. Each piece of `hold` is a step function: the gate, the self-removal and pop, and the rescue/ensure release. `hold` is their composition, and `disconnect` is one more step. The lemmas about `hold` live here.
- `FiberedPool` (fibered_pool.dfy) holds the class `FiberedConnectionPool`. Its fields are updated in place, as the Ruby instance variables are. Most methods are proved to leave the object in the state the matching step function computes. There are two exceptions. `Acquire` has its own contract: it pops the top of the stack and changes nothing else. `EachIdle` changes nothing and is proved to visit the idle stack.
- `Interleaving` (interleaving.dfy) runs several fibers against one pool. A fiber enters `hold` and either suspends or starts its work with a connection. Its work later ends, which releases and resumes the head of the queue, and `disconnect` may run in between. Here the invariant is proved for every reachable state: the waiting queue is always empty, and no connection is ever lent to two fibers at once or lent while idle.

Fibers are opaque tokens (`Token`). The outcome of the work is the enum `Outcome`: `Ok`, `FatalDisconnect` or `OtherError`.
The factory `make_new` is a counter `nextId` that always hands out a handle never used before.
The disconnection proc is modelled as a log `tornDown` of the handles passed to it.

What the proofs establish:

- The gate compares the *queue length* with `max_size`, and a token is queued only when the queue already holds at least `max_size >= 1` fibers. The queue starts empty, so it stays empty forever (`QueueStaysEmpty`).
- As a result, every `hold` on an empty stack makes a new connection. `max_size` never bounds creation: `n` overlapping `hold`s lend `n` distinct connections whatever the bound (`CreationIsUnbounded`).
- A `hold` whose work does not report a broken connection, and during whose work no other fiber touches the pool, lends the top of the stack and puts it back, leaving the stack unchanged (`HoldReusesTop`). When other fibers interleave, `FinishKeepsInv` states what ending the work does to whatever stack it finds.
- On a fatal disconnect, the broken handle is torn down and is not on the stack afterwards. Exactly one fresh handle takes its place, and the other idle handles stay as they were (`HoldReplacesOnFatal`). Across fibers, the broken handle never returns: once a fiber's work reports the disconnect, no later event stacks or lends that handle again (`FatalFinishMakesGone`, `RunKeepsGone`).
- Every completed `hold` during whose work no other fiber touches the pool leaves `max(n, 1)` idle connections where there were `n`. With interleaving this fails: a `disconnect` during the work empties the stack, and the release then leaves a single idle connection (`DisconnectDuringWork`).

Two details of the code shape the model:

- `acquire` on an empty stack returns `nil` (line 95). `AcquireStep` returns `None` there, and `ReleaseStep` pushes nothing back for it.
- The disconnection proc's own errors are not rescued (line 75). An error from it would propagate before the replacement at line 76. The model's teardown log cannot fail, so this path is listed under Left out.

## Model

| member | source | states |
|---|---|---|
| PoolModel.Size | lib/em-postgresql-sequel/fibered_connection_pool.rb:51-53 | `size` is at least the idle count and the queue length, and equals the idle count exactly when nobody is queued |
| PoolModel.Initial | lib/em-postgresql-sequel/fibered_connection_pool.rb:15-25 | construction fails exactly when the given bound is below 1; the bound is `:max_connections` or 4 when absent; both lists start empty and the state is well formed |
| PoolModel.PushFresh | lib/em-postgresql-sequel/fibered_connection_pool.rb:59 | `make_new`'s handle goes on top of the idle stack, the rest of the stack unchanged; the handle is at least the counter, so never seen before |
| PoolModel.Delete | lib/em-postgresql-sequel/fibered_connection_pool.rb:66 | `Array#delete` removes every occurrence of the token and keeps every other element as many times as it occurred; it is the identity when the token is absent |
| PoolModel.DeleteAppend | lib/em-postgresql-sequel/fibered_connection_pool.rb:66 | `Array#delete` keeps the order of the remaining elements: deleting from a concatenation deletes from each part |
| PoolModel.GateStep | lib/em-postgresql-sequel/fibered_connection_pool.rb:57-64 | suspends exactly when the stack is empty and at least `max_size` fibers wait, appending the caller to the queue; otherwise it leaves a connection to take, making a fresh one only when the stack was empty |
| PoolModel.AcquireStep | lib/em-postgresql-sequel/fibered_connection_pool.rb:66-68 | the fiber is no longer queued afterwards; the connection is `nil` exactly when the stack was empty, otherwise it is the top and the stack loses only its top; nothing else changes |
| PoolModel.ReleaseStep | lib/em-postgresql-sequel/fibered_connection_pool.rb:70-85 | the head of the queue, if any, is dequeued and resumed (FIFO); without a fatal disconnect the handle in hand goes back on top; with one, the handle goes to the disconnection proc if configured, is not returned, and one fresh handle is pushed |
| PoolModel.HoldStep | lib/em-postgresql-sequel/fibered_connection_pool.rb:55-86 | `hold` suspends exactly when the gate queues the caller; a completed `hold` lent a real connection and re-raises the work's error unchanged; the bound and proc setting are unchanged |
| PoolModel.DisconnectStep | lib/em-postgresql-sequel/fibered_connection_pool.rb:41-49 | the block, else the disconnection proc, is called on every idle connection bottom first (on none if neither exists); the stack is emptied; queue, bound and factory are unchanged |
| PoolModel.GateKeepsWf | lib/em-postgresql-sequel/fibered_connection_pool.rb:57-64 | the creation gate keeps the pool well formed: the freshly made handle is new to the stack |
| PoolModel.AcquireKeepsWf | lib/em-postgresql-sequel/fibered_connection_pool.rb:66-68 | popping keeps the pool well formed, and the popped handle is left nowhere on the stack and was made by the factory |
| PoolModel.ReleaseKeepsWf | lib/em-postgresql-sequel/fibered_connection_pool.rb:70-85 | returning a handle that is not idle, or replacing it by a fresh one after a fatal disconnect, keeps the pool well formed |
| PoolModel.DisconnectKeepsWf | lib/em-postgresql-sequel/fibered_connection_pool.rb:41-49 | `disconnect` keeps the pool well formed |
| PoolModel.HoldPreservesWf | lib/em-postgresql-sequel/fibered_connection_pool.rb:55-96 | `hold` never puts a handle on the idle stack twice and only stacks handles the factory made |
| PoolModel.HoldReusesTop | lib/em-postgresql-sequel/fibered_connection_pool.rb:68-80 | LIFO reuse: on a non-empty stack and a non-fatal outcome, the top is lent and the stack afterwards is identical; nothing is made or torn down |
| PoolModel.HoldReplacesOnFatal | lib/em-postgresql-sequel/fibered_connection_pool.rb:72-80 | on `DatabaseDisconnectError` the broken handle is torn down (if a proc is set), is absent from the stack afterwards, a never-seen handle is on top, the handle is at least the counter, so made by this call; the stack has `max(n, 1)` entries, below the new top exactly the old stack minus its top; and the error propagates |
| PoolModel.HoldKeepsIdleCount | lib/em-postgresql-sequel/fibered_connection_pool.rb:57-80 | every completed `hold`, whatever its outcome, leaves `max(n, 1)` idle connections where there were `n` |
| PoolModel.HoldKeepsQueueEmpty | lib/em-postgresql-sequel/fibered_connection_pool.rb:57-62 | with a bound of at least 1 and nobody queued, `hold` never suspends, lends a real connection, resumes nobody and leaves the queue empty |
| PoolModel.ResumedDeleteIsNoop | lib/em-postgresql-sequel/fibered_connection_pool.rb:66-82 | a token resumed from a queue without repeats is already gone, so its own `delete` changes nothing |
| Interleaving.Wake | lib/em-postgresql-sequel/fibered_connection_pool.rb:62-68 | the fiber resumed from `Fiber.yield` leaves the queue and pops the top of the stack (`nil` when empty); no other fiber moves; the rest of the queue is the old queue without the fiber, and counter, bound and teardown log are unchanged |
| Interleaving.Step | lib/em-postgresql-sequel/fibered_connection_pool.rb:41-85 | an entering fiber joins the fibers inside `hold` and a finishing one leaves; an event its fiber cannot take part in changes nothing; `disconnect` empties the stack and moves no fiber |
| Interleaving.StartInv | lib/em-postgresql-sequel/fibered_connection_pool.rb:21-22 | a freshly constructed pool with no fiber inside `hold` satisfies the reachable-state invariant |
| Interleaving.BeginKeepsInv | lib/em-postgresql-sequel/fibered_connection_pool.rb:57-68 | from a reachable state, a fiber entering `hold` never suspends; it gets the stack's top, and the stack loses exactly that top, or, when the stack is empty, a freshly made handle; every other fiber keeps its connection, and none holds the new one |
| Interleaving.FinishKeepsInv | lib/em-postgresql-sequel/fibered_connection_pool.rb:70-85 | from a reachable state, ending a fiber's work takes it out of `hold`; its handle goes back on top of the current stack, or after a fatal disconnect is dropped and the counter's fresh handle is pushed instead; every other fiber keeps its connection; the invariant holds afterwards |
| Interleaving.StepKeepsInv | lib/em-postgresql-sequel/fibered_connection_pool.rb:41-85 | every `hold` entry, work completion and `disconnect` preserves the invariant |
| Interleaving.RunKeepsInv | lib/em-postgresql-sequel/fibered_connection_pool.rb:41-85 | any interleaving of those events preserves the invariant |
| Interleaving.QueueStaysEmpty | lib/em-postgresql-sequel/fibered_connection_pool.rb:18-62 | from any valid construction, after any interleaving: the queue is empty, `size` counts only idle connections, every fiber in `hold` works with a real connection, none is also idle, and no two fibers share one |
| Interleaving.DisconnectDuringWork | lib/em-postgresql-sequel/fibered_connection_pool.rb:41-85 | a `disconnect` while a fiber works on one of at least two idle connections leaves exactly that connection idle after the release, fewer than the `max(n, 1)` of a sequential `hold` |
| Interleaving.FatalFinishMakesGone | lib/em-postgresql-sequel/fibered_connection_pool.rb:72-77 | after a fiber's work reports a fatal disconnect, its connection was made by the factory, is not idle and is held by no fiber |
| Interleaving.StepKeepsGone | lib/em-postgresql-sequel/fibered_connection_pool.rb:41-85 | no `hold` entry, work completion, resumption or `disconnect` stacks or lends a connection that is gone |
| Interleaving.RunKeepsGone | lib/em-postgresql-sequel/fibered_connection_pool.rb:41-85 | a connection that is gone stays gone over any sequence of events: a broken connection never returns |
| Interleaving.BeginOnEmptyStack | lib/em-postgresql-sequel/fibered_connection_pool.rb:57-68 | on an empty stack with nobody queued, entering `hold` makes a connection and lends it straight away |
| Interleaving.CreationIsUnbounded | lib/em-postgresql-sequel/fibered_connection_pool.rb:57-59 | from an empty stack, fibers `0 .. n-1` entering `hold` one after another, none finishing, make and lend `n` distinct connections for every `n`, whatever `max_size` is |
| Interleaving.LendingGrows | lib/em-postgresql-sequel/fibered_connection_pool.rb:57-68 | from `n - 1` fibers each holding its own fresh connection, fiber `n - 1` entering `hold` makes and takes one more |
| FiberedPool.FiberedConnectionPool.constructor | lib/em-postgresql-sequel/fibered_connection_pool.rb:21-22 | with a bound of at least 1, both lists start empty, nothing has been made or torn down, and the pool is well formed |
| FiberedPool.FiberedConnectionPool.New | lib/em-postgresql-sequel/fibered_connection_pool.rb:15-25 | fails exactly when the bound is below 1; otherwise a fresh, well-formed pool in the initial state |
| FiberedPool.FiberedConnectionPool.PushNew | lib/em-postgresql-sequel/fibered_connection_pool.rb:59 | the factory's fresh handle goes on top of the idle stack |
| FiberedPool.FiberedConnectionPool.Enter | lib/em-postgresql-sequel/fibered_connection_pool.rb:57-64 | updates the fields exactly as the creation gate `GateStep` says and reports whether the caller suspends |
| FiberedPool.FiberedConnectionPool.Acquire | lib/em-postgresql-sequel/fibered_connection_pool.rb:93-96 | pops the top of the idle stack, `None` when empty; no other field changes |
| FiberedPool.FiberedConnectionPool.Release | lib/em-postgresql-sequel/fibered_connection_pool.rb:70-85 | updates the fields exactly as `ReleaseStep` says and returns the resumed token |
| FiberedPool.FiberedConnectionPool.Hold | lib/em-postgresql-sequel/fibered_connection_pool.rb:55-86 | keeps the pool well formed, does what `HoldStep` says, leaves `max(n, 1)` idle connections when it completes, and never suspends or resumes anyone while nobody is queued |
| FiberedPool.FiberedConnectionPool.Size | lib/em-postgresql-sequel/fibered_connection_pool.rb:51-53 | the idle count plus the queue length; the idle count exactly when nobody is queued |
| FiberedPool.FiberedConnectionPool.EachIdle | lib/em-postgresql-sequel/fibered_connection_pool.rb:36 | visits every idle connection, bottom of the stack first, and changes nothing |
| FiberedPool.FiberedConnectionPool.AllConnections | lib/em-postgresql-sequel/fibered_connection_pool.rb:32-39 | a `hold` with a normal outcome that visits the caller's own connection and then every idle connection, bottom first |
| FiberedPool.FiberedConnectionPool.Disconnect | lib/em-postgresql-sequel/fibered_connection_pool.rb:41-49 | loops over the idle stack calling the block, else the disconnection proc, and then clears it, exactly as `DisconnectStep` says |

## Left out

- Fiber mechanics (`Fiber.current`, `Fiber.yield`, `resume`, lines 61-62 and 82) are not modelled as scheduling. A fiber is a token, and resumption is the token `Release` returns. The continuation of a suspended `hold` exists only in `Interleaving` (`Wake`), not as a class method, because no reachable state ever queues a fiber.
- `Mutex` and `sync` (lines 24, 99-103) are not modelled: every `sync` block, and each event of `Interleaving`, runs atomically. Who owns the lock while the resumed fiber runs inside the release at line 82 is not modelled.
- The superclass `::Sequel::ConnectionPool` and `make_new` are foreign code. The factory is a counter that always succeeds with a fresh handle, so a factory error at line 59 or 76 is not modelled.
- The disconnection proc is a log that cannot fail. A proc that raises at line 75 would skip the replacement at line 76; that path is not modelled.
- Exception classification by `::Sequel::DatabaseDisconnectError` is replaced by the `Outcome` given to `hold`. The value the work block returns, which `hold` passes on, is not modelled.
- `Integer(...)` conversion of `:max_connections` is not modelled. It truncates finite floats and raises on any value it cannot convert exactly, such as `"abc"`, `"2.5"` or NaN. The bound arrives as an optional integer that is already converted.
- The `server` argument of `hold` and the `opts` of `disconnect` are not modelled; the code ignores them.
- PoolModel.HoldStep: runs the work atomically, with no other fiber touching the pool in between, and so does `FiberedPool.FiberedConnectionPool.Hold`. Interleavings during the work are modelled only in `Interleaving`, where `Begin` and `Finish` are separate events.
- PoolModel.DisconnectStep: the block or proc always succeeds. One that raises at line 46 would skip the `clear` at line 47 and leave the rest of the stack idle; that path is not modelled.
- Nested `hold` calls made from inside the work block are not modelled. In `Interleaving` a token already inside `hold` cannot begin again, and such an event changes nothing.
- FiberedPool.FiberedConnectionPool.AllConnections: the visiting block is assumed not to raise. What it does with the connections is not modelled beyond the visited sequence. Its continuation after a suspension is not modelled, because no reachable state suspends.
