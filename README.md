# semaphore — a Dafny model

The Go package `semaphore` implements a bounded counting semaphore as a
buffered channel of empty structs. The channel's capacity is the
semaphore's capacity, and the number of tokens in its buffer is the
number of occupied slots. `Acquire(ctx)` sends a token, or gives up with
`errTimeout` once the context is done. `Release()` receives a token
without blocking, or returns `errEmpty`. The handle `Acquire` returns
releases a slot and ignores the error.

This project models that package in Dafny, in three modules:

- `Semaphore` (semaphore.dfy). The abstract state is `State(capacity,
  occupied)`. `WellFormed` is the invariant `occupied <= capacity`.
  `AcquireStep` and `ReleaseStep` give each operation's effect on the state
  and its error. The class `Semaphore` is the object itself. It has a
  `const capacity` that is fixed by the constructor `New`, a mutable
  `occupied`, and methods `Acquire` and `Release`. Their postconditions tie
  the new state to the step functions. `ReleaseFunc` is either the no-op
  handle `nothing` or the closure built by `releaser`, and `Call` invokes one.
- `SemaphoreLaws` (laws.dfy). `Run` performs a sequence of calls one after
  another and stops at the first call that could only return through
  another goroutine's Release. The lemmas here
  hold for any sequence of calls.
- `SemaphoreScenarios` (scenarios.dfy). The single-goroutine scenarios of
  the package's tests are written as clients of the class. Each result
  follows from the class contracts alone.

Two inputs of `Acquire` are parameters:

- `done` says whether the context's `Done()` channel is closed by the time
  the select resolves. It may be closed already at the call, or close later
  while the call waits for a slot, as a deadline or a cancel does. A wait
  that ends because the context fires is modelled as a call with `done`
  true.
- `sendFirst` is the Go runtime's random choice when both cases of
  `select` are ready. It is only consulted when a slot is free and the
  context is done, so both outcomes are allowed in that case.

A call with no free slot and a context that never becomes done can only
return once another goroutine releases a slot. A sequential model cannot
show that, so `Acquire` requires `occupied < capacity || done`. `Run`
records such a call as `blocked` and stops there.

## Model

| member | source | states |
|---|---|---|
| `Semaphore.AcquireStep` | semaphore.go:56-63 | Acquire either grants a slot (nil error, occupancy exactly one higher) or returns `errTimeout` with the state unchanged, and never both. A context that is not done always gets a slot. A full semaphore with a done context always times out. Capacity and the bound `occupied <= capacity` are preserved. |
| `Semaphore.ReleaseStep` | semaphore.go:73-80 | Release succeeds exactly when some slot is occupied, and then occupancy drops by exactly one. Otherwise it returns `errEmpty` and the state is unchanged. Capacity and the bound are preserved. |
| `Semaphore.Semaphore.New` | semaphore.go:43-45 | A new semaphore has the given capacity and no occupied slot. |
| `Semaphore.Semaphore.Capacity` | semaphore.go:65-67 | The capacity is never below the current occupancy. |
| `Semaphore.Semaphore.Occupied` | semaphore.go:69-71 | The occupancy never exceeds the capacity. |
| `Semaphore.Semaphore.Acquire` | semaphore.go:56-63 | The new state and error are those of `AcquireStep`. The handle is the releaser of this semaphore on success and `nothing` on timeout. The invariant is kept. |
| `Semaphore.Semaphore.Release` | semaphore.go:73-80 | The new state and error are those of `ReleaseStep`, and the invariant is kept. |
| `Semaphore.Call` | semaphore.go:82-84 | Calling a releaser has Release's effect on its semaphore and reports no error. Calling `nothing` modifies no object. |
| `SemaphoreLaws.Run` | semaphore.go:54-80 | After any sequence of Acquire and Release calls, the capacity is the one set at construction and `0 <= occupied <= capacity` still holds. A sequence that stops early stops at a call that cannot return on its own: no slot is free and that call's context never becomes done. A sequence whose first call is such a call stops there, with no call returned. |
| `SemaphoreLaws.RunAppend` | semaphore.go:54-80 | Running two sequences in turn is running their concatenation: the second continues from the state the first ends in, and the errors are those of the first followed by those of the second. If the first stops at a waiting call, the concatenation stops there too. Together with `Run`'s contract, this makes a run stop at the first call that cannot return on its own. |
| `SemaphoreLaws.RunAccounting` | semaphore.go:56-80 | After any sequence of calls, occupancy equals the starting occupancy plus the granted Acquires minus the successful Releases. Failed calls change nothing. |
| `SemaphoreLaws.NoOverGrant` | semaphore.go:56-63 | In any sequence of calls, the slots granted minus the slots returned never exceed the room free at the start. Releases never return more slots than were held. |
| `SemaphoreLaws.RunErrorsFit` | semaphore.go:56-80 | In any sequence, only Release reports `errEmpty`. Only an Acquire whose context is done reports `errTimeout`. |
| `SemaphoreLaws.ZeroCapacityNeverGrants` | semaphore.go:56-62 | On a capacity-0 semaphore, every call that returns reports an error and the state stays empty, whatever the sequence of calls. |
| `SemaphoreLaws.AcquireTie` | semaphore.go:57-62 | When a slot is free and the context is done, either case of the select may win. A grant holds exactly one more slot, and a timeout holds none. |
| `SemaphoreLaws.AcquireReleaseRoundTrip` | semaphore.go:56-80 | A granted Acquire followed by a Release restores the earlier state, and that Release reports no error. |
| `SemaphoreScenarios.TimeoutOnZeroCapacity` | go17_test.go:21-45 | With capacity 0 and a done context, Acquire returns `errTimeout` however the select is resolved. Calling the returned handle leaves occupancy at 0. |
| `SemaphoreScenarios.FillFresh` | go17_test.go:47-82 | Acquiring `Capacity()` times on a fresh semaphore with a context that is never done: occupancy before the i-th call is i. Afterwards it equals the capacity, which is still the constructed value. |
| `SemaphoreScenarios.ReleaseFresh` | go17_test.go:84-90 | Release on a fresh semaphore returns `errEmpty` and occupancy stays 0. |
| `SemaphoreScenarios.FillThenReleaseAll` | go17_test.go:92-123 | `Capacity()` holders acquire with a context that is never done, and every Acquire reports no error. Occupancy then equals the capacity. Once each holder has called its handle, occupancy is back to 0. |
| `SemaphoreScenarios.AcquireThenCallHandle` | semaphore.go:56-84 | Acquire followed by calling the handle it returns leaves any semaphore as it was. A granted slot is given back by the releaser, and a timeout returns `nothing`, which changes nothing. |
| `SemaphoreScenarios.AcquireReleaseInTurn` | go17_test.go:138-150 | Acquire and Release n times in turn on a semaphore of capacity n, and the semaphore ends empty. |

## Left out

- Goroutine blocking and wake-up: an `Acquire` with no free slot waits until another goroutine's `Release` frees one or its context becomes done. The moment the context fires is not modelled. A wait that ends in a timeout is modelled as a call with `done` true. A wait that could only end through another goroutine is excluded by the class method's precondition, and `Run` stops at such a call with `blocked` set.
- The `context.Context` machinery (deadlines, `WithTimeout`, cancel functions) is reduced to one boolean, `done`. The clock behind deadlines belongs to the Go runtime.
- The unbuffered-channel rendezvous: with capacity 0, a concurrent non-blocking receive in `Release` could pair with a parked sender in `Acquire`. Both would then succeed while `len` stays 0. This exists only under concurrency, so `ZeroCapacityNeverGrants` speaks of sequential calls.
- Interleavings of concurrent callers: `FillThenReleaseAll` runs its holders one after another, and the atomic counter and WaitGroup of that test are not modelled.
- `Semaphore.Semaphore.New`: its capacity is a `nat`. A negative capacity makes Go's `make` panic, and that panic is not modelled.
- The interface declarations `HealthChecker`, `Releaser` and `Semaphore` (semaphore.go:9-40) are type plumbing. The concrete behaviour is modelled directly. The error texts ("semaphore is empty", "operation timeout") appear only in comments, because callers compare the error values by identity.
- The test helper `Flush`, which closes and drains the channel, is left out, and so are the benchmarks' `b.N` sizing and the goroutine plumbing.
