/** A bounded counting semaphore whose slots are the buffer of a Go channel.
    The channel's capacity is the semaphore's capacity and the number of
    tokens buffered in it is the occupancy; Acquire sends a token, Release
    receives one.  The abstract state is `State`, the effect of each
    operation on it is `AcquireStep`/`ReleaseStep`, and the class
    `Semaphore` is the object that changes in place. */
module Semaphore {

  datatype Option<T> = None | Some(value: T)

  /** The two error values of the package: `errEmpty` ("semaphore is
      empty") and `errTimeout` ("operation timeout").  Callers compare them
      by identity, so only which one is returned matters here. */
  datatype Error = Empty | Timeout

  /** What a channel buffer is at any moment: its fixed capacity and the
      number of tokens it currently holds. */
  datatype State = State(capacity: nat, occupied: nat)

  /** A buffer never holds more tokens than its capacity. */
  predicate WellFormed(s: State) {
    s.occupied <= s.capacity
  }

  /** The send case of Acquire's select is ready: the buffer has room. */
  predicate SlotFree(s: State) {
    s.occupied < s.capacity
  }

  /** The new state and the error (None for Go's nil) an operation yields. */
  datatype Step = Step(state: State, err: Option<Error>)

  /** Acquire's select.  `done` says whether the context's Done channel is
      closed by the time the select resolves: already at the call, or later
      while the call waits for a slot (a deadline that expires, a cancel).
      `sendFirst` is the runtime's random pick between the two cases when
      both are ready, and matters only then.  A call with neither case ready
      waits until a concurrent Release frees a slot or the context becomes
      done; the precondition leaves that waiting out, and a wait that ends
      in the context firing is this function with `done` true. */
  function AcquireStep(s: State, done: bool, sendFirst: bool): (r: Step)
    requires WellFormed(s)
    requires SlotFree(s) || done
    ensures WellFormed(r.state) && r.state.capacity == s.capacity
    ensures r.err == None || r.err == Some(Timeout)
    ensures r.err == None ==> r.state.occupied == s.occupied + 1
    ensures r.err == Some(Timeout) ==> r.state == s
    ensures !done ==> r.err == None
    ensures !SlotFree(s) ==> r.err == Some(Timeout)
  {
    if SlotFree(s) && (!done || sendFirst) then
      Step(State(s.capacity, s.occupied + 1), None)
    else
      Step(s, Some(Timeout))
  }

  /** Release's select with a default case: receive a token if there is one,
      otherwise report `errEmpty` at once. */
  function ReleaseStep(s: State): (r: Step)
    ensures WellFormed(s) ==> WellFormed(r.state)
    ensures r.state.capacity == s.capacity
    ensures r.err == None <==> s.occupied > 0
    ensures r.err == None ==> r.state.occupied + 1 == s.occupied
    ensures r.err != None ==> r.err == Some(Empty) && r.state == s
  {
    if s.occupied > 0 then
      Step(State(s.capacity, s.occupied - 1), None)
    else
      Step(s, Some(Empty))
  }

  /** The concrete semaphore: a channel whose capacity is fixed by `make`
      and whose buffer length changes with every send and receive. */
  class Semaphore {
    const capacity: nat
    var occupied: nat

    ghost predicate Valid()
      reads this
    {
      WellFormed(Snapshot())
    }

    function Snapshot(): (s: State)
      reads this
    {
      State(capacity, occupied)
    }

    /** `New`: an empty buffer of the given capacity. */
    constructor New(capacity: nat)
      ensures Valid()
      ensures Snapshot() == State(capacity, 0)
    {
      this.capacity := capacity;
      occupied := 0;
    }

    /** `cap(sem)`. */
    function Capacity(): (c: nat)
      reads this
      ensures Valid() ==> Occupied() <= c
    {
      capacity
    }

    /** `len(sem)`. */
    function Occupied(): (n: nat)
      reads this
      ensures Valid() ==> n <= capacity
    {
      occupied
    }

    /** Sends a token, or gives up with `errTimeout` and the no-op handle
        once the context is done. */
    method Acquire(done: bool, sendFirst: bool) returns (release: ReleaseFunc, err: Option<Error>)
      requires Valid()
      requires occupied < capacity || done
      modifies this
      ensures Valid()
      ensures Step(Snapshot(), err) == AcquireStep(old(Snapshot()), done, sendFirst)
      ensures release == if err == None then Releaser(this) else Nothing
    {
      if occupied < capacity && (!done || sendFirst) {
        occupied := occupied + 1;
        release, err := Releaser(this), None;
      } else {
        release, err := Nothing, Some(Timeout);
      }
    }

    /** Receives a token without blocking, or reports `errEmpty`. */
    method Release() returns (err: Option<Error>)
      requires Valid()
      modifies this
      ensures Valid()
      ensures Step(Snapshot(), err) == ReleaseStep(old(Snapshot()))
    {
      if occupied > 0 {
        occupied := occupied - 1;
        err := None;
      } else {
        err := Some(Empty);
      }
    }
  }

  /** A `ReleaseFunc`: either `nothing`, which does nothing, or the closure
      built by `releaser`, which releases a slot of its semaphore. */
  datatype ReleaseFunc = Nothing | Releaser(sem: Semaphore)

  /** Invokes a `ReleaseFunc`.  The releaser closure calls Release and
      discards its error, so the call has Release's effect on the state and
      reports nothing; `nothing` touches no object at all. */
  method Call(f: ReleaseFunc)
    requires f.Releaser? ==> f.sem.Valid()
    modifies if f.Releaser? then {f.sem} else {}
    ensures f.Releaser? ==> f.sem.Valid()
    ensures f.Releaser? ==> f.sem.Snapshot() == ReleaseStep(old(f.sem.Snapshot())).state
  {
    if f.Releaser? {
      var ignored := f.sem.Release();
    }
  }
}
