/** The package's test scenarios that run on one goroutine, written as
    clients of the `Semaphore` class: what each asserts follows from the
    class's contracts alone. */
module SemaphoreScenarios {
  import opened Semaphore

  /** A capacity-0 semaphore and an already-done context: Acquire times out
      whichever way the select is resolved, and calling the handle it
      returns leaves the semaphore empty. */
  method TimeoutOnZeroCapacity(sendFirst: bool) returns (err: Option<Error>, occupied: nat)
    ensures err == Some(Timeout)
    ensures occupied == 0
  {
    var sem := new Semaphore.New(0);
    var release;
    release, err := sem.Acquire(true, sendFirst);
    Call(release);
    occupied := sem.Occupied();
  }

  /** Acquiring `Capacity()` times on a fresh semaphore with a context that
      is never done: before the i-th call the occupancy is i, afterwards the
      semaphore is full and its capacity is still n, so one more such
      Acquire would block. */
  method FillFresh(n: nat) returns (observed: seq<nat>, final: nat, capacity: nat)
    ensures |observed| == n
    ensures forall i :: 0 <= i < n ==> observed[i] == i
    ensures final == n && capacity == n
  {
    var sem := new Semaphore.New(n);
    observed := [];
    var i := 0;
    while i < sem.Capacity()
      invariant sem.Valid() && sem.capacity == n
      invariant i <= n && sem.occupied == i
      invariant |observed| == i
      invariant forall j :: 0 <= j < i ==> observed[j] == j
    {
      observed := observed + [sem.Occupied()];
      var release, err := sem.Acquire(false, true);
      i := i + 1;
    }
    final := sem.Occupied();
    capacity := sem.Capacity();
  }

  /** Release on a fresh semaphore reports `errEmpty` and changes nothing. */
  method ReleaseFresh(n: nat) returns (err: Option<Error>, occupied: nat)
    ensures err == Some(Empty)
    ensures occupied == 0
  {
    var sem := new Semaphore.New(n);
    err := sem.Release();
    occupied := sem.Occupied();
  }

  /** `Capacity()` holders each acquire with a context that is never done
      and later call their handle: no Acquire reports an error, the
      semaphore is then full, and once every handle is called no slot is
      held.  (The holders run one after another here.) */
  method FillThenReleaseAll(n: nat) returns (errors: seq<Option<Error>>, peak: nat, final: nat)
    ensures |errors| == n
    ensures forall i :: 0 <= i < n ==> errors[i] == None
    ensures peak == n
    ensures final == 0
  {
    var sem := new Semaphore.New(n);
    var handles: seq<ReleaseFunc> := [];
    errors := [];
    while |errors| < sem.Capacity()
      invariant sem.Valid() && sem.capacity == n
      invariant |errors| <= n && sem.occupied == |errors|
      invariant forall j :: 0 <= j < |errors| ==> errors[j] == None
      invariant |handles| == |errors|
      invariant forall j :: 0 <= j < |handles| ==> handles[j] == Releaser(sem)
    {
      var release, err := sem.Acquire(false, true);
      errors := errors + [err];
      if err == None {
        handles := handles + [release];
      }
    }
    peak := sem.Occupied();
    var k := 0;
    while k < |handles|
      invariant sem.Valid() && sem.capacity == n
      invariant k <= |handles| && sem.occupied == |handles| - k
    {
      Call(handles[k]);
      k := k + 1;
    }
    final := sem.Occupied();
  }

  /** Acquire and Release in turn, n times, on a semaphore of capacity n:
      the semaphore ends empty. */
  method AcquireReleaseInTurn(n: nat) returns (final: nat)
    ensures final == 0
  {
    var sem := new Semaphore.New(n);
    var i := 0;
    while i < n
      invariant sem.Valid() && sem.capacity == n
      invariant i <= n && sem.occupied == 0
    {
      var release, acquireErr := sem.Acquire(false, true);
      var releaseErr := sem.Release();
      i := i + 1;
    }
    final := sem.Occupied();
  }

  /** Acquire followed by calling the handle it returns leaves the
      semaphore as it was: a granted slot is given back by the releaser,
      and a timeout returns `nothing`, which changes nothing. */
  method AcquireThenCallHandle(sem: Semaphore, done: bool, sendFirst: bool) returns (err: Option<Error>)
    requires sem.Valid()
    requires sem.occupied < sem.capacity || done
    modifies sem
    ensures sem.Valid()
    ensures err == None || err == Some(Timeout)
    ensures sem.Snapshot() == old(sem.Snapshot())
  {
    var release;
    release, err := sem.Acquire(done, sendFirst);
    Call(release);
  }
}
