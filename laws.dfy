/** Laws of the semaphore over single operations and over whole sequences of
    ops made one after another on one semaphore. */
module SemaphoreLaws {
  import opened Semaphore

  /** One call on the semaphore: an Acquire with its context state and the
      scheduler's pick, or a Release (directly or through a releaser). */
  datatype Op = AcquireOp(done: bool, sendFirst: bool) | ReleaseOp

  /** The call returns without needing another goroutine's Release: Release
      always does, Acquire when a slot is free or its context is done by the
      time the select resolves. */
  predicate Enabled(s: State, c: Op) {
    c.ReleaseOp? || SlotFree(s) || c.done
  }

  function Apply(s: State, c: Op): (r: Step)
    requires WellFormed(s) && Enabled(s, c)
  {
    match c
    case AcquireOp(done, sendFirst) => AcquireStep(s, done, sendFirst)
    case ReleaseOp => ReleaseStep(s)
  }

  /** The final state, the error of each call that returned, and whether
      the sequence stopped at a call that cannot return on its own: with no
      slot free and a context that never becomes done, only another
      goroutine's Release could let it go on. */
  datatype Trace = Trace(state: State, errors: seq<Option<Error>>, blocked: bool)

  /** Performs the ops in order until one of them would have to wait. */
  function Run(s: State, ops: seq<Op>): (r: Trace)
    requires WellFormed(s)
    ensures WellFormed(r.state)
    ensures r.state.capacity == s.capacity
    ensures |r.errors| <= |ops|
    ensures !r.blocked <==> |r.errors| == |ops|
    ensures r.blocked ==> !Enabled(r.state, ops[|r.errors|])
    ensures ops != [] && !Enabled(s, ops[0]) ==> r == Trace(s, [], true)
    decreases |ops|
  {
    if ops == [] then
      Trace(s, [], false)
    else if !Enabled(s, ops[0]) then
      Trace(s, [], true)
    else
      var first := Apply(s, ops[0]);
      var rest := Run(first.state, ops[1..]);
      Trace(rest.state, [first.err] + rest.errors, rest.blocked)
  }

  /** Running two sequences one after the other is running their
      concatenation: the second starts from the state the first ends in,
      unless the first stopped at a call that has to wait. */
  lemma {:induction false} RunAppend(s: State, xs: seq<Op>, ys: seq<Op>)
    requires WellFormed(s)
    ensures Run(s, xs).blocked ==> Run(s, xs + ys) == Run(s, xs)
    ensures !Run(s, xs).blocked ==>
      var a := Run(s, xs);
      var b := Run(a.state, ys);
      Run(s, xs + ys) == Trace(b.state, a.errors + b.errors, b.blocked)
    decreases |xs|
  {
    if xs == [] {
      assert xs + ys == ys;
      assert [] + Run(s, ys).errors == Run(s, ys).errors;
    } else {
      assert (xs + ys)[0] == xs[0];
      if Enabled(s, xs[0]) {
        var first := Apply(s, xs[0]);
        assert (xs + ys)[1..] == xs[1..] + ys;
        RunAppend(first.state, xs[1..], ys);
        if !Run(s, xs).blocked {
          var b := Run(Run(s, xs).state, ys);
          assert [first.err] + (Run(first.state, xs[1..]).errors + b.errors)
              == ([first.err] + Run(first.state, xs[1..]).errors) + b.errors;
        }
      }
    }
  }

  /** What a returned call did to the occupancy: +1 for a granted Acquire,
      -1 for a successful Release, 0 for a call that reported an error. */
  function Delta(c: Op, e: Option<Error>): (d: int) {
    if e != None then 0 else if c.AcquireOp? then 1 else -1
  }

  function Net(ops: seq<Op>, errors: seq<Option<Error>>): (n: int)
    requires |errors| <= |ops|
  {
    if errors == [] then 0 else Delta(ops[0], errors[0]) + Net(ops[1..], errors[1..])
  }

  /** The error a call may report: a Release only `errEmpty`, an Acquire
      only `errTimeout` and only when its context is done. */
  predicate Fits(c: Op, e: Option<Error>) {
    match e
    case None => true
    case Some(Empty) => c.ReleaseOp?
    case Some(Timeout) => c.AcquireOp? && c.done
  }

  /** The occupancy changes only through granted Acquires and successful
      Releases, one slot each. */
  lemma {:induction false} RunAccounting(s: State, ops: seq<Op>)
    requires WellFormed(s)
    ensures Run(s, ops).state.occupied == s.occupied + Net(ops, Run(s, ops).errors)
    decreases |ops|
  {
    if ops != [] && Enabled(s, ops[0]) {
      RunAccounting(Apply(s, ops[0]).state, ops[1..]);
    }
  }

  /** No interleaving grants more slots than are free: the slots granted
      minus the slots returned never exceed the room left at the start. */
  lemma NoOverGrant(s: State, ops: seq<Op>)
    requires WellFormed(s)
    ensures Net(ops, Run(s, ops).errors) <= s.capacity - s.occupied
    ensures -Net(ops, Run(s, ops).errors) <= s.occupied
  {
    RunAccounting(s, ops);
  }

  /** Every error in a trace is one the call that produced it may report. */
  lemma {:induction false} RunErrorsFit(s: State, ops: seq<Op>)
    requires WellFormed(s)
    ensures forall i :: 0 <= i < |Run(s, ops).errors| ==> Fits(ops[i], Run(s, ops).errors[i])
    decreases |ops|
  {
    if ops != [] && Enabled(s, ops[0]) {
      var first := Apply(s, ops[0]);
      RunErrorsFit(first.state, ops[1..]);
      var errors := Run(s, ops).errors;
      forall i | 0 <= i < |errors|
        ensures Fits(ops[i], errors[i])
      {
        if i > 0 {
          assert errors[i] == Run(first.state, ops[1..]).errors[i - 1];
          assert ops[i] == ops[1..][i - 1];
        }
      }
    }
  }

  /** A semaphore of capacity 0 never grants a slot: every call either
      blocks or fails, and the state stays empty. */
  lemma {:induction false} ZeroCapacityNeverGrants(ops: seq<Op>)
    ensures Run(State(0, 0), ops).state == State(0, 0)
    ensures forall i :: 0 <= i < |Run(State(0, 0), ops).errors| ==> Run(State(0, 0), ops).errors[i] != None
    decreases |ops|
  {
    if ops != [] && Enabled(State(0, 0), ops[0]) {
      ZeroCapacityNeverGrants(ops[1..]);
      var errors := Run(State(0, 0), ops).errors;
      forall i | 0 <= i < |errors|
        ensures errors[i] != None
      {
        if i > 0 {
          assert errors[i] == Run(State(0, 0), ops[1..]).errors[i - 1];
        }
      }
    }
  }

  /** When a slot is free and the context is done, either outcome may win
      the select, and each is consistent: the grant holds one more slot, the
      timeout holds none. */
  lemma AcquireTie(s: State)
    requires WellFormed(s) && SlotFree(s)
    ensures AcquireStep(s, true, true) == Step(State(s.capacity, s.occupied + 1), None)
    ensures AcquireStep(s, true, false) == Step(s, Some(Timeout))
  {
  }

  /** A granted Acquire followed by a Release (or by calling the returned
      releaser) brings the state back to where it was. */
  lemma AcquireReleaseRoundTrip(s: State, done: bool, sendFirst: bool)
    requires WellFormed(s) && (SlotFree(s) || done)
    requires AcquireStep(s, done, sendFirst).err == None
    ensures ReleaseStep(AcquireStep(s, done, sendFirst).state) == Step(s, None)
  {
  }
}
