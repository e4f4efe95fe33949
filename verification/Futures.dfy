/** The hand-over of a result from the receiver thread to the threads that wait on a future. */
module Futures {

  /** The receiver's progress: write the results, set the flag, release the lock. */
  datatype Receiver = ToWrite | ToPublish | ToSignal | Done

  /**
   * A thread using the future. `TryRead` has found the flag unset inside `try_wait` and is about to take
   * the lock once; `Checking` is at the head of the loop in `wait`, `Spinning` inside the lock's loop.
   */
  datatype Waiter = Idle | TryRead | Checking | Spinning | Returned

  /** The spin lock starts clear; `written` says whether the result fields hold the answer. */
  datatype State = State(written: bool, available: bool, locked: bool, receiver: Receiver, waiters: seq<Waiter>)

  function Initial(n: nat): State {
    State(false, false, false, ToWrite, seq(n, _ => Idle))
  }

  ghost predicate ReceiverStep(s: State, t: State) {
    match s.receiver
    case ToWrite => t == s.(written := true, receiver := ToPublish)
    case ToPublish => t == s.(available := true, receiver := ToSignal)
    case ToSignal => t == s.(locked := false, receiver := Done)
    case Done => false
  }

  /** One atomic step of waiter `i`; a failed test-and-set leaves the state as it is. */
  ghost predicate WaiterStep(s: State, t: State, i: nat) {
    && i < |s.waiters|
    && match s.waiters[i]
       case Idle =>
         || t == s.(waiters := s.waiters[i := Checking])
         || t == (if s.available then s else s.(waiters := s.waiters[i := TryRead]))
       case TryRead => t == s.(locked := true, waiters := s.waiters[i := Idle])
       case Checking => t == s.(waiters := s.waiters[i := if s.available then Returned else Spinning])
       case Spinning => t == if s.locked then s else s.(locked := true, waiters := s.waiters[i := Checking])
       case Returned => false
  }

  /** What the test-and-set in `try_wait` returns to the caller. */
  predicate TryWaitResult(s: State) {
    !s.locked
  }

  ghost predicate Next(s: State, t: State) {
    ReceiverStep(s, t) || exists i: nat :: WaiterStep(s, t, i)
  }

  ghost predicate IsRun(run: seq<State>, n: nat) {
    && run != [] && run[0] == Initial(n)
    && forall k :: 0 <= k < |run| - 1 ==> Next(run[k], run[k + 1])
  }

  ghost predicate Reachable(s: State, n: nat) {
    exists run :: IsRun(run, n) && run[|run| - 1] == s
  }

  // ---- What holds with any number of waiters ----

  ghost predicate Inv(s: State, n: nat) {
    && |s.waiters| == n
    && (s.written <==> !s.receiver.ToWrite?)
    && (s.available <==> s.receiver.ToSignal? || s.receiver.Done?)
    && (forall i :: 0 <= i < n && s.waiters[i].Returned? ==> s.available)
    && (n == 1 && s.receiver.Done? && s.waiters[0].Spinning? ==> !s.locked)
  }

  lemma InvStep(s: State, t: State, n: nat)
    requires Inv(s, n) && Next(s, t)
    ensures Inv(t, n)
  {
    if !ReceiverStep(s, t) {
      var i: nat :| WaiterStep(s, t, i);
    }
  }

  lemma {:induction false} InvRun(run: seq<State>, n: nat)
    requires IsRun(run, n)
    ensures Inv(run[|run| - 1], n)
  {
    var k := |run| - 1;
    if k > 0 {
      assert IsRun(run[..k], n);
      InvRun(run[..k], n);
      assert Next(run[k - 1], run[k - 1 + 1]);
      InvStep(run[k - 1], run[k], n);
    }
  }

  lemma InvReachable(s: State, n: nat)
    requires Reachable(s, n)
    ensures Inv(s, n)
  {
    var run :| IsRun(run, n) && run[|run| - 1] == s;
    InvRun(run, n);
  }

  /** `wait` returns only after the results are written, in every interleaving of any number of waiters. */
  lemma WaitReturnsAfterWrite(s: State, n: nat, i: nat)
    requires Reachable(s, n) && i < |s.waiters| && s.waiters[i] == Returned
    ensures s.written && s.available
  {
    InvReachable(s, n);
  }

  // ---- Stuck waiters ----

  /** The receiver has finished and waiter `i` spins on a lock that is held. */
  ghost predicate Stuck(s: State, i: nat) {
    i < |s.waiters| && s.receiver.Done? && s.waiters[i].Spinning? && s.locked
  }

  /** Nobody releases the lock any more, so a stuck waiter stays stuck. */
  lemma StuckForever(s: State, t: State, i: nat)
    requires Stuck(s, i) && Next(s, t)
    ensures Stuck(t, i)
  {
    if !ReceiverStep(s, t) {
      var j: nat :| WaiterStep(s, t, j);
    }
  }

  lemma StepOf(s: State, t: State, i: nat)
    requires WaiterStep(s, t, i)
    ensures Next(s, t)
  {
  }

  /** Two waiters that both saw the flag unset: the first to take the released lock starves the other. */
  lemma TwoWaitersGetStuck(n: nat) returns (s: State)
    requires n >= 2
    ensures Reachable(s, n) && Stuck(s, 1)
  {
    var s0 := Initial(n);
    var s1 := s0.(waiters := s0.waiters[0 := Checking]);
    var s2 := s1.(waiters := s1.waiters[0 := Spinning]);
    var s3 := s2.(waiters := s2.waiters[1 := Checking]);
    var s4 := s3.(waiters := s3.waiters[1 := Spinning]);
    var s5 := s4.(written := true, receiver := ToPublish);
    var s6 := s5.(available := true, receiver := ToSignal);
    var s7 := s6.(locked := false, receiver := Done);
    s := s7.(locked := true, waiters := s7.waiters[0 := Checking]);
    StepOf(s0, s1, 0);
    StepOf(s1, s2, 0);
    StepOf(s2, s3, 1);
    StepOf(s3, s4, 1);
    StepOf(s7, s, 0);
    var run := [s0, s1, s2, s3, s4, s5, s6, s7, s];
    assert IsRun(run, n);
  }

  /** A waiter can be left spinning for ever exactly when the future has more than one waiter. */
  lemma StuckIffSeveralWaiters(n: nat)
    ensures (exists s, i: nat :: Reachable(s, n) && Stuck(s, i)) <==> n >= 2
  {
    if n >= 2 {
      var s := TwoWaitersGetStuck(n);
    }
    forall s, i: nat | Reachable(s, n) && Stuck(s, i) ensures n >= 2 {
      InvReachable(s, n);
    }
  }

  /** Steps a waiter that is inside `wait` still needs once the receiver is done. */
  function StepsLeft(w: Waiter): nat {
    match w
    case Spinning => 2
    case Checking => 1
    case _ => 0
  }

  /** With one waiter, every step it takes after the receiver is done brings `wait` closer to returning. */
  lemma OneWaiterReturns(s: State, t: State)
    requires Reachable(s, 1) && s.receiver.Done?
    requires WaiterStep(s, t, 0) && (s.waiters[0].Spinning? || s.waiters[0].Checking?)
    ensures StepsLeft(t.waiters[0]) < StepsLeft(s.waiters[0])
    ensures StepsLeft(t.waiters[0]) == 0 ==> t.waiters[0] == Returned
  {
    InvReachable(s, 1);
  }

  // ---- What `try_wait` reports ----

  /** While there is no result nobody releases the lock. */
  lemma LockStays(s: State, t: State, n: nat)
    requires Inv(s, n) && Next(s, t) && !t.available
    ensures !s.available && (s.locked ==> t.locked)
  {
    if !ReceiverStep(s, t) {
      var i: nat :| WaiterStep(s, t, i);
    }
  }

  lemma {:induction false} LockedSinceFirstTaken(run: seq<State>, n: nat)
    requires IsRun(run, n) && !run[|run| - 1].available
    ensures run[|run| - 1].locked <==> exists k :: 0 <= k < |run| && run[k].locked
  {
    hide Next;
    var k := |run| - 1;
    if k > 0 {
      var before := run[..k];
      assert IsRun(before, n);
      InvRun(before, n);
      assert Next(run[k - 1], run[k - 1 + 1]);
      LockStays(run[k - 1], run[k], n);
      LockedSinceFirstTaken(before, n);
      if j :| 0 <= j < |run| && run[j].locked && j < k {
        assert before[j].locked;
      }
      if j :| 0 <= j < |before| && before[j].locked {
        assert run[j].locked;
      }
    }
  }

  /**
   * A `try_wait` that found no result tells the truth exactly when the result has come meanwhile or somebody has
   * taken this future's lock before, by polling or by waiting; otherwise it reports a result that is not there.
   */
  lemma TryWaitTruthfulIff(run: seq<State>, n: nat, i: nat)
    requires IsRun(run, n) && i < |run[|run| - 1].waiters| && run[|run| - 1].waiters[i].TryRead?
    ensures var s := run[|run| - 1];
      (TryWaitResult(s) ==> s.available) <==> s.available || exists k :: 0 <= k < |run| && run[k].locked
  {
    if !run[|run| - 1].available {
      LockedSinceFirstTaken(run, n);
    }
  }

  /** In step `k` waiter `i` makes the test-and-set of a `try_wait` that found no result. */
  ghost predicate Polls(run: seq<State>, k: int, i: nat) {
    && 0 <= k < |run| - 1 && i < |run[k].waiters| && run[k].waiters[i].TryRead?
    && i < |run[k + 1].waiters| && run[k + 1].waiters[i].Idle?
  }

  /** Polling takes the lock. */
  lemma PollLocks(run: seq<State>, n: nat, k: int, i: nat)
    requires IsRun(run, n) && Polls(run, k, i)
    ensures run[k + 1].locked
  {
    assert Next(run[k], run[k + 1]);
    if !ReceiverStep(run[k], run[k + 1]) {
      var j: nat :| WaiterStep(run[k], run[k + 1], j);
      assert j == i;
    }
  }

  /** Once somebody has polled, `try_wait` reports no result until there is one. */
  lemma PolledThenTruthful(run: seq<State>, n: nat, k: int, i: nat)
    requires IsRun(run, n) && Polls(run, k, i) && !run[|run| - 1].available
    ensures !TryWaitResult(run[|run| - 1])
  {
    PollLocks(run, n, k, i);
    LockedSinceFirstTaken(run, n);
  }

  /** Before the result is there at most one poll, over all waiters, reports it. */
  lemma OneSpuriousPoll(run: seq<State>, n: nat, j: int, a: nat, k: int, b: nat)
    requires IsRun(run, n) && Polls(run, j, a) && Polls(run, k, b) && j < k && !run[k].available
    ensures !TryWaitResult(run[k])
  {
    hide Next;
    var before := run[..k + 1];
    assert IsRun(before, n) && Polls(before, j, a);
    PolledThenTruthful(before, n, j, a);
  }

  /** So the very first `try_wait` on a future, if nobody waits on it, reports success before anything was written. */
  lemma FirstTryWaitIsSpurious(n: nat, i: nat) returns (run: seq<State>)
    requires i < n
    ensures IsRun(run, n)
    ensures var s := run[|run| - 1];
      i < |s.waiters| && s.waiters[i].TryRead? && TryWaitResult(s) && !s.written
  {
    var s0 := Initial(n);
    var s := s0.(waiters := s0.waiters[i := TryRead]);
    StepOf(s0, s, i);
    run := [s0, s];
  }
}
