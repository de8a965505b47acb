/**
 * `condition_variable`: the deadline it keeps in its `timeout` field, the
 * classification of `pthread_cond_timedwait` return codes, and the
 * predicate-wait loops.  The operating system is replaced by inputs: the
 * clock reading (`None` when `gettimeofday` fails), and for each wakeup the
 * return code of the wait and the value the predicate then has.  The
 * notifications a condition variable receives are kept as a log.
 */
module CondVar {
  import opened Wrappers
  import opened Errno
  import opened Exceptions
  import opened Deadline

  /** `cv_status` */
  datatype CvStatus = NoTimeout | TimedOut

  /** A call of `notify_one` or of `notify_all`. */
  datatype Signal = SignalOne | SignalAll

  /** The mutex a wait releases and re-acquires, by identity. */
  datatype Mutex = Mutex(id: nat)

  /** A `lock_guard` holding a mutex. */
  datatype LockGuard = LockGuard(mutex: Mutex)

  /**
   * One return from `pthread_cond_timedwait`: its return code, and the value
   * the predicate has when it is evaluated next.
   */
  datatype Wakeup = Wakeup(rc: int, pred: bool)

  const AbsTimeInvalid: string := "The value specified by abstime is invalid."
  const MutexNotOwned: string := "The mutex was not owned by the current thread at the time of the call."
  const ClockFailed: string := "failed to get current time."
  const InitFailed: string := "pthread_cond_init failed."

  /** The exception `milliseconds` throws when the clock cannot be read. */
  function ClockError(): PthreadException {
    NewConditionVariableException(ClockFailed)
  }

  /**
   * The `switch` on the return code of a timed wait: ETIMEDOUT is a timeout,
   * EINVAL and EPERM throw, and anything else, 0 included, is no timeout.
   */
  function ClassifyReturnCode(rc: int): (r: Result<CvStatus, PthreadException>)
    ensures r == Success(TimedOut) <==> rc == ETIMEDOUT
    ensures r == Success(NoTimeout) <==> rc != ETIMEDOUT && rc != EINVAL && rc != EPERM
    ensures r.Failure? <==> rc == EINVAL || rc == EPERM
    ensures r.Failure? ==> r.error.kind == ConditionVariableError && r.error.ErrorNumber() == rc
    ensures rc == EINVAL ==> r == Failure(NewConditionVariableException(AbsTimeInvalid, EINVAL))
    ensures rc == EPERM ==> r == Failure(NewConditionVariableException(MutexNotOwned, EPERM))
  {
    if rc == ETIMEDOUT then Success(TimedOut)
    else if rc == EINVAL then Failure(NewConditionVariableException(AbsTimeInvalid, rc))
    else if rc == EPERM then Failure(NewConditionVariableException(MutexNotOwned, rc))
    else Success(NoTimeout)
  }

  // ---------------------------------------------------------------------
  // The untimed predicate wait

  /**
   * How many waits `wait(mtx, lambda)` performs when the predicate is
   * `initial` on entry and `wakeups[i]` after the i-th wakeup.
   */
  function WaitsUntilTrue(initial: bool, wakeups: seq<bool>): (n: nat)
    requires initial || true in wakeups
    ensures n <= |wakeups|
    ensures n == 0 <==> initial
    ensures n > 0 ==> wakeups[n - 1]
    ensures forall i :: 0 <= i < n - 1 ==> !wakeups[i]
    decreases |wakeups|
  {
    if initial then 0
    else
      assert wakeups == [wakeups[0]] + wakeups[1..];
      1 + WaitsUntilTrue(wakeups[0], wakeups[1..])
  }

  // ---------------------------------------------------------------------
  // The timed predicate wait

  /** A wakeup after which the timed loop stops: an error, a timeout, or the predicate true. */
  predicate EndsWait(w: Wakeup) {
    w.pred || w.rc == ETIMEDOUT || w.rc == EINVAL || w.rc == EPERM
  }

  /** The index of the first wakeup that ends the loop, or |env| if none does. */
  function FirstEnd(env: seq<Wakeup>): (k: nat)
    ensures k <= |env|
    ensures forall i :: 0 <= i < k ==> !EndsWait(env[i])
    ensures k < |env| ==> EndsWait(env[k])
  {
    if env == [] then 0
    else if EndsWait(env[0]) then 0
    else 1 + FirstEnd(env[1..])
  }

  /** What the loop yields once a wakeup has ended it: an exception, or the predicate's value. */
  function WakeupOutcome(w: Wakeup): Result<bool, PthreadException> {
    match ClassifyReturnCode(w.rc)
    case Failure(e) => Failure(e)
    case Success(_) => Success(w.pred)
  }

  /**
   * The loop of `wait_for(mtx, millis, lambda)` after the deadline is set
   * and the predicate was false on entry: the outcome, and the absolute time
   * passed to each `pthread_cond_timedwait`.
   */
  function TimedLoop(deadline: TimeSpec, env: seq<Wakeup>): (Result<bool, PthreadException>, seq<TimeSpec>)
    requires FirstEnd(env) < |env|
    decreases |env|
  {
    if EndsWait(env[0]) then (WakeupOutcome(env[0]), [deadline])
    else
      var (r, waits) := TimedLoop(deadline, env[1..]);
      (r, [deadline] + waits)
  }

  /**
   * `wait_for(mtx, millis, lambda)`: set the deadline (which throws when the
   * clock fails), evaluate the predicate, then loop.
   */
  function TimedWait(millis: int, clock: Option<TimeVal>, initial: bool, env: seq<Wakeup>)
    : (Result<bool, PthreadException>, seq<TimeSpec>)
    requires clock.None? || initial || FirstEnd(env) < |env|
  {
    match clock
    case None => (Failure(ClockError()), [])
    case Some(now) => if initial then (Success(true), []) else TimedLoop(NormalisedDeadline(now, millis), env)
  }

  /** The loop performs one wait per wakeup up to the first that ends it, each with the same deadline. */
  lemma {:induction false} TimedLoopShape(deadline: TimeSpec, env: seq<Wakeup>)
    requires FirstEnd(env) < |env|
    ensures var r, waits := TimedLoop(deadline, env).0, TimedLoop(deadline, env).1;
      && |waits| == FirstEnd(env) + 1
      && (forall i :: 0 <= i < |waits| ==> waits[i] == deadline)
      && r == WakeupOutcome(env[FirstEnd(env)])
    decreases |env|
  {
    if !EndsWait(env[0]) {
      TimedLoopShape(deadline, env[1..]);
      assert env[1..][FirstEnd(env[1..])] == env[FirstEnd(env)];
    }
  }

  /** If the predicate already holds on entry, no wait is performed and the result is true. */
  lemma NoWaitWhenAlreadyTrue(millis: int, now: TimeVal, env: seq<Wakeup>, wakeups: seq<bool>)
    ensures TimedWait(millis, Some(now), true, env) == (Success(true), [])
    ensures WaitsUntilTrue(true, wakeups) == 0
  {
  }

  /** The deadline is computed once, before the loop: every wait uses the same one. */
  lemma DeadlineComputedOnce(millis: int, now: TimeVal, initial: bool, env: seq<Wakeup>)
    requires initial || FirstEnd(env) < |env|
    ensures var waits := TimedWait(millis, Some(now), initial, env).1;
      forall i :: 0 <= i < |waits| ==> waits[i] == NormalisedDeadline(now, millis)
  {
    if !initial {
      TimedLoopShape(NormalisedDeadline(now, millis), env);
    }
  }

  /**
   * With the predicate false on entry, the loop waits until the first wakeup
   * that times out, fails or finds the predicate true; any other return
   * code keeps it waiting.  It returns the predicate's last value, the one
   * evaluated after that wakeup, even when that wakeup timed out.
   */
  lemma TimedWaitStopsAtFirstEnd(millis: int, now: TimeVal, env: seq<Wakeup>)
    requires FirstEnd(env) < |env|
    ensures var r, waits := TimedWait(millis, Some(now), false, env).0, TimedWait(millis, Some(now), false, env).1;
      && 0 < |waits| <= |env|
      && (forall i :: 0 <= i < |waits| - 1 ==>
            !env[i].pred && env[i].rc != ETIMEDOUT && env[i].rc != EINVAL && env[i].rc != EPERM)
      && EndsWait(env[|waits| - 1])
      && (r.Success? ==> r.value == env[|waits| - 1].pred)
      && (r.Success? && !r.value ==> env[|waits| - 1].rc == ETIMEDOUT)
  {
    TimedLoopShape(NormalisedDeadline(now, millis), env);
  }

  /**
   * The timed wait throws exactly when the clock fails or the wakeup that
   * ends the loop returned EINVAL or EPERM, and then carries that code.
   */
  lemma TimedWaitErrors(millis: int, clock: Option<TimeVal>, initial: bool, env: seq<Wakeup>)
    requires clock.None? || initial || FirstEnd(env) < |env|
    ensures var r, waits := TimedWait(millis, clock, initial, env).0, TimedWait(millis, clock, initial, env).1;
      && (clock.None? ==> r == Failure(ClockError()) && waits == [])
      && (clock.Some? && !initial ==>
            var rc := env[FirstEnd(env)].rc;
            (r.Failure? <==> rc == EINVAL || rc == EPERM)
            && (r.Failure? ==> r.error.kind == ConditionVariableError && r.error.ErrorNumber() == rc))
  {
    if clock.Some? && !initial {
      TimedLoopShape(NormalisedDeadline(clock.value, millis), env);
    }
  }

  /** The condition variable: the deadline of its last timed wait, and the notifications it received. */
  class ConditionVariable {
    var timeout: TimeSpec
    var signals: seq<Signal>

    constructor ()
      ensures signals == []
    {
      timeout := TimeSpec(0, 0);
      signals := [];
    }

    /** The constructor: it throws when `pthread_cond_init` returns `initRc != 0`. */
    static method Create(initRc: int) returns (r: Result<ConditionVariable, PthreadException>)
      ensures r.Failure? <==> initRc != 0
      ensures r.Failure? ==> r.error == NewConditionVariableException(InitFailed, initRc)
      ensures r.Success? ==> r.value.signals == []
    {
      if initRc != 0 {
        r := Failure(NewConditionVariableException(InitFailed, initRc));
      } else {
        var cv := new ConditionVariable();
        r := Success(cv);
      }
    }

    /**
     * `milliseconds(millis)`: computes `now + millis` from the clock reading
     * as the source does, then carries the nanosecond overflow into the
     * seconds, so that `timeout` is a valid timespec for the same instant;
     * when the clock cannot be read it throws and writes nothing.
     */
    method Milliseconds(millis: int, clock: Option<TimeVal>) returns (r: Outcome<PthreadException>)
      modifies this`timeout
      ensures clock.None? ==> r == Fail(ClockError()) && timeout == old(timeout)
      ensures clock.Some? ==> r == Pass && timeout == NormalisedDeadline(clock.value, millis)
      ensures clock.Some? ==> ValidTimeSpec(timeout)
      ensures clock.Some? ==> TotalNanos(timeout) == TotalNanos(DeadlineOf(clock.value, millis))
    {
      match clock
      case None =>
        r := Fail(NewConditionVariableException(ClockFailed));
      case Some(now) =>
        var sec := now.sec;
        var nsec := now.usec * 1000;
        var s := CDiv(millis, 1000);
        var rest := CRem(millis, 1000);
        var nanos := rest * 1_000_000;
        sec := sec + s;
        nsec := nsec + nanos;
        // The carry the source omits (see Deadline.DeadlineNotNormalised).
        timeout := TimeSpec(sec + nsec / NanosPerSecond, nsec % NanosPerSecond);
        r := Pass;
    }

    /**
     * `wait_for(mtx, millis)`: recomputes the deadline on every call, for a
     * negative `millis` too, then classifies the return code `rc` of the wait.
     */
    method WaitFor(mtx: Mutex, millis: int, clock: Option<TimeVal>, rc: int)
      returns (r: Result<CvStatus, PthreadException>)
      modifies this`timeout
      ensures clock.None? ==> r == Failure(ClockError()) && timeout == old(timeout)
      ensures clock.Some? ==> timeout == NormalisedDeadline(clock.value, millis) && r == ClassifyReturnCode(rc)
    {
      var o := Milliseconds(millis, clock);
      if o.Fail? {
        return Failure(o.error);
      }
      r := ClassifyReturnCode(rc);
    }

    /**
     * `wait(mtx, lambda)`: waits until the predicate is true, then returns
     * true.  `wakeups[i]` is the predicate's value after the i-th wakeup;
     * `waits` counts the calls of `wait(mtx)`.  The predicate must become
     * true, or the call never returns.
     */
    method WaitUntil(mtx: Mutex, initial: bool, wakeups: seq<bool>) returns (r: bool, waits: nat)
      requires initial || true in wakeups
      ensures r
      ensures waits == WaitsUntilTrue(initial, wakeups)
    {
      var stopWaiting := initial;
      waits := 0;
      while !stopWaiting
        invariant waits <= |wakeups|
        invariant stopWaiting || true in wakeups[waits..]
        invariant WaitsUntilTrue(initial, wakeups) == waits + WaitsUntilTrue(stopWaiting, wakeups[waits..])
        decreases |wakeups| - waits
      {
        assert wakeups[waits..][1..] == wakeups[waits + 1..];
        stopWaiting := wakeups[waits];
        waits := waits + 1;
      }
      r := stopWaiting;
    }

    /** `wait(lck, lambda)` forwards to the mutex the guard holds. */
    method WaitUntilGuard(lck: LockGuard, initial: bool, wakeups: seq<bool>) returns (r: bool, waits: nat)
      requires initial || true in wakeups
      ensures r
      ensures waits == WaitsUntilTrue(initial, wakeups)
    {
      r, waits := WaitUntil(lck.mutex, initial, wakeups);
    }

    /**
     * `wait_for(mtx, millis, lambda)`: `initial` is the predicate on entry
     * and `env` what each wakeup brings; `waits` is the absolute time given
     * to each `pthread_cond_timedwait`.
     */
    method WaitForPredicate(mtx: Mutex, millis: int, clock: Option<TimeVal>, initial: bool, env: seq<Wakeup>)
      returns (r: Result<bool, PthreadException>, waits: seq<TimeSpec>)
      requires clock.None? || initial || FirstEnd(env) < |env|
      modifies this`timeout
      ensures (r, waits) == TimedWait(millis, clock, initial, env)
      ensures clock.None? ==> timeout == old(timeout)
      ensures clock.Some? ==> timeout == NormalisedDeadline(clock.value, millis)
    {
      waits := [];
      var o := Milliseconds(millis, clock);
      if o.Fail? {
        return Failure(o.error), [];
      }
      var stopWaiting := initial;
      var status := NoTimeout;
      var i := 0;
      while !stopWaiting && status == NoTimeout
        invariant timeout == NormalisedDeadline(clock.value, millis)
        invariant |waits| == i && forall j :: 0 <= j < i ==> waits[j] == timeout
        invariant i == 0 ==> stopWaiting == initial && status == NoTimeout
        invariant i > 0 ==> !initial && i - 1 <= FirstEnd(env) && i <= |env|
                            && !WakeupOutcome(env[i - 1]).Failure?
                            && stopWaiting == env[i - 1].pred
                            && (status == TimedOut <==> env[i - 1].rc == ETIMEDOUT)
        decreases |env| - i
      {
        var w := env[i];
        waits := waits + [timeout];
        i := i + 1;
        var c := ClassifyReturnCode(w.rc);
        match c
        case Failure(e) =>
          TimedLoopShape(timeout, env);
          assert waits == TimedWait(millis, clock, initial, env).1;
          return Failure(e), waits;
        case Success(s) =>
          status := s;
        stopWaiting := w.pred;
      }
      r := Success(stopWaiting);
      if !initial {
        TimedLoopShape(timeout, env);
        assert waits == TimedWait(millis, clock, initial, env).1;
      }
    }

    /** `wait_for(lck, millis, lambda)` forwards to the mutex the guard holds, with the same delay and predicate. */
    method WaitForPredicateGuard(lck: LockGuard, millis: int, clock: Option<TimeVal>, initial: bool, env: seq<Wakeup>)
      returns (r: Result<bool, PthreadException>, waits: seq<TimeSpec>)
      requires clock.None? || initial || FirstEnd(env) < |env|
      modifies this`timeout
      ensures (r, waits) == TimedWait(millis, clock, initial, env)
      ensures clock.None? ==> timeout == old(timeout)
      ensures clock.Some? ==> timeout == NormalisedDeadline(clock.value, millis)
    {
      r, waits := WaitForPredicate(lck.mutex, millis, clock, initial, env);
    }

    /** `notify_one()` */
    method NotifyOne()
      modifies this`signals
      ensures signals == old(signals) + [SignalOne]
    {
      signals := signals + [SignalOne];
    }

    /** `notify_all()` */
    method NotifyAll()
      modifies this`signals
      ensures signals == old(signals) + [SignalAll]
    {
      signals := signals + [SignalAll];
    }
  }
}
