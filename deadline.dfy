/**
 * Deadline arithmetic of `condition_variable::milliseconds`: the absolute
 * time `now + millis` as a `timespec`, computed from a `timeval` with C++'s
 * truncating `/` and `%` and without carrying nanoseconds into seconds.
 * `now` (the result of `gettimeofday`) is an input.  `DeadlineOf` is the
 * computation as written; `NormalisedDeadline` carries the overflow and is
 * what the condition variable stores.
 */
module Deadline {

  const NanosPerSecond: int := 1_000_000_000

  /** `struct timeval`: seconds and microseconds. */
  datatype TimeVal = TimeVal(sec: int, usec: int)

  /** `struct timespec`: seconds and nanoseconds. */
  datatype TimeSpec = TimeSpec(sec: int, nsec: int)

  /** C++ integer division: the quotient truncated toward zero. */
  function CDiv(a: int, b: int): int
    requires b > 0
  {
    if a >= 0 then a / b else -((-a) / b)
  }

  /** C++ integer remainder: it takes the sign of the dividend. */
  function CRem(a: int, b: int): int
    requires b > 0
  {
    if a >= 0 then a % b else -((-a) % b)
  }

  /** The two C++ operators agree with each other and truncate toward zero. */
  lemma CDivRem(a: int, b: int)
    requires b > 0
    ensures CDiv(a, b) * b + CRem(a, b) == a
    ensures 0 <= a ==> 0 <= CRem(a, b) < b
    ensures a < 0 ==> -b < CRem(a, b) <= 0
    ensures CDiv(-a, b) == -CDiv(a, b) && CRem(-a, b) == -CRem(a, b)
  {
    if a < 0 {
      assert (-a) / b * b + (-a) % b == -a;
    }
  }

  /** They differ from Dafny's Euclidean operators on negative dividends. */
  lemma CDivIsNotEuclidean()
    ensures CDiv(-1500, 1000) == -1 && CRem(-1500, 1000) == -500
    ensures -1500 / 1000 == -2 && -1500 % 1000 == 500
  {
  }

  /** The instant a timespec denotes, in nanoseconds. */
  function TotalNanos(t: TimeSpec): int {
    t.sec * NanosPerSecond + t.nsec
  }

  /** A timespec whose nanosecond field lies in 0 .. 999,999,999. */
  predicate ValidTimeSpec(t: TimeSpec) {
    0 <= t.nsec < NanosPerSecond
  }

  /** The `timeout` that `milliseconds(millis)` writes when the clock reads `now`. */
  function DeadlineOf(now: TimeVal, millis: int): TimeSpec {
    TimeSpec(now.sec + CDiv(millis, 1000), now.usec * 1000 + CRem(millis, 1000) * 1_000_000)
  }

  /** The deadline is `now + millis` exactly, for every millis, negative ones included. */
  lemma DeadlineIsNowPlusMillis(now: TimeVal, millis: int)
    ensures TotalNanos(DeadlineOf(now, millis))
         == now.sec * NanosPerSecond + now.usec * 1000 + millis * 1_000_000
  {
    var q, r := CDiv(millis, 1000), CRem(millis, 1000);
    CDivRem(millis, 1000);
    calc {
      TotalNanos(DeadlineOf(now, millis));
      (now.sec + q) * NanosPerSecond + now.usec * 1000 + r * 1_000_000;
      now.sec * NanosPerSecond + now.usec * 1000 + (q * 1000 + r) * 1_000_000;
      now.sec * NanosPerSecond + now.usec * 1000 + millis * 1_000_000;
    }
  }

  /** The seconds field gains the whole seconds of millis, truncated toward zero. */
  lemma DeadlineSeconds(now: TimeVal, millis: int)
    ensures DeadlineOf(now, millis).sec - now.sec == CDiv(millis, 1000)
    ensures 0 <= millis ==> DeadlineOf(now, millis).sec - now.sec == millis / 1000
    ensures millis < 0 ==> DeadlineOf(now, millis).sec - now.sec == -((-millis) / 1000)
  {
  }

  /**
   * No carry is done, but for a non-negative delay and a well-formed `now`
   * the nanosecond field stays below two seconds.
   */
  lemma DeadlineNanosBound(now: TimeVal, millis: int)
    requires 0 <= millis && 0 <= now.usec < 1_000_000
    ensures 0 <= DeadlineOf(now, millis).nsec < 2 * NanosPerSecond
  {
    CDivRem(millis, 1000);
  }

  /**
   * The nanosecond field can reach a second or more, so the timespec handed
   * to `pthread_cond_timedwait` is not a valid one.
   */
  lemma DeadlineNotNormalised()
    ensures DeadlineOf(TimeVal(0, 999_999), 999) == TimeSpec(0, 1_998_999_000)
    ensures !ValidTimeSpec(DeadlineOf(TimeVal(0, 999_999), 999))
  {
  }

  /** A negative delay can make the nanosecond field negative. */
  lemma NegativeDelayNegativeNanos()
    ensures DeadlineOf(TimeVal(5, 0), -1) == TimeSpec(5, -1_000_000)
    ensures !ValidTimeSpec(DeadlineOf(TimeVal(5, 0), -1))
  {
  }

  /** The deadline with the nanosecond overflow carried into the seconds. */
  function NormalisedDeadline(now: TimeVal, millis: int): (t: TimeSpec)
    ensures ValidTimeSpec(t)
    ensures TotalNanos(t) == TotalNanos(DeadlineOf(now, millis))
  {
    var d := DeadlineOf(now, millis);
    var carry := d.nsec / NanosPerSecond;
    TimeSpec(d.sec + carry, d.nsec % NanosPerSecond)
  }

  /**
   * Normalising changes nothing when the computed deadline is already well
   * formed.
   */
  lemma NormalisedAgreesWhenValid(now: TimeVal, millis: int)
    requires ValidTimeSpec(DeadlineOf(now, millis))
    ensures NormalisedDeadline(now, millis) == DeadlineOf(now, millis)
  {
    var d := DeadlineOf(now, millis);
    assert d.nsec / NanosPerSecond == 0;
  }
}
