/**
 * `sync_queue<T>`: a bounded FIFO queue guarded by a mutex and two
 * condition variables, `not_empty` (signalled by puts) and `not_full`
 * (signalled by gets).  The model is sequential: nothing changes the queue
 * while a call waits, so the wait predicate keeps the value it had on
 * entry.  A blocking call is therefore only modelled when its predicate
 * holds on entry (its precondition); a timed call whose predicate is false
 * waits until the first wakeup that ends the wait, given by the return codes
 * `rcs` of the successive timed waits.
 */
module SyncQueue {
  import opened Wrappers
  import opened Errno
  import opened Exceptions
  import opened Deadline
  import opened CondVar

  const GetTimedOut: string := "synchronized_queue::get() timed out."
  const PutTimedOut: string := "synchronized_queue::put() timeout, queue is full."

  /** The wakeups of a wait during which the predicate keeps the value `pred`. */
  function Replay(rcs: seq<int>, pred: bool): (env: seq<Wakeup>)
    ensures |env| == |rcs|
    ensures forall i :: 0 <= i < |rcs| ==> env[i] == Wakeup(rcs[i], pred)
  {
    seq(|rcs|, i requires 0 <= i < |rcs| => Wakeup(rcs[i], pred))
  }

  /**
   * A timed wait whose predicate is false on entry and stays false never
   * reports the predicate true: it times out or throws.
   */
  lemma UnchangedPredicateStaysFalse(millis: int, now: TimeVal, rcs: seq<int>)
    requires FirstEnd(Replay(rcs, false)) < |rcs|
    ensures var r := TimedWait(millis, Some(now), false, Replay(rcs, false)).0;
      r == Success(false) || (r.Failure? && r.error.kind == ConditionVariableError)
  {
    var env := Replay(rcs, false);
    var k := FirstEnd(env);
    TimedLoopShape(NormalisedDeadline(now, millis), env);
    var w := env[k];
    assert w.pred == false;
    var r := WakeupOutcome(w);
    assert r == Success(false) || (r.Failure? && r.error.kind == ConditionVariableError);
  }

  /** The largest value of the `int` that holds the bound. */
  const IntMax: int := 0x7fff_ffff

  /**
   * A queue bound: `_max_size` is a `std::atomic<int>`, and the model keeps
   * to its non-negative values.
   */
  type Capacity = n: int | 0 <= n <= IntMax

  class SyncQueue<T> {
    var items: seq<T>
    /** `_max_size` */
    var maxSize: Capacity
    const mutex: Mutex
    const notEmpty: ConditionVariable
    const notFull: ConditionVariable

    ghost predicate Valid()
      reads this
    {
      notEmpty != notFull
    }

    /** `sync_queue(int max_size = 10)`: an empty queue. */
    constructor (maxSize: Capacity := 10)
      ensures Valid()
      ensures items == [] && this.maxSize == maxSize
      ensures fresh(notEmpty) && fresh(notFull) && notEmpty.signals == [] && notFull.signals == []
    {
      items := [];
      this.maxSize := maxSize;
      mutex := Mutex(0);
      notEmpty := new ConditionVariable();
      notFull := new ConditionVariable();
    }

    /** `size()` */
    function Size(): (n: nat)
      reads this
      ensures n == |items|
    {
      |items|
    }

    /** `empty()` holds exactly when the queue holds no item. */
    function Empty(): (b: bool)
      reads this
      ensures b <==> Size() == 0
    {
      items == []
    }

    /** `max_size()` */
    function MaxSize(): Capacity
      reads this
    {
      maxSize
    }

    /**
     * `set_max_size(n)`: rewrites the bound and nothing else; items above a
     * lowered bound stay.  No waiting producer is notified.  A `size_t` is
     * never negative, so the branch that throws is dead.
     */
    method SetMaxSize(n: Capacity)
      modifies this`maxSize
      ensures maxSize == n && items == old(items)
    {
      if n >= 0 {
        maxSize := n;
      } else {
        assert false;
      }
    }

    /**
     * `put(item)`: waits on `not_full` until there is room, appends at the
     * back and signals `not_empty` once.
     */
    method Put(item: T)
      requires Valid()
      requires |items| < maxSize
      modifies this`items, notEmpty`signals
      ensures items == old(items) + [item]
      ensures notEmpty.signals == old(notEmpty.signals) + [SignalOne]
      ensures notFull.signals == old(notFull.signals)
    {
      var ready, waits := notFull.WaitUntil(mutex, |items| < maxSize, []);
      items := items + [item];
      notEmpty.NotifyOne();
    }

    /**
     * `get(item)`: waits on `not_empty` until there is an item, takes the
     * front one and signals `not_full` once.
     */
    method Get() returns (item: T)
      requires Valid()
      requires items != []
      modifies this`items, notFull`signals
      ensures item == old(items)[0] && items == old(items)[1..]
      ensures notFull.signals == old(notFull.signals) + [SignalOne]
      ensures notEmpty.signals == old(notEmpty.signals)
    {
      var lck := LockGuard(mutex);
      var ready, waits := notEmpty.WaitUntilGuard(lck, items != [], []);
      item := items[0];
      items := items[1..];
      notFull.NotifyOne();
    }

    /**
     * `put(item, wait_time)`: appends only if there is room; otherwise, once
     * the wait on `not_full` ends, it broadcasts `not_empty` and throws
     * `queue_full`, leaving the items as they were.  An exception of the
     * wait itself (clock failure, EINVAL, EPERM) passes through.
     */
    method PutTimed(item: T, waitTime: int, clock: Option<TimeVal>, rcs: seq<int>)
      returns (r: Outcome<Exception>)
      requires Valid()
      requires clock.None? || |items| < maxSize || FirstEnd(Replay(rcs, false)) < |rcs|
      modifies this`items, notEmpty`signals, notFull`timeout
      ensures r.Pass? <==> clock.Some? && |old(items)| < maxSize
      ensures r.Pass? ==> items == old(items) + [item]
      ensures r.Pass? ==> notEmpty.signals == old(notEmpty.signals) + [SignalOne]
      ensures r.Fail? ==> items == old(items)
      ensures r.Fail? ==> r.error == Queue(NewQueueFull(PutTimedOut))
                          || (r.error.Pthread? && r.error.pthread.kind == ConditionVariableError)
      ensures r == Fail(Queue(NewQueueFull(PutTimedOut))) ==> notEmpty.signals == old(notEmpty.signals) + [SignalAll]
      ensures r.Fail? && r.error.Pthread? ==> notEmpty.signals == old(notEmpty.signals)
      ensures maxSize == 0 ==> r.Fail?
      ensures var room := |old(items)| < maxSize;
        r == match TimedWait(waitTime, clock, room, Replay(rcs, room)).0
             case Failure(e) => Fail(Pthread(e))
             case Success(ok) => if ok then Pass else Fail(Queue(NewQueueFull(PutTimedOut)))
      ensures clock.Some? ==> notFull.timeout == NormalisedDeadline(clock.value, waitTime)
      ensures notFull.signals == old(notFull.signals)
    {
      var room := |items| < maxSize;
      if !room && clock.Some? {
        UnchangedPredicateStaysFalse(waitTime, clock.value, rcs);
      }
      var lck := LockGuard(mutex);
      var notFullNow, waits := notFull.WaitForPredicateGuard(lck, waitTime, clock, room, Replay(rcs, room));
      match notFullNow
      case Failure(e) =>
        r := Fail(Pthread(e));
      case Success(ok) =>
        if ok {
          items := items + [item];
          notEmpty.NotifyOne();
          r := Pass;
        } else {
          notEmpty.NotifyAll();
          r := Fail(Queue(NewQueueFull(PutTimedOut)));
        }
    }

    /**
     * `get(item, wait_time)`: takes the front item if there is one;
     * otherwise, once the wait on `not_empty` ends, it broadcasts `not_full`
     * and throws `queue_timeout`.  On every failure the items and the
     * out-parameter (`item` on entry) are left as they were.
     */
    method GetTimed(item: T, waitTime: int, clock: Option<TimeVal>, rcs: seq<int>)
      returns (r: Outcome<Exception>, itemOut: T)
      requires Valid()
      requires clock.None? || items != [] || FirstEnd(Replay(rcs, false)) < |rcs|
      modifies this`items, notFull`signals, notEmpty`timeout
      ensures r.Pass? <==> clock.Some? && old(items) != []
      ensures r.Pass? ==> itemOut == old(items)[0] && items == old(items)[1..]
      ensures r.Pass? ==> notFull.signals == old(notFull.signals) + [SignalOne]
      ensures r.Fail? ==> items == old(items) && itemOut == item
      ensures r.Fail? ==> r.error == Queue(NewQueueTimeout(GetTimedOut))
                          || (r.error.Pthread? && r.error.pthread.kind == ConditionVariableError)
      ensures r == Fail(Queue(NewQueueTimeout(GetTimedOut))) ==> notFull.signals == old(notFull.signals) + [SignalAll]
      ensures r.Fail? && r.error.Pthread? ==> notFull.signals == old(notFull.signals)
      ensures var nonEmpty := old(items) != [];
        r == match TimedWait(waitTime, clock, nonEmpty, Replay(rcs, nonEmpty)).0
             case Failure(e) => Fail(Pthread(e))
             case Success(ok) => if ok then Pass else Fail(Queue(NewQueueTimeout(GetTimedOut)))
      ensures clock.Some? ==> notEmpty.timeout == NormalisedDeadline(clock.value, waitTime)
      ensures notEmpty.signals == old(notEmpty.signals)
    {
      itemOut := item;
      var nonEmpty := items != [];
      if !nonEmpty && clock.Some? {
        UnchangedPredicateStaysFalse(waitTime, clock.value, rcs);
      }
      var lck := LockGuard(mutex);
      var notEmptyNow, waits := notEmpty.WaitForPredicateGuard(lck, waitTime, clock, nonEmpty, Replay(rcs, nonEmpty));
      match notEmptyNow
      case Failure(e) =>
        r := Fail(Pthread(e));
      case Success(ok) =>
        if ok {
          itemOut := items[0];
          items := items[1..];
          notFull.NotifyOne();
          r := Pass;
        } else {
          notFull.NotifyAll();
          r := Fail(Queue(NewQueueTimeout(GetTimedOut)));
        }
    }
  }
}

/**
 * Properties of the queue across several calls: FIFO order over runs of
 * blocking calls, and the capacity behaviour of timed puts.
 */
module SyncQueueProperties {
  import opened Wrappers
  import opened Errno
  import opened Exceptions
  import opened Deadline
  import opened CondVar
  import opened SyncQueue

  /** A blocking call on the queue. */
  datatype Op<T> = PutOp(item: T) | GetOp

  /**
   * A run of blocking calls when nothing else touches the queue: the items
   * the gets return and the final contents, or `None` when a call would
   * block for ever (a put on a full queue, a get on an empty one).
   */
  function Run<T>(items: seq<T>, maxSize: nat, ops: seq<Op<T>>): Option<(seq<T>, seq<T>)>
    decreases |ops|
  {
    if ops == [] then Some(([], items))
    else match ops[0]
      case PutOp(x) =>
        if |items| < maxSize then Run(items + [x], maxSize, ops[1..]) else None
      case GetOp =>
        if items == [] then None
        else match Run(items[1..], maxSize, ops[1..])
          case None => None
          case Some(res) => Some(([items[0]] + res.0, res.1))
  }

  /** The items a run of calls puts, in order. */
  function PutItems<T>(ops: seq<Op<T>>): seq<T>
    decreases |ops|
  {
    if ops == [] then []
    else (if ops[0].PutOp? then [ops[0].item] else []) + PutItems(ops[1..])
  }

  function Puts<T>(xs: seq<T>): (ops: seq<Op<T>>) {
    seq(|xs|, i requires 0 <= i < |xs| => PutOp(xs[i]))
  }

  function Gets<T>(n: nat): (ops: seq<Op<T>>) {
    seq(n, i => GetOp)
  }

  /**
   * FIFO: whatever the interleaving, the items the gets return followed by
   * what is left are the initial items followed by the items put.
   */
  lemma {:induction false} RunIsFifo<T>(items: seq<T>, maxSize: nat, ops: seq<Op<T>>)
    requires Run(items, maxSize, ops).Some?
    ensures Run(items, maxSize, ops).value.0 + Run(items, maxSize, ops).value.1 == items + PutItems(ops)
    decreases |ops|
  {
    if ops != [] {
      match ops[0]
      case PutOp(x) =>
        RunIsFifo(items + [x], maxSize, ops[1..]);
        assert PutItems(ops) == [x] + PutItems(ops[1..]);
        assert items + [x] + PutItems(ops[1..]) == items + PutItems(ops);
      case GetOp =>
        RunIsFifo(items[1..], maxSize, ops[1..]);
        assert PutItems(ops) == PutItems(ops[1..]);
        var res := Run(items[1..], maxSize, ops[1..]).value;
        assert [items[0]] + res.0 + res.1 == [items[0]] + (res.0 + res.1);
        assert [items[0]] + items[1..] == items;
    }
  }

  /** Puts that all find room just append their items. */
  lemma {:induction false} RunPuts<T>(items: seq<T>, maxSize: nat, xs: seq<T>, ops: seq<Op<T>>)
    requires |items| + |xs| <= maxSize
    ensures Run(items, maxSize, Puts(xs) + ops) == Run(items + xs, maxSize, ops)
    decreases |xs|
  {
    if xs != [] {
      assert (Puts(xs) + ops)[0] == PutOp(xs[0]);
      assert (Puts(xs) + ops)[1..] == Puts(xs[1..]) + ops;
      RunPuts(items + [xs[0]], maxSize, xs[1..], ops);
      assert items + [xs[0]] + xs[1..] == items + xs;
    } else {
      assert Puts(xs) + ops == ops;
      assert items + xs == items;
    }
  }

  /** As many gets as there are items return all of them, in order, and empty the queue. */
  lemma {:induction false} RunGets<T>(items: seq<T>, maxSize: nat)
    ensures Run(items, maxSize, Gets(|items|)) == Some((items, []))
    decreases |items|
  {
    if items != [] {
      assert Gets<T>(|items|)[1..] == Gets(|items[1..]|);
      RunGets(items[1..], maxSize);
      assert [items[0]] + items[1..] == items;
    }
  }

  /** N puts into an empty queue with room for them, then N gets, return the items in insertion order. */
  lemma PutsThenGetsInOrder<T>(xs: seq<T>, maxSize: nat)
    requires |xs| <= maxSize
    ensures Run([], maxSize, Puts(xs) + Gets(|xs|)) == Some((xs, []))
  {
    RunPuts([], maxSize, xs, Gets(|xs|));
    assert [] + xs == xs;
    RunGets(xs, maxSize);
  }

  /** Driving a queue object with blocking calls does what `Run` says. */
  method Perform<T>(q: SyncQueue<T>, ops: seq<Op<T>>) returns (out: seq<T>)
    requires q.Valid()
    requires Run(q.items, q.maxSize, ops).Some?
    modifies q`items, q.notEmpty`signals, q.notFull`signals
    ensures Run(old(q.items), q.maxSize, ops) == Some((out, q.items))
    decreases |ops|
  {
    if ops == [] {
      return [];
    }
    match ops[0]
    case PutOp(x) =>
      q.Put(x);
      out := Perform(q, ops[1..]);
    case GetOp =>
      var y := q.Get();
      var rest := Perform(q, ops[1..]);
      out := [y] + rest;
  }

  /**
   * A full queue rejects a timed put whose wait times out with `queue_full`;
   * after one get the same put succeeds.
   */
  method FullQueueRejectsUntilGet<T>(q: SyncQueue<T>, x: T, now: TimeVal)
    returns (first: Outcome<Exception>, head: T, second: Outcome<Exception>)
    requires q.Valid() && 0 < q.maxSize == |q.items|
    modifies q`items, q.notEmpty`signals, q.notFull`signals, q.notFull`timeout
    ensures first == Fail(Queue(NewQueueFull(PutTimedOut)))
    ensures head == old(q.items)[0]
    ensures second == Pass && q.items == old(q.items)[1..] + [x]
  {
    assert EndsWait(Replay([ETIMEDOUT], false)[0]);
    first := q.PutTimed(x, 0, Some(now), [ETIMEDOUT]);
    head := q.Get();
    second := q.PutTimed(x, 0, Some(now), [ETIMEDOUT]);
  }

  /**
   * Capacity 0 pauses intake: a timed put fails even though the queue was
   * below its old bound, and no item is evicted; raising the bound again
   * lets the next put through.
   */
  method PauseThenResume<T>(q: SyncQueue<T>, x: T, now: TimeVal, capacity: Capacity)
    returns (paused: Outcome<Exception>, resumed: Outcome<Exception>)
    requires q.Valid() && |q.items| < capacity
    modifies q`items, q`maxSize, q.notEmpty`signals, q.notFull`signals, q.notFull`timeout
    ensures paused == Fail(Queue(NewQueueFull(PutTimedOut)))
    ensures resumed == Pass && q.maxSize == capacity && q.items == old(q.items) + [x]
  {
    q.SetMaxSize(0);
    assert EndsWait(Replay([ETIMEDOUT], false)[0]);
    paused := q.PutTimed(x, 0, Some(now), [ETIMEDOUT]);
    q.SetMaxSize(capacity);
    resumed := q.PutTimed(x, 0, Some(now), []);
  }
}
