/**
 * `thread`, `abstract_thread` and `thread_group`.  An operating-system
 * thread is an opaque nonzero handle that the caller supplies (the handle
 * `pthread_create` produced, the handle of the calling thread); the body a
 * thread runs is not modelled.  The transitions of a thread object are pure
 * functions on its state, which the methods follow.
 */
module Threads {
  import opened Wrappers

  /** `thread_status` */
  datatype ThreadStatus = NotAThread | AThread

  /** A `pthread_t`; 0 stands for no thread. */
  type Handle = nat

  /** Why `join` throws a `thread_exception`: not a thread, or a join of the calling thread. */
  datatype JoinFailure = JoinNotAThread | JoinSelf

  /** What a thread object holds: its handle and its status. */
  datatype ThreadState = ThreadState(handle: Handle, status: ThreadStatus)

  /** The state of a thread object that owns no thread. */
  const NoThread: ThreadState := ThreadState(0, NotAThread)

  /** A thread object has status `a_thread` exactly when its handle is nonzero. */
  predicate Consistent(s: ThreadState) {
    s.status == AThread <==> s.handle != 0
  }

  /** `join()` called from the thread `caller`. */
  function JoinStep(s: ThreadState, caller: Handle): (Outcome<JoinFailure>, ThreadState) {
    if s.status == NotAThread then (Fail(JoinNotAThread), s)
    else if s.handle == caller then (Fail(JoinSelf), s)
    else (Pass, NoThread)
  }

  /** `cancel()` when `pthread_cancel` returns `rc`: on success the object no longer owns a thread. */
  function CancelStep(s: ThreadState, rc: int): ThreadState {
    if rc == 0 then NoThread else s
  }

  /** `a = std::move(b)`: the new states of `a` and `b`. */
  function MoveStep(target: ThreadState, source: ThreadState): (ThreadState, ThreadState) {
    (source, NoThread)
  }

  /** `a.swap(b)`: the new states of `a` and `b`. */
  function SwapStep(a: ThreadState, b: ThreadState): (ThreadState, ThreadState) {
    (b, a)
  }

  /**
   * `join` throws exactly for a non-thread and for a self-join, and then
   * changes nothing; a successful join leaves the object not a thread.
   */
  lemma JoinOutcome(s: ThreadState, caller: Handle)
    requires Consistent(s)
    ensures JoinStep(s, caller).0.Fail? <==> s.handle == 0 || s.handle == caller
    ensures JoinStep(s, caller).0 == Fail(JoinSelf) <==> s.handle != 0 && s.handle == caller
    ensures JoinStep(s, caller).0.Fail? ==> JoinStep(s, caller).1 == s
    ensures JoinStep(s, caller).0.Pass? ==> JoinStep(s, caller).1 == NoThread
  {
  }

  /** After a successful join the object is not joinable and a second join throws. */
  lemma JoinTwiceFails(s: ThreadState, caller: Handle, caller2: Handle)
    requires JoinStep(s, caller).0.Pass?
    ensures JoinStep(s, caller).1.handle == 0
    ensures JoinStep(JoinStep(s, caller).1, caller2).0 == Fail(JoinNotAThread)
  {
  }

  /** After a successful cancel, join throws. */
  lemma CancelThenJoinFails(s: ThreadState, caller: Handle)
    ensures JoinStep(CancelStep(s, 0), caller).0 == Fail(JoinNotAThread)
  {
  }

  /**
   * A move hands the source's handle and status to the target exactly once:
   * the source ends owning nothing.
   */
  lemma MoveTransfersOwnership(target: ThreadState, source: ThreadState)
    requires Consistent(source)
    ensures var (t, s) := MoveStep(target, source);
      t == source && s == NoThread && Consistent(t) && Consistent(s)
      && (t.handle != 0 <==> source.handle != 0) && s.handle == 0
  {
  }

  /** Swapping twice restores both objects, and swapping keeps both states consistent. */
  lemma SwapInvolution(a: ThreadState, b: ThreadState)
    requires Consistent(a) && Consistent(b)
    ensures var (a', b') := SwapStep(a, b); SwapStep(a', b') == (a, b) && Consistent(a') && Consistent(b')
  {
  }

  /**
   * Swapping with an object that owns no thread is a move: the other object
   * ends not a thread, as the move operations that use it need.
   */
  lemma SwapIntoEmptyIsMove(b: ThreadState)
    ensures SwapStep(NoThread, b) == MoveStep(NoThread, b)
    ensures SwapStep(NoThread, b).1.status == NotAThread
  {
  }

  /** Every transition keeps a thread object consistent. */
  lemma TransitionsKeepConsistent(s: ThreadState, other: ThreadState, caller: Handle, rc: int)
    requires Consistent(s) && Consistent(other)
    ensures Consistent(JoinStep(s, caller).1)
    ensures Consistent(CancelStep(s, rc))
    ensures Consistent(MoveStep(s, other).0) && Consistent(MoveStep(s, other).1)
  {
  }

  /** `thread`: owns at most one operating-system thread. */
  class Thread {
    var handle: Handle
    var status: ThreadStatus

    function State(): ThreadState
      reads this
    {
      ThreadState(handle, status)
    }

    ghost predicate Valid()
      reads this
    {
      Consistent(State())
    }

    /** `thread()`: not a thread. */
    constructor ()
      ensures Valid() && State() == NoThread
    {
      handle := 0;
      status := NotAThread;
    }

    /** `thread(runner, stack_size)`: the new thread `handle` runs `runner`. */
    constructor Spawn(handle: Handle)
      requires handle != 0
      ensures Valid() && State() == ThreadState(handle, AThread)
    {
      this.handle := handle;
      status := AThread;
    }

    /** `thread(thread &&other)`: takes over `other`'s thread. */
    constructor Move(other: Thread)
      requires other.Valid()
      modifies other
      ensures Valid() && other.Valid()
      ensures (State(), other.State()) == MoveStep(NoThread, old(other.State()))
    {
      handle := other.handle;
      status := other.status;
      new;
      other.handle := 0;
      other.status := NotAThread;
    }

    /** `joinable()`: true exactly when the object owns a thread. */
    function Joinable(): (b: bool)
      reads this
      ensures Valid() ==> (b <==> status == AThread)
    {
      handle != 0
    }

    /** `status()` */
    function Status(): ThreadStatus
      reads this
    {
      status
    }

    /** `join()` from the thread `caller`; on success this blocks until the thread ends. */
    method Join(caller: Handle) returns (r: Outcome<JoinFailure>)
      requires Valid()
      modifies this
      ensures Valid()
      ensures (r, State()) == JoinStep(old(State()), caller)
    {
      if status == NotAThread {
        r := Fail(JoinNotAThread);
      } else if handle == caller {
        r := Fail(JoinSelf);
      } else {
        handle := 0;
        status := NotAThread;
        r := Pass;
      }
    }

    /** `cancel()`, where `rc` is what `pthread_cancel` returns; the call returns it. */
    method Cancel(rc: int) returns (result: int)
      requires Valid()
      modifies this
      ensures Valid()
      ensures result == rc && State() == CancelStep(old(State()), rc)
    {
      if rc == 0 {
        handle := 0;
        status := NotAThread;
      }
      result := rc;
    }

    /** `swap(other)`: exchanges the handles and statuses of the two objects. */
    method Swap(other: Thread)
      modifies this, other
      ensures (State(), other.State()) == SwapStep(old(State()), old(other.State()))
    {
      handle, other.handle := other.handle, handle;
      status, other.status := other.status, status;
    }

    /** `*this = std::move(other)` */
    method MoveAssign(other: Thread)
      requires other != this && other.Valid()
      modifies this, other
      ensures Valid() && other.Valid()
      ensures (State(), other.State()) == MoveStep(old(State()), old(other.State()))
    {
      handle, status := other.handle, other.status;
      other.handle, other.status := 0, NotAThread;
    }
  }

  /** `abstract_thread`: a runnable that creates its own thread when started. */
  class AbstractThread {
    var thread: Thread?
    const stackSize: nat

    ghost predicate Valid()
      reads this, thread
    {
      thread != null ==> thread.Valid()
    }

    /** `abstract_thread(stack_size = 0)`: not started. */
    constructor (stackSize: nat := 0)
      ensures Valid() && thread == null && this.stackSize == stackSize
    {
      thread := null;
      this.stackSize := stackSize;
    }

    /** `start()`: runs `run()` in a new thread, whose handle is `handle`. */
    method Start(handle: Handle)
      requires handle != 0
      modifies this`thread
      ensures Valid() && thread != null && fresh(thread)
      ensures thread.State() == ThreadState(handle, AThread)
    {
      thread := new Thread.Spawn(handle);
    }

    /** The state of the thread it started; a worker never started is not a thread. */
    function State(): ThreadState
      reads this, thread
    {
      if thread == null then NoThread else thread.State()
    }

    /** `joinable()`: started, and its thread not yet joined. */
    predicate Joinable(): (b: bool)
      reads this, thread
      ensures Valid() ==> (b <==> State().status == AThread)
    {
      thread != null && thread.Joinable()
    }

    /** `join()` from the thread `caller`: joins the thread it started; one never started is not a thread. */
    method Join(caller: Handle) returns (r: Outcome<JoinFailure>)
      requires Valid()
      modifies thread
      ensures Valid()
      ensures thread == null ==> r == Fail(JoinNotAThread)
      ensures (r, State()) == JoinStep(old(State()), caller)
    {
      if thread == null {
        r := Fail(JoinNotAThread);
      } else {
        r := thread.Join(caller);
      }
    }
  }

  /** Whether `join` of worker `w` from `caller` succeeds. */
  ghost predicate JoinSucceeds(w: AbstractThread, caller: Handle)
    reads w, w.thread
  {
    JoinStep(w.State(), caller).0.Pass?
  }

  /** `thread_group`: workers in registration order. */
  class ThreadGroup {
    var workers: seq<AbstractThread>
    const joinsFirst: bool
    /** The thread objects the workers have started. */
    ghost var footprint: set<Thread>

    ghost predicate Valid()
      reads this, workers, footprint
    {
      && (forall i, j :: 0 <= i < j < |workers| ==> workers[i] != workers[j])
      && (forall i :: 0 <= i < |workers| && workers[i].thread != null ==>
            workers[i].thread in footprint && workers[i].thread.Valid())
      && (forall i, j :: 0 <= i < j < |workers| && workers[i].thread != null ==> workers[i].thread != workers[j].thread)
    }

    /** `thread_group(destructor_joins_first = false)`: no workers. */
    constructor (destructorJoinsFirst: bool := false)
      ensures Valid() && workers == [] && joinsFirst == destructorJoinsFirst
    {
      workers := [];
      joinsFirst := destructorJoinsFirst;
      footprint := {};
    }

    /** `size()` */
    function Size(): (n: nat)
      reads this
      ensures n == |workers|
    {
      |workers|
    }

    /** `destructor_joins_first()`: the flag given to the constructor. */
    function DestructorJoinsFirst(): bool
      reads this
    {
      joinsFirst
    }

    /** `add(thread)`: registers a worker at the end; the group owns it from now on. */
    method Add(w: AbstractThread)
      requires Valid() && w.Valid() && w !in workers
      requires w.thread != null ==> forall i :: 0 <= i < |workers| ==> workers[i].thread != w.thread
      modifies this`workers, this`footprint
      ensures Valid()
      ensures workers == old(workers) + [w] && Size() == old(Size()) + 1
    {
      workers := workers + [w];
      if w.thread != null {
        footprint := footprint + {w.thread};
      }
      assert forall i :: 0 <= i < |old(workers)| ==> workers[i] == old(workers)[i];
    }

    /** `start()`: starts every worker in registration order; the i-th gets the i-th new handle. */
    method Start(handles: seq<Handle>)
      requires Valid()
      requires |handles| == |workers| && forall i :: 0 <= i < |handles| ==> handles[i] != 0
      modifies this`footprint, workers
      ensures Valid()
      ensures forall i :: 0 <= i < |workers| ==>
        workers[i].thread != null && fresh(workers[i].thread)
        && workers[i].thread.State() == ThreadState(handles[i], AThread)
    {
      var i := 0;
      while i < |workers|
        invariant 0 <= i <= |workers|
        invariant forall j :: 0 <= j < i ==>
          workers[j].thread != null && fresh(workers[j].thread)
          && workers[j].thread.State() == ThreadState(handles[j], AThread)
        invariant forall j :: i <= j < |workers| ==> workers[j].thread == old(workers[j].thread)
        invariant Valid()
      {
        workers[i].Start(handles[i]);
        footprint := footprint + {workers[i].thread};
        i := i + 1;
      }
    }

    /**
     * `join()` from the thread `caller`: joins every worker in registration
     * order.  The first join that throws stops the loop and its exception
     * passes through; `joined` workers were joined before it.
     */
    method Join(caller: Handle) returns (r: Outcome<JoinFailure>, joined: nat)
      requires Valid()
      modifies footprint
      ensures Valid()
      ensures joined <= |workers| && (r.Pass? <==> joined == |workers|)
      ensures forall i :: 0 <= i < joined ==>
        old(JoinSucceeds(workers[i], caller)) && workers[i].State() == NoThread
      ensures joined < |workers| ==> !old(JoinSucceeds(workers[joined], caller))
      ensures joined < |workers| ==> r == JoinStep(old(workers[joined].State()), caller).0
      ensures forall i :: joined <= i < |workers| ==> workers[i].State() == old(workers[i].State())
    {
      joined := 0;
      while joined < |workers|
        invariant joined <= |workers|
        invariant Valid()
        invariant forall i :: 0 <= i < joined ==>
          old(JoinSucceeds(workers[i], caller)) && workers[i].State() == NoThread
        invariant forall i :: joined <= i < |workers| ==> workers[i].State() == old(workers[i].State())
      {
        var res := workers[joined].Join(caller);
        if res.Fail? {
          return res, joined;
        }
        joined := joined + 1;
      }
      r := Pass;
    }
  }

  /** A thread whose cancellation succeeded cannot be joined. */
  method CancelThenJoin(handle: Handle, caller: Handle) returns (rc: int, r: Outcome<JoinFailure>)
    requires handle != 0
    ensures rc == 0 && r == Fail(JoinNotAThread)
  {
    var t := new Thread.Spawn(handle);
    rc := t.Cancel(0);
    r := t.Join(caller);
  }

  /** A started worker is joinable until joined once; a second join throws. */
  method StartJoinTwice(t: AbstractThread, handle: Handle, caller: Handle)
    returns (before: bool, first: Outcome<JoinFailure>, after: bool, second: Outcome<JoinFailure>)
    requires handle != 0 && caller != handle
    modifies t`thread
    ensures before && first == Pass && !after && second == Fail(JoinNotAThread)
  {
    t.Start(handle);
    before := t.Joinable();
    first := t.Join(caller);
    after := t.Joinable();
    second := t.Join(caller);
  }
}
