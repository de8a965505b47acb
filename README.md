# cpp-pthread core in Dafny

A model of the core of cpp-pthread, a C++ wrapper around POSIX threads, with proofs about the model:

- `sync_queue<T>` (`sync_queue.dfy`): a bounded FIFO queue guarded by a mutex and two condition variables.
- The predicate-wait loops of `condition_variable`, and its `pthread_cond_timedwait` return-code switch (`condition_variable.dfy`).
- The deadline arithmetic of `condition_variable::milliseconds` (`deadline.dfy`).
- The `thread` state machine, `abstract_thread` and `thread_group` (`thread.dfy`).
- Message composition of the exception hierarchy (`exceptions.dfy`).

The operating system becomes explicit inputs:

- the reading of `gettimeofday`, which is `None` when the call fails;
- for each return from a timed wait, its return code and the value the wait predicate has afterwards;
- the return codes of `pthread_cond_init` and `pthread_cancel`;
- the handles `pthread_create` produces, and the handle of the calling thread (`this_thread::get_id()`);
- `strerror`, a function parameter of `what()`.

The model is sequential. While a queue operation waits, nothing else changes the queue. A blocking `put`/`get` is modelled when its predicate holds on entry. A timed one runs over a sequence of return codes and must see a wakeup that ends the wait. Notifications are recorded as a log (`signals`) on each condition variable.

`wrappers.dfy` holds `Option`, `Result` and `Outcome`. `Result` and `Outcome` stand in for C++ exceptions. `errno.dfy` holds the Linux values of `EPERM`, `EINVAL` and `ETIMEDOUT`.

Where the repository's comments and its code disagree, the model follows the code:

- **Negative delays.** The comment at `include/pthread/condition_variable.hpp:117-118` says a negative `millis` keeps the previous deadline. `milliseconds` recomputes it on every call, so the deadline becomes `now + millis`, which lies in the past.
- **Separator in `what()`.** `include/pthread/exceptions.hpp:38-40` describes a period rule for the separator before the system text. `src/exceptions.cpp:17` always inserts one space.
- **Accessor names.** The header declares `_error_number`, `error_number()` and `error_message()` (`include/pthread/exceptions.hpp:60-68`). `src/exceptions.cpp:15-40` defines `_pthread_errno`, `pthread_errno()` and `pthread_errmsg()`. The model uses the header's names (`ErrorNumber`, `ErrorMessage`); both pairs return the same values.
- **Raising the capacity.** `set_max_size` (`include/pthread/sync_queue.hpp:123-138`) sends no notification on `not_full`, so a producer waiting on a full queue is not woken when the bound grows. The model records no signal.
- **Status name.** The header names the timeout status `timedout`; `src/condition_variable.cpp` spells it `cv_status::timeout`. The model has `TimedOut`.

Joining an object that is not a thread throws (`JoinNotAThread`). This follows `include/pthread/thread.hpp:132` and the cancel test in `tests/thread_tests.cpp`; such a join is not a no-op.

The deadline is stored with its nanoseconds carried into the seconds (see Findings).

## Model

| member | source | states |
|---|---|---|
| Exceptions.WhatVerbatimWithoutErrorNumber | src/exceptions.cpp:15-19 | with error number 0, `what()` is exactly the message given |
| Exceptions.WhatAppendsSystemText | src/exceptions.cpp:15-19 | with a nonzero error number, `what()` is the message, one space and `strerror(errno)`, in that order and nothing more |
| Exceptions.WhatDeterminesMessage | src/exceptions.cpp:15-32 | for a fixed error number, `what()` determines the message: the composition loses nothing |
| Exceptions.TimeoutCarriesTimedOut | src/exceptions.cpp:44-45 | a `timeout_exception` carries ETIMEDOUT and its text ends in the ETIMEDOUT system text |
| Exceptions.SubclassesForward | src/exceptions.cpp:49-65 | mutex, read-write-lock, condition-variable and thread exceptions forward message and error number to the base unchanged |
| Exceptions.DefaultErrorNumbers | include/pthread/exceptions.hpp:47-148 | default error numbers are 0 for the base and mutex exceptions (text verbatim) and -1 for read-write-lock and thread exceptions (text gets `strerror(-1)`) |
| Exceptions.ConditionVariableDefaults | include/pthread/exceptions.hpp:137-138 | a default `condition_variable_exception` reads "conditional_variable_exception" with error 0 |
| Exceptions.QueueMessages | src/exceptions.cpp:71-86 | `queue_exception`, `queue_full` and `queue_timeout` report their given or default message with nothing appended |
| Exceptions.PthreadException.What | src/exceptions.cpp:15-32 | `what()`: the message, followed by one space and `strerror(errno)` when the error number is nonzero; characterised by WhatVerbatimWithoutErrorNumber, WhatAppendsSystemText and WhatDeterminesMessage |
| Exceptions.PthreadException.ErrorNumber | include/pthread/exceptions.hpp:60-61 | `error_number()` (`pthread_errno()` in the .cpp): the number given at construction |
| Exceptions.PthreadException.ErrorMessage | include/pthread/exceptions.hpp:63-64 | `error_message()` (`pthread_errmsg()` in the .cpp): `strerror` of the stored number |
| Exceptions.NewPthreadException | include/pthread/exceptions.hpp:47 | the base constructor, error number 0 by default; see DefaultErrorNumbers |
| Exceptions.NewTimeoutException | src/exceptions.cpp:44-45 | always carries ETIMEDOUT; see TimeoutCarriesTimedOut |
| Exceptions.NewMutexException | include/pthread/exceptions.hpp:108 | forwards to the base, default 0; see SubclassesForward and DefaultErrorNumbers |
| Exceptions.NewReadWriteLockException | include/pthread/exceptions.hpp:123 | forwards to the base, default -1; see SubclassesForward and DefaultErrorNumbers |
| Exceptions.NewConditionVariableException | include/pthread/exceptions.hpp:137-138 | forwards to the base, default message and 0; see SubclassesForward and ConditionVariableDefaults |
| Exceptions.NewThreadException | include/pthread/exceptions.hpp:148 | forwards to the base, default -1; see SubclassesForward and DefaultErrorNumbers |
| Exceptions.QueueException.What | src/exceptions.cpp:77-80 | the stored message, nothing appended; see QueueMessages |
| Exceptions.NewQueueException | include/pthread/exceptions.hpp:167 | default "queue_error occured."; see QueueMessages |
| Exceptions.NewQueueFull | include/pthread/exceptions.hpp:194 | default "synchronized_queue full."; see QueueMessages |
| Exceptions.NewQueueTimeout | include/pthread/exceptions.hpp:207 | default "synchronized_queue get/put timed out."; see QueueMessages |
| Deadline.CDivRem | src/condition_variable.cpp:59-60 | C++ `/` and `%` satisfy q*b + r == a, truncate toward zero, and give the remainder the dividend's sign |
| Deadline.CDivIsNotEuclidean | src/condition_variable.cpp:59-60 | on -1500 the C++ operators give -1 and -500, unlike Dafny's Euclidean -2 and 500 |
| Deadline.CDiv | src/condition_variable.cpp:59 | C++ `/` on `int`, truncating toward zero; characterised by CDivRem and CDivIsNotEuclidean |
| Deadline.CRem | src/condition_variable.cpp:60 | C++ `%` on `int`, taking the dividend's sign; characterised by CDivRem and CDivIsNotEuclidean |
| Deadline.DeadlineOf | src/condition_variable.cpp:52-69 | the `timeout` the source writes, as written: no carry. Its meaning is given by DeadlineIsNowPlusMillis, DeadlineSeconds and DeadlineNanosBound, and its defect by DeadlineNotNormalised and NegativeDelayNegativeNanos |
| Deadline.DeadlineIsNowPlusMillis | src/condition_variable.cpp:52-69 | the `timeout` written denotes exactly now + millis, for every millis, negative included |
| Deadline.DeadlineSeconds | src/condition_variable.cpp:56-64 | the seconds field gains millis/1000 truncated toward zero |
| Deadline.DeadlineNanosBound | src/condition_variable.cpp:57-65 | for millis >= 0 and a well-formed `now` the nanosecond field stays in 0 .. 2e9-1; this also fits a 32-bit int |
| Deadline.DeadlineNotNormalised | src/condition_variable.cpp:57-65 | now = (0 s, 999999 us) and 999 ms give 1998999000 ns, which is not a valid timespec |
| Deadline.NegativeDelayNegativeNanos | src/condition_variable.cpp:59-65 | now = (5 s, 0 us) and -1 ms give -1000000 ns, which is not a valid timespec |
| Deadline.NormalisedDeadline | src/condition_variable.cpp:52-69 | the corrected deadline is a valid timespec and denotes the same instant as the one computed |
| Deadline.NormalisedAgreesWhenValid | src/condition_variable.cpp:52-69 | when the computed deadline is already valid, the corrected one equals it |
| CondVar.ClassifyReturnCode | src/condition_variable.cpp:22-38 | TimedOut exactly for ETIMEDOUT; a `condition_variable_exception` carrying the code exactly for EINVAL and EPERM, with their texts; NoTimeout for every other code, 0 included |
| CondVar.WaitsUntilTrue | include/pthread/condition_variable.hpp:219-229 | the untimed loop waits zero times iff the predicate holds on entry; otherwise it waits up to and including the first wakeup after which the predicate is true |
| CondVar.FirstEnd | include/pthread/condition_variable.hpp:244-266 | the index of the first wakeup that ends the timed loop, and none before it does |
| CondVar.EndsWait | include/pthread/condition_variable.hpp:244-266 | the wakeups after which the loop stops: the predicate true, or a return code of ETIMEDOUT, EINVAL or EPERM |
| CondVar.WakeupOutcome | include/pthread/condition_variable.hpp:248-266 | what the ending wakeup yields: the exception of ClassifyReturnCode, or the predicate's value |
| CondVar.TimedLoop | include/pthread/condition_variable.hpp:244-267 | the loop as a recursive function over the wakeups; characterised by TimedLoopShape |
| CondVar.TimedWait | include/pthread/condition_variable.hpp:237-271 | the whole timed predicate wait: deadline first (throwing on clock failure), then the predicate, then the loop. Characterised by NoWaitWhenAlreadyTrue, DeadlineComputedOnce, TimedWaitStopsAtFirstEnd and TimedWaitErrors |
| CondVar.TimedLoopShape | include/pthread/condition_variable.hpp:244-270 | the timed loop waits once per wakeup up to the first that ends it, always with the same deadline, and yields that wakeup's outcome |
| CondVar.NoWaitWhenAlreadyTrue | include/pthread/condition_variable.hpp:221-228 | a predicate true on entry means no wait and result true, for both predicate waits |
| CondVar.DeadlineComputedOnce | include/pthread/condition_variable.hpp:241-246 | every `pthread_cond_timedwait` of one `wait_for` gets the one deadline computed on entry (normalised, see Findings) |
| CondVar.TimedWaitStopsAtFirstEnd | include/pthread/condition_variable.hpp:244-270 | other codes keep waiting; the loop stops at a timeout, an error or a true predicate, and returns the predicate evaluated after that wakeup (false only after a timeout) |
| CondVar.TimedWaitErrors | include/pthread/condition_variable.hpp:237-264 | `wait_for` throws exactly on clock failure, or when the wakeup ending the loop returned EINVAL or EPERM, and the exception carries that code |
| CondVar.ConditionVariable.constructor | src/condition_variable.cpp:73-78 | the successful case of `condition_variable()`: empty notification log; Create adds the failing case |
| CondVar.ConditionVariable.Create | src/condition_variable.cpp:73-78 | construction throws "pthread_cond_init failed." with the code exactly when init returns nonzero |
| CondVar.ConditionVariable.Milliseconds | src/condition_variable.cpp:52-69 | computes now + millis as the source does and stores the corrected, normalised `timeout`. That value is a valid timespec for the same instant as the source's. On clock failure it throws and leaves `timeout` alone |
| CondVar.ConditionVariable.WaitFor | src/condition_variable.cpp:15-41 | recomputes the deadline on every call, then classifies the return code |
| CondVar.ConditionVariable.WaitUntil | include/pthread/condition_variable.hpp:219-229 | returns true after exactly WaitsUntilTrue waits |
| CondVar.ConditionVariable.WaitUntilGuard | include/pthread/condition_variable.hpp:231-235 | the lock-guard form behaves as the mutex form |
| CondVar.ConditionVariable.WaitForPredicate | include/pthread/condition_variable.hpp:237-271 | the loop's result and wait deadlines are those of TimedWait, and `timeout` holds the normalised deadline for now + millis |
| CondVar.ConditionVariable.WaitForPredicateGuard | include/pthread/condition_variable.hpp:273-277 | the lock-guard form behaves as the mutex form |
| CondVar.ConditionVariable.NotifyOne | src/condition_variable.cpp:43-45 | appends one `notify_one` to the log and changes nothing else |
| CondVar.ConditionVariable.NotifyAll | src/condition_variable.cpp:47-50 | appends one `notify_all` to the log and changes nothing else |
| SyncQueue.UnchangedPredicateStaysFalse | include/pthread/sync_queue.hpp:200-201 | a timed wait whose predicate stays false ends in a timeout (false) or a condition-variable exception, never true |
| SyncQueue.SyncQueue.constructor | include/pthread/sync_queue.hpp:257-259 | an empty queue with the given capacity, 10 by default |
| SyncQueue.SyncQueue.Empty | include/pthread/sync_queue.hpp:89-91 | true exactly when the size is 0 |
| SyncQueue.SyncQueue.MaxSize | include/pthread/sync_queue.hpp:112-115 | `max_size()`: the current bound, a non-negative `int` |
| SyncQueue.SyncQueue.SetMaxSize | include/pthread/sync_queue.hpp:123-138 | sets the bound and leaves the items alone, even above the new bound; the throwing branch is dead |
| SyncQueue.SyncQueue.Put | include/pthread/sync_queue.hpp:214-229 | with room, appends at the back and signals `not_empty` once; `not_full` untouched |
| SyncQueue.SyncQueue.Get | include/pthread/sync_queue.hpp:172-186 | with an item, removes and returns the front one and signals `not_full` once |
| SyncQueue.SyncQueue.PutTimed | include/pthread/sync_queue.hpp:231-254 | succeeds iff the clock works and there is room, then appends. Otherwise items are unchanged and it fails with `queue_full` (after a `not_empty` broadcast) or with the wait's exception. Capacity 0 always fails |
| SyncQueue.SyncQueue.GetTimed | include/pthread/sync_queue.hpp:188-212 | succeeds iff the clock works and an item exists, then takes the front. Otherwise items and the out-parameter are unchanged and it fails with `queue_timeout` (after a `not_full` broadcast) or with the wait's exception |
| SyncQueueProperties.RunIsFifo | include/pthread/sync_queue.hpp:172-229 | in any sequence of blocking puts and gets, the items got followed by what remains equal the initial items followed by the items put |
| SyncQueueProperties.RunPuts | include/pthread/sync_queue.hpp:214-229 | puts that all find room append their items in order |
| SyncQueueProperties.RunGets | include/pthread/sync_queue.hpp:172-186 | as many gets as items return them all in order and empty the queue |
| SyncQueueProperties.PutsThenGetsInOrder | include/pthread/sync_queue.hpp:172-229 | N puts into an empty queue with room, then N gets, return the items in insertion order |
| SyncQueueProperties.Perform | include/pthread/sync_queue.hpp:172-229 | driving a queue object with blocking calls yields exactly what Run predicts, output and final contents |
| SyncQueueProperties.FullQueueRejectsUntilGet | include/pthread/sync_queue.hpp:231-254 | on a full queue a timed put whose wait times out throws `queue_full`; after one get the same put succeeds |
| SyncQueueProperties.PauseThenResume | include/pthread/sync_queue.hpp:123-138 | with capacity 0 a timed put fails with items kept; restoring the capacity admits the put |
| Threads.JoinOutcome | include/pthread/thread.hpp:124-134 | join throws exactly for a non-thread (JoinNotAThread) or a self-join (JoinSelf) and then changes nothing; success leaves not_a_thread with handle 0 |
| Threads.JoinTwiceFails | include/pthread/thread.hpp:124-140 | after a successful join the object is not joinable, and a second join throws |
| Threads.CancelThenJoinFails | include/pthread/thread.hpp:167-178 | after a successful cancel, join throws JoinNotAThread |
| Threads.MoveTransfersOwnership | include/pthread/thread.hpp:107-113 | a move gives the target the source's handle and status and leaves the source not_a_thread |
| Threads.SwapInvolution | include/pthread/thread.hpp:180-184 | swapping twice restores both objects, and a swap keeps both states consistent |
| Threads.SwapIntoEmptyIsMove | include/pthread/thread.hpp:180-184 | swapping with an object that owns no thread leaves the other one not a thread, as a move does |
| Threads.TransitionsKeepConsistent | include/pthread/thread.hpp:44-49 | join, cancel and move all keep "status is a_thread iff handle is nonzero" |
| Threads.JoinStep | include/pthread/thread.hpp:124-134 | `join()` on a state: throws for not_a_thread, then for a self-join, else ends the thread; characterised by JoinOutcome and JoinTwiceFails |
| Threads.CancelStep | include/pthread/thread.hpp:167-178 | `cancel()` on a state: not_a_thread when `pthread_cancel` returns 0, unchanged otherwise; see CancelThenJoinFails |
| Threads.MoveStep | include/pthread/thread.hpp:107-113 | a move on two states: the target takes the source's state, the source becomes not_a_thread; see MoveTransfersOwnership |
| Threads.SwapStep | include/pthread/thread.hpp:180-184 | a swap on two states: they are exchanged; see SwapInvolution and SwapIntoEmptyIsMove |
| Threads.Thread.constructor | include/pthread/thread.hpp:93-96 | a default thread is not_a_thread with no handle |
| Threads.Thread.Spawn | include/pthread/thread.hpp:98-105 | a thread built with a runnable is a_thread with the new handle |
| Threads.Thread.Move | include/pthread/thread.hpp:107-113 | the move constructor follows MoveStep: `other` ends not_a_thread |
| Threads.Thread.Joinable | include/pthread/thread.hpp:136-140 | joinable exactly when the status is a_thread |
| Threads.Thread.Status | include/pthread/thread.hpp:142-146 | `status()`: the stored status |
| Threads.Thread.Join | include/pthread/thread.hpp:124-134 | follows JoinStep on the object's state |
| Threads.Thread.Cancel | include/pthread/thread.hpp:167-178 | returns the cancel code; on 0 the object becomes not_a_thread, otherwise unchanged |
| Threads.Thread.Swap | include/pthread/thread.hpp:180-184 | exchanges the handles and statuses of the two objects |
| Threads.Thread.MoveAssign | include/pthread/thread.hpp:158-163 | move assignment follows MoveStep: `other` ends not_a_thread |
| Threads.AbstractThread.constructor | include/pthread/thread.hpp:252-257 | not started, with the given stack size (default 0) |
| Threads.AbstractThread.Start | include/pthread/thread.hpp:266-268 | creates a new thread object that is a_thread with the new handle |
| Threads.AbstractThread.Join | include/pthread/thread.hpp:270-274 | follows JoinStep on the worker's state, i.e. joins its thread as Thread.Join does. In the model's reading (see Left out), a worker never started counts as not a thread and throws JoinNotAThread |
| Threads.AbstractThread.Joinable | include/pthread/thread.hpp:276-278 | `joinable()`: true exactly when the worker's thread is a_thread; false before `start()` |
| Threads.ThreadGroup.constructor | include/pthread/thread.hpp:314-321 | an empty group that keeps the `destructor_joins_first` flag, false by default |
| Threads.ThreadGroup.DestructorJoinsFirst | include/pthread/thread.hpp:356-358 | `destructor_joins_first()`: the flag given to the constructor |
| Threads.ThreadGroup.Add | include/pthread/thread.hpp:333-335 | appends the worker at the end; `size()` grows by exactly one |
| Threads.ThreadGroup.Start | include/pthread/thread.hpp:337-341 | starts every worker in order, the i-th with the i-th new handle |
| Threads.ThreadGroup.Join | include/pthread/thread.hpp:343-349 | joins workers in registration order, stopping at the first join that throws. All earlier workers are joined; that one and the later ones are unchanged. The result is Pass iff all were joined, and otherwise the failing worker's own join failure. Stopping at the first failure is the model's reading (see Left out) |
| Threads.CancelThenJoin | tests/thread_tests.cpp:63-70 | a thread whose cancel succeeded throws on join |
| Threads.StartJoinTwice | tests/abstract_thread_tests.cpp:49-58 | a started worker is joinable, one join succeeds, then it is not joinable and a second join throws |

## Left out

- Locking and mutual exclusion (`mutex`, `lock_guard`, `read_write_lock`) and real concurrency: the model is sequential, and a mutex is represented only by identity.
- The plain `wait(mtx)` / `wait(lck)` calls with no predicate: they only block and return nothing observable, so there is nothing to state beyond the predicate loops built on them.
- CondVar.ConditionVariable.Milliseconds: stores the normalised deadline (Deadline.NormalisedDeadline) instead of the source's un-normalised one, so a wait never receives an invalid timespec from it; the source's value is Deadline.DeadlineOf (see Findings).
- CondVar.ConditionVariable.WaitUntil: a blocking wait that never returns is out of reach. The predicate must become true at some wakeup (its precondition), which is weaker than the source, where the call may block for ever.
- SyncQueue.SyncQueue.Put and SyncQueue.SyncQueue.Get: modelled only when the queue has room/an item on entry. In a sequential model the predicate cannot change while waiting, so the other case blocks for ever.
- SyncQueue.SyncQueue.PutTimed and SyncQueue.SyncQueue.GetTimed: the wakeups must include one that ends the wait (a timeout, EINVAL or EPERM), as every real deadline eventually does.
- SyncQueue.SyncQueue.constructor: the capacity is a `Capacity`, 0 .. INT_MAX. A negative `int` given to the constructor is not modelled; in the source it would compare as a huge `size_t`. Neither is a `size_t` above INT_MAX narrowed into the `std::atomic<int>` by `set_max_size`.
- SyncQueue.SyncQueue.constructor: it cannot fail. Its condition variables are built with the successful constructor, so a `pthread_cond_init` failure (CondVar.ConditionVariable.Create) does not propagate out of the queue's constructor.
- The condition-variable and `thread_group` destructors, and `pthread_cond_destroy`. Exceptions thrown from a destructor and the destructor's swallow-and-report join policy are not modelled. `src/thread.cpp` belongs to an older design (`start()`, `destroy_when_ended`) and is not part of this model.
- What a thread runs (`runnable::run`), `thread::stack_size()`, `pthread_attr_*`, `this_thread::sleep_for`, and the real `pthread_join` blocking: handles are inputs, and a successful join simply ends the thread.
- Threads.Thread.MoveAssign: the thread the target owned before the assignment is dropped without being joined or detached, as the header leaves it unspecified.
- Threads.Thread.MoveAssign: requires `other != this`, so self-move-assignment, which is legal C++, is not modelled. Its outcome depends on the implementation of `thread::operator=`, which is not part of this model.
- Threads.AbstractThread.Join and Threads.ThreadGroup.Join: the implementations of `abstract_thread::join` and `thread_group::join` are not part of this model. The header says only that the former throws "if deadlock conditions are detected" (`include/pthread/thread.hpp:270-274`) and that the latter calls the join of each entry (`include/pthread/thread.hpp:343-349`). The model reads it this way:
  - a worker never started behaves as a `thread` that is not a thread, and throws;
  - the group join lets the first exception out, which ends its loop.

  Another reading of the library's design is that the group join skips workers that are not joinable. The model does not follow that one, since the header's comment names no such test.
- Threads.JoinFailure: a join failure is a `thread_exception` in the source (`tests/thread_tests.cpp:69` expects one). The model keeps only its cause (not a thread, or self-join), because the message text and error number come from `thread::join`, whose implementation is not part of this model.
- The pre-C++11 branches (`__cplusplus < 201103L`): the read-write-lock-guarded `size()`, and the loops calling `wait_for(mtx, -1)`.
- `strerror` is a parameter, so the exact system texts are not modelled.

## Findings

| source | as written | input that shows it | evidently intended | confidence | as-written member | corrected member |
|---|---|---|---|---|---|---|
| src/condition_variable.cpp:56-65 | the nanosecond field is the clock's microseconds times 1000 plus the millisecond remainder times 10^6, and nothing is carried into the seconds; the value can reach 1e9 or more (or go negative for negative millis), which `pthread_cond_timedwait` rejects with EINVAL | now = (0 s, 999999 us), millis = 999 gives tv_nsec = 1998999000 | a normalised timespec for the same instant, nanoseconds in 0 .. 999999999 | not executed | Deadline.DeadlineNotNormalised | Deadline.NormalisedDeadline |
