/**
 * The exception classes of the library.  The `pthread_exception` family
 * carries a message and a POSIX error number; the `queue_exception` family
 * (`queue_full`, `queue_timeout`) carries a message only and is a separate
 * hierarchy.  Each constructor is a function with the header's default
 * arguments.  `strerror` is a foreign call: it is a parameter of the
 * members that need the system text.
 */
module Exceptions {
  import opened Errno

  /** Which class of the `pthread_exception` family was thrown. */
  datatype PthreadKind =
    | GeneralError            // pthread_exception itself
    | TimeoutError            // timeout_exception
    | MutexError              // mutex_exception
    | ReadWriteLockError      // read_write_lock_exception
    | ConditionVariableError  // condition_variable_exception
    | ThreadError             // thread_exception

  /**
   * A `pthread_exception`: `message` is the text given to the constructor
   * and `errorNumber` the error number it was given.
   */
  datatype PthreadException = PthreadException(kind: PthreadKind, message: string, errorNumber: int)
  {
    /**
     * `what()`: the constructor appends a space and the system text of the
     * error number to the message unless the error number is 0.
     */
    function What(strerror: int -> string): string {
      if errorNumber != 0 then message + " " + strerror(errorNumber) else message
    }

    /** `error_number()` */
    function ErrorNumber(): int {
      errorNumber
    }

    /** `error_message()`: the system text of the stored error number. */
    function ErrorMessage(strerror: int -> string): string {
      strerror(errorNumber)
    }
  }

  function NewPthreadException(message: string, errorNumber: int := 0): PthreadException {
    PthreadException(GeneralError, message, errorNumber)
  }

  /** A timeout is always an ETIMEDOUT condition. */
  function NewTimeoutException(message: string): PthreadException {
    PthreadException(TimeoutError, message, ETIMEDOUT)
  }

  function NewMutexException(message: string, errorNumber: int := 0): PthreadException {
    PthreadException(MutexError, message, errorNumber)
  }

  function NewReadWriteLockException(message: string, errorNumber: int := -1): PthreadException {
    PthreadException(ReadWriteLockError, message, errorNumber)
  }

  function NewConditionVariableException(message: string := "conditional_variable_exception",
                                         errorNumber: int := 0): PthreadException {
    PthreadException(ConditionVariableError, message, errorNumber)
  }

  function NewThreadException(message: string, errorNumber: int := -1): PthreadException {
    PthreadException(ThreadError, message, errorNumber)
  }

  /** Which class of the `queue_exception` family was thrown. */
  datatype QueueKind = QueueGeneral | QueueFull | QueueTimeout

  /** A `queue_exception`: the message is stored and reported verbatim. */
  datatype QueueException = QueueException(kind: QueueKind, message: string)
  {
    function What(): string {
      message
    }
  }

  function NewQueueException(message: string := "queue_error occured."): QueueException {
    QueueException(QueueGeneral, message)
  }

  function NewQueueFull(message: string := "synchronized_queue full."): QueueException {
    QueueException(QueueFull, message)
  }

  function NewQueueTimeout(message: string := "synchronized_queue get/put timed out."): QueueException {
    QueueException(QueueTimeout, message)
  }

  /** Anything the library throws: two disjoint hierarchies under `std::exception`. */
  datatype Exception = Pthread(pthread: PthreadException) | Queue(queue: QueueException)

  // ---------------------------------------------------------------------
  // Properties of what() and of the constructors

  /** With error number 0 the message is reported exactly as given. */
  lemma WhatVerbatimWithoutErrorNumber(e: PthreadException, strerror: int -> string)
    requires e.errorNumber == 0
    ensures e.What(strerror) == e.message
  {
  }

  /**
   * With a nonzero error number, what() is the message, one space and the
   * system text, in that order and with nothing else.
   */
  lemma WhatAppendsSystemText(e: PthreadException, strerror: int -> string)
    requires e.errorNumber != 0
    ensures var w, m, t := e.What(strerror), e.message, strerror(e.errorNumber);
      |w| == |m| + 1 + |t| && w[..|m|] == m && w[|m|] == ' ' && w[|m| + 1..] == t
  {
  }

  /**
   * what() loses nothing: two exceptions with the same error number and the
   * same what() text were given the same message.
   */
  lemma {:induction false} WhatDeterminesMessage(e1: PthreadException, e2: PthreadException, strerror: int -> string)
    requires e1.errorNumber == e2.errorNumber
    requires e1.What(strerror) == e2.What(strerror)
    ensures e1.message == e2.message
  {
    if e1.errorNumber != 0 {
      var w, t := e1.What(strerror), strerror(e1.errorNumber);
      assert |e1.message| == |e2.message|;
      calc {
        e1.message;
        (e1.message + " " + t)[..|e1.message|];
        w[..|e1.message|];
        (e2.message + " " + t)[..|e2.message|];
        e2.message;
      }
    }
  }

  /** A timeout_exception carries ETIMEDOUT, so its text ends with the ETIMEDOUT text. */
  lemma TimeoutCarriesTimedOut(message: string, strerror: int -> string)
    ensures NewTimeoutException(message).ErrorNumber() == ETIMEDOUT
    ensures NewTimeoutException(message).What(strerror) == message + " " + strerror(ETIMEDOUT)
  {
  }

  /** The subclasses forward message and error number to the base unchanged. */
  lemma SubclassesForward(message: string, errorNumber: int, strerror: int -> string)
    ensures var base := NewPthreadException(message, errorNumber);
      && NewMutexException(message, errorNumber).What(strerror) == base.What(strerror)
      && NewReadWriteLockException(message, errorNumber).What(strerror) == base.What(strerror)
      && NewConditionVariableException(message, errorNumber).What(strerror) == base.What(strerror)
      && NewThreadException(message, errorNumber).What(strerror) == base.What(strerror)
      && NewMutexException(message, errorNumber).ErrorNumber() == errorNumber
      && NewReadWriteLockException(message, errorNumber).ErrorNumber() == errorNumber
      && NewConditionVariableException(message, errorNumber).ErrorNumber() == errorNumber
      && NewThreadException(message, errorNumber).ErrorNumber() == errorNumber
  {
  }

  /** The default error numbers: 0 for the base and mutex, -1 for read-write lock and thread. */
  lemma DefaultErrorNumbers(message: string, strerror: int -> string)
    ensures NewPthreadException(message).ErrorNumber() == 0
    ensures NewPthreadException(message).What(strerror) == message
    ensures NewMutexException(message).ErrorNumber() == 0
    ensures NewMutexException(message).What(strerror) == message
    ensures NewReadWriteLockException(message).ErrorNumber() == -1
    ensures NewReadWriteLockException(message).What(strerror) == message + " " + strerror(-1)
    ensures NewThreadException(message).ErrorNumber() == -1
    ensures NewThreadException(message).What(strerror) == message + " " + strerror(-1)
  {
  }

  /** A default condition_variable_exception reports its default text verbatim with error 0. */
  lemma ConditionVariableDefaults(strerror: int -> string)
    ensures NewConditionVariableException().What(strerror) == "conditional_variable_exception"
    ensures NewConditionVariableException().ErrorNumber() == 0
  {
  }

  /** The queue exceptions report their (default or given) message with no suffix. */
  lemma QueueMessages(message: string)
    ensures NewQueueException().What() == "queue_error occured."
    ensures NewQueueFull().What() == "synchronized_queue full."
    ensures NewQueueTimeout().What() == "synchronized_queue get/put timed out."
    ensures NewQueueException(message).What() == message
    ensures NewQueueFull(message).What() == message && NewQueueFull(message).kind == QueueFull
    ensures NewQueueTimeout(message).What() == message && NewQueueTimeout(message).kind == QueueTimeout
  {
  }
}
