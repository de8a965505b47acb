/** The POSIX error numbers the core tests for, with their Linux values. */
module Errno {

  /** Operation not permitted: the mutex is not owned by the caller. */
  const EPERM: int := 1
  /** Invalid argument: the absolute time given to a timed wait is invalid. */
  const EINVAL: int := 22
  /** Connection timed out: a timed wait reached its deadline. */
  const ETIMEDOUT: int := 110
}
