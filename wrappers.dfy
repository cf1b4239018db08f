/** Null, failure and exception vocabulary shared by every module.

    A Java reference that may be `null` becomes an `Option`; a call that
    may throw becomes a `Result` (a value or the exception) or, for a
    `void`-like setter, an `Outcome`. */
module Wrappers {

  datatype Option<+T> = None | Some(value: T)

  /** The unchecked exceptions the modelled code throws. */
  datatype Exception =
    | NullPointerException
    | IllegalArgumentException
    | NumberFormatException
    | IllegalStateException

  /** `NumberFormatException` is a subclass of `IllegalArgumentException`, so a
      caller catching the latter also catches the former. */
  predicate IsIllegalArgument(e: Exception) {
    e.IllegalArgumentException? || e.NumberFormatException?
  }

  datatype Result<+T> = Ok(value: T) | Err(error: Exception)

  /** The completion of a call whose only result is the state it leaves. */
  datatype Outcome = Pass | Fail(error: Exception)
}
