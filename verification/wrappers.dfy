/** Failure-aware wrappers shared by every part of the dashboard model. */
module Wrappers {

  /** A value that may be absent: Kotlin's `T?`, TypeScript's `T | null | undefined`. */
  datatype Option<+T> = None | Some(value: T) {

    /** The wrapped value, or `default` when absent. */
    function GetOr(default: T): T {
      match this
      case Some(v) => v
      case None => default
    }
  }

  /** What a TypeScript fetcher gets out of one remote JSON field read with
      optional chaining: a usable value, nothing usable (the field, the array
      element or the object on the path is absent, and no exception is
      raised), or an exception (the request rejected or the body is not JSON). */
  datatype Fetch<+T> = Ok(value: T) | Missing | Failed

  /** What a Kotlin `org.json` access chain does: it yields, or it throws
      (network error, timeout, absent key). */
  datatype Try<+T> = Value(value: T) | Threw

  /** How a JavaScript promise settles. */
  datatype Settled<+T> = Resolved(value: T) | Rejected
}
