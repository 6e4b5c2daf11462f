/** Failure-carrying results, used where the Go code returns an `error` or aborts the process. */
module Wrappers {

  /** Either a value or the reason there is none. */
  datatype Result<+T, +E> = Success(value: T) | Failure(error: E) {

    /** The value on success, `default` otherwise (Go's `v, _ := f()`, which yields the zero value). */
    function GetOr(default: T): T {
      match this
      case Success(v) => v
      case Failure(_) => default
    }
  }

  /** The outcome of an operation that returns only an error. */
  datatype Outcome<+E> = Pass | Fail(error: E)
}
