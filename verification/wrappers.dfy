/** Failure-compatible wrappers shared by every module of the model:
    `Option` stands for Go's nil-able pointers, `Result` for Go's `(value, error)` pairs. */
module Wrappers {

  /** A value that may be absent, as a Go pointer that may be nil. */
  datatype Option<T> = None | Some(value: T) {

    /** The held value, or `default` when absent (Go's `if p == nil { return default }`). */
    function GetOr(default: T): T {
      match this
      case Some(v) => v
      case None => default
    }
  }

  /** Either a value or an error, as a Go function returning `(T, error)`. */
  datatype Result<T, E> = Ok(value: T) | Err(error: E) {

    /** True when the operation failed. */
    predicate IsFailure() {
      Err?
    }

    /** The same failure under another value type. */
    function PropagateFailure<U>(): Result<U, E>
      requires Err?
    {
      Err(error)
    }

    /** The value of a successful result. */
    function Extract(): T
      requires Ok?
    {
      value
    }
  }
}
