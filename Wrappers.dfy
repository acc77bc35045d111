/** Optional values and results with an error, usable with `:-`. */
module Wrappers {

  /** A value that may be absent: the model's replacement for a Java `null`. */
  datatype Option<+T> = None | Some(value: T) {

    /** The value if present, otherwise `default` (Guava's `Optional.or`). */
    function Or(default: T): T {
      if Some? then value else default
    }
  }

  /** The outcome of a computation that may fail with a typed error. */
  datatype Result<+T, +E> = Ok(value: T) | Err(error: E) {

    predicate IsFailure() {
      Err?
    }

    function PropagateFailure<U>(): Result<U, E>
      requires Err?
    {
      Err(error)
    }

    function Extract(): T
      requires Ok?
    {
      value
    }
  }
}
