/** Absent values and HTTP-style failures. */
module Options {

  /** A nullable column or an optional argument. */
  datatype Option<+T> = None | Some(value: T)

  /** What a request or a labeling task ends with: a new value, or an error code (HTTP status, or `RAISED`). */
  datatype Result<+T> = Success(value: T) | Failure(code: nat) {
    predicate IsFailure() {
      Failure?
    }

    function PropagateFailure<U>(): Result<U>
      requires Failure?
    {
      Failure(code)
    }

    function Extract(): T
      requires Success?
    {
      value
    }
  }
}
