/** Failure-compatible wrappers used for the error paths of the uploader. */
module Results {

  datatype Option<+T> = None | Some(value: T)

  /** Either a value or the error that aborted the computation; usable with `:-`. */
  datatype Result<+T, +E> = Success(value: T) | Failure(error: E) {

    predicate IsFailure() {
      Failure?
    }

    function PropagateFailure<U>(): Result<U, E>
      requires Failure?
    {
      Failure(error)
    }

    function Extract(): T
      requires Success?
    {
      value
    }
  }
}
