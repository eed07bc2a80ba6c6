/** Failure-compatible result type for the operations whose Python code
    raises an exception on some inputs. */
module Results {

  datatype Option<T> = None | Some(value: T)

  /** The exceptions the counting engine can raise. */
  datatype Fault =
    /** A step intersected a zero-length gate segment: the angle is `None`
        and comparing it with 180 raises a TypeError. */
    | AngleUndefined
    /** An odd-length coordinate list leaves a three-element window that
        cannot be unpacked into four names (ValueError). */
    | UnpackMismatch
    /** A non-positive frame rate makes the history drop its oldest point
        while it is still empty (IndexError). */
    | PopFromEmpty

  datatype Result<T> = Success(value: T) | Failure(error: Fault) {

    predicate IsFailure() {
      Failure?
    }

    function PropagateFailure<U>(): Result<U>
      requires Failure?
    {
      Failure(error)
    }

    function Extract(): T
      requires Success?
    {
      value
    }
  }
}
