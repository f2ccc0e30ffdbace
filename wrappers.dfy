/** Failure-compatible result types shared by the model. */
module Wrappers {

  /** Stands for a Java reference that may be null. */
  datatype Option<+T> = None | Some(value: T)

  /** Java exceptions the modelled code can raise. */
  datatype Exception =
    | NullPointer                  // a null reference was dereferenced
    | IndexOutOfBounds             // an array was indexed outside its bounds
    | UnsupportedOperation         // an immutable collection was modified

  /** The outcome of a Java call that either returns a value or throws. */
  datatype Result<+T> = Success(value: T) | Failure(error: Exception) {
    predicate IsFailure() { Failure? }
    function PropagateFailure<U>(): Result<U>
      requires Failure?
    {
      Failure(error)
    }
    function Extract(): T
      requires Success?
    {
      value
    }
  }
}

/**
 * The puzzle's symbols. The Java code keeps them as plain Objects compared with
 * `equals`; the grids the application builds use strings ("1" .. "9" by default).
 */
module Values {
  type Value = string
}
