/** Failure-carrying results for the operations that throw in Cube.java, Side.java and the rotations. */
module Wrappers {

  /** The exceptions the modelled code can raise. */
  datatype Error =
    | InvalidSide        // IndexOutOfBoundsException("Invalid side.") from a switch over faces
    | IndexOutOfRange    // an array index outside the array (ArrayIndexOutOfBoundsException)
    | NegativeArraySize  // an array length that wrapped below zero (NegativeArraySizeException)

  datatype Result<+T> = Success(value: T) | Failure(error: Error) {
    predicate IsFailure() {
      Failure?
    }

    function PropagateFailure<U>(): Result<U>
      requires Failure?
    {
      Failure(error)
    }

    function Extract(): T
      requires Success?
    {
      value
    }
  }
}
