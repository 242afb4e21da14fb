/** Small value types shared by every module of the model. */
module Common {

  /** Kotlin's nullable values (`T?`). */
  datatype Option<+T> = None | Some(value: T)

  /** A computation that either yields a value or fails the way Kotlin throws:
      the failure carries the text of the exception that would escape. */
  datatype Result<+T> = Success(value: T) | Failure(error: string)
  {
    predicate IsFailure() {
      Failure?
    }

    function PropagateFailure<U>(): Result<U>
      requires Failure?
    {
      Failure(error)
    }

    function Extract(): T
      requires Success?
    {
      value
    }
  }

  /** One byte of a zip entry or of an image payload. */
  newtype byte = x: int | 0 <= x < 0x100
}
