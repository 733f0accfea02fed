/** The optional and fallible results used throughout the model. */
module Wrappers {

  datatype Option<+T> = None | Some(value: T)

  /** StorageError, crates/storage/src/lib.rs, without the message texts. */
  datatype Error =
    | NoSuchBucket
    | NoSuchKey
    | BucketNotEmpty
    | BucketAlreadyExists
    | KeyTooLong
    | InvalidKey
    | InvalidContinuationToken
    | RangeNotSatisfiable
    | NoSuchUpload
    | InvalidPartNumber
    | Io

  datatype Result<+T> = Success(value: T) | Failure(error: Error) {
    predicate IsFailure() {
      Failure?
    }

    function PropagateFailure<U>(): Result<U>
      requires Failure?
    {
      Failure(error)
    }

    function Extract(): T
      requires Success?
    {
      value
    }
  }
}
