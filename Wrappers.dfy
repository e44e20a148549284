/** Failure-carrying result types shared by the pipeline modules. */
module Wrappers {

  datatype Option<+T> = None | Some(value: T)

  /** A Python call that either returns a value or raises an exception whose `str(e)` is `error`. */
  datatype Result<+R> = Success(value: R) | Failure(error: string)
}
