/** Failure-carrying wrappers used throughout the model. A Python call that may
    raise is modelled as a function returning `Result`; the failure carries the
    text `str(e)` of the exception. */
module Outcomes {

  datatype Option<+T> = None | Some(value: T)

  datatype Result<+T> = Success(value: T) | Failure(message: string)
}
