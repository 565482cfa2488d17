/** Result and option types standing for the source's thrown errors, refusals and absent values. */
module Outcomes {
  datatype Result<+T, +E> = Success(value: T) | Failure(error: E)

  datatype Option<+T> = None | Some(value: T)
}
