/** The optional value used wherever the source has `undefined`, `null` or a missing key. */
module Outcomes {
  datatype Option<+T> = None | Some(value: T)

  /** A value, or the message of the `Error` that would have been thrown instead. */
  datatype Result<+T> = Success(value: T) | Failure(message: string)
}
