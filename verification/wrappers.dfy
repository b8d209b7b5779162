/** Failure-carrying wrappers shared by the event actions and the registration flow. */
module Wrappers {

  /** A value that may be absent: a form field that was not submitted, a session without a user. */
  datatype Option<+T> = None | Some(value: T)

  /** The outcome of a server action: a new state, or the error the action throws. */
  datatype Result<+T, +E> = Success(value: T) | Failure(error: E)
}
