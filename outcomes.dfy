/** Failure-carrying wrappers shared by the whole model. */
module Outcomes {

  /** A value that may be missing: JavaScript's `undefined` / `null` for an optional field. */
  datatype Option<+T> = None | Some(value: T)

  /**
   * The result of an asynchronous call that may reject: either the resolved
   * value, or the message of the exception it was rejected with.
   */
  datatype Outcome<+T> = Ok(value: T) | Thrown(message: string)
}
