/** Small failure-carrying datatypes shared by every module of the model. */
module Wrappers {

  /** A value that may be absent (JavaScript's `undefined` where a string or record is expected). */
  datatype Option<+T> = None | Some(value: T)

  /**
   * The outcome of something that may throw: a call into an external service
   * (the AWS SDK, Amplify), or a JavaScript operation that raises a TypeError.
   * `Threw` carries the `message` of the thrown Error.
   */
  datatype Attempt<+T> = Returned(value: T) | Threw(message: string)
}
