/** Option and Result, used where the source returns null or throws. */
module Wrappers {

  datatype Option<+T> = None | Some(value: T)

  /** `Err` stands for an exception whose message is `error`. */
  datatype Result<+T> = Ok(value: T) | Err(error: string)

  /** The outcome of an operation that returns nothing or throws. */
  datatype Outcome = Pass | Fail(error: string)
}
