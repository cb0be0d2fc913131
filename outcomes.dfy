/** Optional values and fallible results, the model's stand-ins for JavaScript's
    `null`/`undefined` and for a thrown error (carried as its message). */
module Outcomes {

  datatype Option<+T> = None | Some(value: T)

  /** The outcome of a call that may throw: a value, or the message of the error. */
  datatype Result<+T> = Ok(value: T) | Err(error: string)
}
