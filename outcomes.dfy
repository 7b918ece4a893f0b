/** Optional values and the outcome of a call that may throw. */
module Outcomes {

  datatype Option<+T> = None | Some(value: T)

  /** What an awaited call yields: its value, or the exception it threw. */
  datatype Result<+T> = Ok(value: T) | Threw(error: string)
}
