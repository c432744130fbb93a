/** Optional values and Python-style outcomes shared by every module. */
module Wrappers {

  /** A value that may be absent (a fetch that failed, a key that is missing). */
  datatype Option<+T> = None | Some(value: T)

  /** The outcome of Python code that either returns a value or raises an exception.
      The exception's message is not modelled. */
  datatype Result<+T> = Ok(value: T) | Raised
}
