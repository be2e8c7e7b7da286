/** Optional values and success-or-error outcomes, used wherever the source
    returns `None` or a `{"success": False, "error": ...}` dictionary. */
module Wrappers {

  /** A Python value that may be `None`. */
  datatype Option<+T> = None | Some(value: T)

  /** The result of an operation that reports failure as an error message
      instead of raising. */
  datatype Outcome<+T> = Ok(value: T) | Err(error: string)
}
