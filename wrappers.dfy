/** Option and Result, used for the sentinel and error values of the grid world. */
module Wrappers {

  /** An optional value: None stands for a missing reward, an unset policy entry
      or (in the value-iteration backup) a value that is NaN or -infinity. */
  datatype Option<+T> = None | Some(value: T)

  /** A value or an error, for operations that raise in the original program. */
  datatype Result<+T, +E> = Ok(value: T) | Err(error: E)
}
