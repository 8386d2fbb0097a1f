/** The two result shapes used by every module: a value that may be missing,
    and a value or the error returned in its place. */
module Outcomes {

  datatype Option<+T> = None | Some(value: T)

  datatype Result<+T, +E> = Ok(value: T) | Err(error: E)
}
