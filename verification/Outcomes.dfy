/** Results of operations that can raise. */
module Outcomes {
  datatype Result<T> = Ok(value: T) | Raised
  datatype Option<T> = None | Some(value: T)
}
