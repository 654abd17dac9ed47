/** Success-or-error values, standing in for the source's `throw` and out-of-range accesses. */
module Outcomes {

  datatype Result<+T, +E> = Ok(value: T) | Err(error: E)

}
