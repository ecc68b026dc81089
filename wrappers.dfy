/** Option and Result, the two failure-carrying shapes the model needs:
    Python's `Optional[...]` fields and "returns a value or raises". */
module Wrappers {

  datatype Option<+T> = None | Some(value: T)

  datatype Result<+T, +E> = Ok(value: T) | Err(error: E)
}
