/** Option and Result: the model's stand-ins for Python's None and for
    raised exceptions. */
module Wrappers {

  datatype Option<+T> = None | Some(value: T)

  /** Ok carries what the Python function returns; Err stands for the
      exception it raises. */
  datatype Result<+T, +E> = Ok(value: T) | Err(error: E)
}
