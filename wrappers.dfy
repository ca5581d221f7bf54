/** Success-or-error results and optional values shared by the modules of this model. */
module Wrappers {

  datatype Option<+T> = None | Some(value: T)

  /** The outcome of an operation that may raise: `Err` stands for the
      exception the Python code raises. */
  datatype Result<+T, +E> = Ok(value: T) | Err(error: E)
}
