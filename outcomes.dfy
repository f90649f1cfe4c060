/** Option and Result values for the places where the program returns
    `None` or raises an exception. */
module Outcomes {

  datatype Option<+T> = None | Some(value: T)

  /** `Err` stands for a Python exception escaping the modelled function. */
  datatype Result<+T, +E> = Ok(value: T) | Err(error: E)
}
