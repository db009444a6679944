/** Option and Result values shared by the whole model: the C++ code reports
 *  failures by throwing or by `exit(1)`; the model returns them as values. */
module Wrappers {
  datatype Option<T> = None | Some(value: T)

  datatype Result<T, E> = Ok(value: T) | Err(error: E)
  {
    predicate IsOk() { Ok? }
  }
}
