/** The optional value used wherever the Python code has `X | None`. */
module Wrappers {
  datatype Option<+T> = None | Some(value: T)
}
