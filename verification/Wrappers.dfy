/** The optional value that stands for Python's None wherever the source uses it. */
module Wrappers {
  datatype Option<+T> = None | Some(value: T)
}
