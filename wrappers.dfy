/** The optional value used for a device read that can fail (Python's `None`). */
module Wrappers {
  datatype Option<T> = None | Some(value: T)
}
