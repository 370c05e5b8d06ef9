/** The conventional optional value; `None` plays the part of Python's `None`. */
module Wrappers {
  datatype Option<+T> = None | Some(value: T)
}
