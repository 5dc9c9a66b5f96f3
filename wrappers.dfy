/** Option type used for operations of the scripts that raise an exception
    (a Python ValueError) on malformed input. */
module Wrappers {
  datatype Option<+T> = None | Some(value: T)
}
