/** A value that may not be there. */
module Optionals {
  datatype Option<+T> = None | Some(value: T)
}
