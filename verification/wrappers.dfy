/** The optional value used for the frame view's possibly-null button and
    container pointers. */
module Wrappers {

  /** A pointer that may be null: `None` when the object was never created. */
  datatype Option<+T> = None | Some(value: T)
}
