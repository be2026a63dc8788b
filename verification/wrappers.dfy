/** Nullable values. `None` plays the part of a null pointer or an empty `unique_ptr`. */
module Wrappers {

  datatype Option<+T> = None | Some(value: T)
}
