/** The optional-value datatype used throughout the model in place of a
    null pointer, a missing reply or a "not found" iterator. */
module Wrappers {

  datatype Option<+T> = None | Some(value: T)
}
