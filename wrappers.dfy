/** The optional-value datatype used for absent JSON members and for
    partial parses. */
module Wrappers {
  datatype Option<T> = None | Some(value: T)
}
