/** The optional-value wrapper used for absent JSON fields and null references. */
module Wrappers {
  datatype Option<+T> = None | Some(value: T)
}
