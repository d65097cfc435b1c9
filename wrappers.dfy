/** The usual optional-value wrapper, standing for a nullable pointer. */
module Wrappers {
  datatype Option<T> = None | Some(value: T)
}
