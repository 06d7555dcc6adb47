/** A value or none: the kernel's NULL results. */
module Wrappers {
  datatype Option<T> = None | Some(value: T)
}
