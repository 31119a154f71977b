/** A value that may be absent: PHP's `null` where the installer uses it as a default. */
module Wrappers {

  datatype Option<T> = None | Some(value: T)

}
