/** Optional values, used for the keys a decoded payload may or may not carry. */
module Wrappers {

  /** The conventional Some/None datatype. */
  datatype Option<+T> = None | Some(value: T)
}
