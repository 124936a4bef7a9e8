/** An optional value, used for dictionary lookups and regex matches. */
module Wrappers {
  datatype Option<+T> = None | Some(value: T)
}
