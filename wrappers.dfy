/** An optional value, used for DOM lookups and attributes that may be absent. */
module Wrappers {

  datatype Option<+T> = None | Some(value: T)
}
