/** The optional value used for JSON `null` and for keys that may be absent. */
module Wrappers {

  datatype Option<+T> = None | Some(value: T)
}
