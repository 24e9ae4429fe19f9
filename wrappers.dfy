/** A value that may be missing: the `null` / `undefined` of the form code. */
module Wrappers {

  datatype Option<+T> = None | Some(value: T)

}
