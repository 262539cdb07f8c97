/** The optional-value datatype used for the source's `null`, `undefined` and absent fields. */
module Wrappers {

  datatype Option<+T> = None | Some(value: T)
}
