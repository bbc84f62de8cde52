/** The optional-value datatype used for JavaScript values that may be
    `undefined` or `null`. */
module Wrappers {

  datatype Option<+T> = None | Some(value: T)
}
