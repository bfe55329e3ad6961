/** The optional-value datatype used wherever the script holds `null` or `undefined`. */
module Wrappers {

  datatype Option<+T> = None | Some(value: T)
}
