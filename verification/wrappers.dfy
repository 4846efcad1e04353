/** The optional-value datatype used wherever the source works with `null` or
    `undefined` (a missing pan start, a touch that `find` did not match, an
    absent image). */
module Wrappers {

  datatype Option<+T> = None | Some(value: T)
}
