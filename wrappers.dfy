/** The optional value and the pass/fail outcome used for the source's
    `undefined` results and thrown errors. */
module Wrappers {

  datatype Option<+T> = None | Some(value: T)

  datatype Outcome<+E> = Pass | Fail(error: E)
}
