/** The optional value used throughout the model for JavaScript's `undefined`/`null`
    results and for inputs that may be absent. */
module Wrappers {

  datatype Option<+T> = None | Some(value: T)
}
