/** The types shared by the models. */
module Wrappers {
  datatype Option<+T> = None | Some(value: T)

  /** How a store call ends: normally, raising with its transaction rolled back, or raising after
      the commit (closing the connection can fail). */
  datatype Fault = Fine | RaisedBefore | RaisedAfter
}
