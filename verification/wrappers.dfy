/** The optional value used for Go's nil-able results (`error`, a missing response). */
module Wrappers {

  datatype Option<+T> = None | Some(value: T)
}
