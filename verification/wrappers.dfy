/** The optional value used throughout the model: a one-slot buffer that may be
    empty, a reader that may reject an envelope. */
module Wrappers {

  datatype Option<+T> = None | Some(value: T)
}
