/** The optional-value datatype shared by the recognisers and the parsers. */
module Wrappers {

  datatype Option<+T> = None | Some(value: T)
}
