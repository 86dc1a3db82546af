/** The optional-value datatype the decoders and the payload builder use. */
module Wrappers {

  datatype Option<+T> = None | Some(value: T)
}
