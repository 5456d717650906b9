/** Small failure-compatible wrapper used by the decoders of the model. */
module Wrappers {
  datatype Option<+T> = None | Some(value: T)
}
