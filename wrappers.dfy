/** Optional values, used for the results of the decoding functions that partner the encoders. */
module Wrappers {
  datatype Option<+T> = None | Some(value: T)
}
