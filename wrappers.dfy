/** The optional value used for fields the stored record may omit. */
module Wrappers {

  datatype Option<+T> = None | Some(value: T)
}
