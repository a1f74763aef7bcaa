/** The optional value used for "no match", an absent attribute and an empty result dict. */
module Wrappers {

  datatype Option<+T> = None | Some(value: T)
}
