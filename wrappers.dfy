/** The optional value used for absent headers, fields and search results. */
module Wrappers {
  datatype Option<+T> = None | Some(value: T)
}
