/** The optional value used by the parsers and the formatter. */
module Wrappers {

  datatype Option<T> = None | Some(value: T)
}
