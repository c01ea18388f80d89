/** The optional value used for nullable cells and for the converter's "no result". */
module Wrappers {
  datatype Option<+T> = None | Some(value: T)
}
