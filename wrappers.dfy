/** The optional value used for "maybe a hit" and "maybe a mapped key". */
module Wrappers {
  datatype Option<+T> = None | Some(value: T)
}
