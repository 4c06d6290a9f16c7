/** The optional value used wherever the source answers `null`, `undefined` or "no match". */
module Wrappers {

  datatype Option<+T> = None | Some(value: T)
}
