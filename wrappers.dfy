/** The optional value used where the source has `null`, `undefined` or a missing option. */
module Wrappers {

  datatype Option<+T> = None | Some(value: T)

}
