/** The optional value used where the library returns `null` or takes an
    argument the caller may leave out. */
module Wrappers {

  datatype Option<+T> = None | Some(value: T)
}
