/** The optional value used where the source returns `None` or "no match". */
module Wrappers {

  datatype Option<+T> = None | Some(value: T)
}
