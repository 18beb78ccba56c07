/** The optional value returned where the source returns `null` or "no match". */
module Wrappers {

  datatype Option<+T> = None | Some(value: T)

}
