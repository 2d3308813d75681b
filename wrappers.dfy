/** Option, used for the source's null returns and for operations that throw. */
module Wrappers {

  datatype Option<+T> = None | Some(value: T)

}
