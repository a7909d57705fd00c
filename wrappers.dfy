/** Option stands for the source's nullable references and for library calls that throw. */
module Wrappers {

  datatype Option<+T> = None | Some(value: T)
}
