/** The usual optional-value datatype; it stands for a null pointer result. */
module Wrappers {

  datatype Option<+T> = None | Some(value: T)

}
