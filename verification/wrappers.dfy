/** The optional value used where the Python code can produce `None`. */
module Wrappers {

  datatype Option<+T> = None | Some(value: T)

}
