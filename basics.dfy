/** The option type used wherever the Python code returns a value or `None`. */
module Basics {

  datatype Option<+T> = None | Some(value: T)
}
