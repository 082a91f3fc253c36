/** Small value types shared by the modules of this project. */
module Basics {

  datatype Option<+T> = None | Some(value: T)
}
