/** An optional value: stands for a C++ type alias that does not exist
    (a partial template specialization that does not match) or a null pointer. */
module Wrappers {

  datatype Option<+T> = None | Some(value: T)
}
