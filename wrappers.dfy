/** Optional values, used wherever the C++ sources return `std::optional`. */
module Wrappers {

  datatype Option<T> = None | Some(value: T)
}
