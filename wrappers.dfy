/** Optional values and results with an error: the model's stand-ins for
    `std::string::npos`, null pointers and thrown exceptions. */
module Wrappers {

  datatype Option<+T> = None | Some(value: T)

  /** `Err` stands for an exception the source throws; `Ok` for a normal return. */
  datatype Result<+T, +E> = Ok(value: T) | Err(error: E)
}
