/** Small value types shared by the models. */
module Common {

  datatype Option<+T> = None | Some(value: T)

  /** The result of a Python call that either returns or raises. */
  datatype Outcome<+T, +E> = Returned(value: T) | Raised(error: E)

}
