/** Result types shared by the modules. */
module Wrappers {
  datatype Option<+T> = None | Some(value: T)

  /** A call that either returns or throws. */
  datatype Outcome<+T> = Returned(value: T) | Threw
}
