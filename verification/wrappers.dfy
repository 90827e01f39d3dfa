/** The outcome of a type-level computation that may fall through to `never`. */
module Wrappers {

  /** `None` stands for the `never` type a failed conditional produces. */
  datatype Option<+T> = None | Some(value: T)
}
