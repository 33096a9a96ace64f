/** The usual optional value, used for JavaScript results that may be missing. */
module Opt {
  datatype Option<+T> = None | Some(value: T)
}
