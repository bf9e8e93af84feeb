/** The nullable values of the source (`T | null`) as an option type. */
module Wrappers {

  datatype Option<+T> = None | Some(value: T)
}
