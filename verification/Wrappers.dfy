/** Small types shared by the models. */
module Wrappers {
  /** Used where the source returns a pointer, a "found" flag or an error. */
  datatype Option<+T> = None | Some(value: T)

  /** What became of a command: it ran and its caller knows, it ran and its caller got an error, it did not run. */
  datatype Outcome = Ran | RanLost | NotRan
}
