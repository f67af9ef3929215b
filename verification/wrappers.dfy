/** The "value or invalid input" outcome of both checks: the source returns
    Python's `None` for every input it rejects, and a value otherwise. */
module Wrappers {

  datatype Option<+T> = None | Some(value: T)
}
