/** The optional-value type the session model uses for registry keys that may be
    missing, for process snapshots that may be null and for parse results. */
module Wrappers {

  datatype Option<+T> = None | Some(value: T)
}
