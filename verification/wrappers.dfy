/** The Option datatype used for a numeric field that may hold no number
    (the value a failed parse gives), for an absent storage entry and for
    an optional lookup result. */
module Wrappers {

  datatype Option<+T> = None | Some(value: T)
}
