/** The optional-value datatype used for session fields, request fields and
    store lookups that may be absent. */
module Wrappers {

  datatype Option<T> = None | Some(value: T)
}
