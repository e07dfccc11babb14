/** The optional-value type the model uses for fields the feed may omit and for
    computations that the dashboard aborts with an exception. */
module Wrappers {

  datatype Option<+T> = None | Some(value: T)
}
