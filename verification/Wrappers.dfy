/** The option type shared by the model: a lookup or a parse either has a value or has none. */
module Wrappers {

  datatype Option<+T> = None | Some(value: T)
}
