/** The optional-value type shared by the rest of the model: a Qt null pointer
    or an absent configuration entry is `None`. */
module Wrappers {

  datatype Option<T> = None | Some(value: T)
}
