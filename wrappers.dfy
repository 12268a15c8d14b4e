/** The optional value used throughout the model: JavaScript's `null` current question,
    Python's `None`, an absent dictionary key. */
module Wrappers {

  datatype Option<+T> = None | Some(value: T)
}
