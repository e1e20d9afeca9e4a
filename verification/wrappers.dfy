/** The optional-value datatype shared by the other modules: a JavaScript
    value that may be `undefined` is `None`, a present one is `Some`. */
module Wrappers {

  datatype Option<+T> = None | Some(value: T)
}
