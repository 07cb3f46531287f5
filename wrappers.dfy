/** Python's `None`-or-value, used for the predicted answers (`None` when the
    question-answering pipeline raised). */
module Wrappers {

  datatype Option<+T> = None | Some(value: T)
}
