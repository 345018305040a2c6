/** The optional-value type shared by the model: a missing settings key, a
    classifier that raised, a report that was not produced. */
module Wrappers {

  datatype Option<+T> = None | Some(value: T)
}
