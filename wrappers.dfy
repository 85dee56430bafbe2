/** Option, the nullable value of the model: a missing column value, NaT, a failed parse. */
module Wrappers {

  datatype Option<+T> = None | Some(value: T)
}
