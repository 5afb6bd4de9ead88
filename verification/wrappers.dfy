/** Small optional-value wrapper shared by the modules of this model. */
module Wrappers {

  /** A value that may be absent: stands for a nullable reference. */
  datatype Option<+T> = None | Some(value: T)
}
