/** Types shared by several models. */
module Wrappers {

  datatype Option<T> = None | Some(value: T)

  /** kInvalidTid. */
  const INVALID_TID: nat := 0xffffff
}
