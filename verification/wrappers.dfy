/** Optional values, shared by every module of the model. */
module Wrappers {

  /** A value that may be absent: `null`/`undefined` in TypeScript, `None` in Python. */
  datatype Option<+T> = None | Some(value: T)
}
