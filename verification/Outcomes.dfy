/** Optional values (Python's None) and failing asserts, shared by all modules. */
module Outcomes {
  datatype Option<+T> = None | Some(value: T)

  datatype Result<+T> = Ok(value: T) | AssertionFailed
}
