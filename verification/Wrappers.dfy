/** Optional values and results, shared by every module. */
module Wrappers {

  datatype Option<+T> = None | Some(value: T)

  /** How a service call fails: a missing row, a refused change, or a broken unique constraint. */
  datatype Error = NotFound | Conflict(message: string) | UniqueViolation

  datatype Result<+T> = Ok(value: T) | Err(error: Error)
}
