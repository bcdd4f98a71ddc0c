/**
 * Identifiers and the result wrappers shared by every module of the model.
 * Every table of the system uses integer primary keys.
 */
module Common {
  type ProjectId = nat
  type TeamId = nat
  type UserId = nat
  type BoardId = nat
  type ListId = nat
  type TaskId = nat
  type AttachmentId = nat

  datatype Option<+T> = None | Some(value: T)

  /** A service call either completes or raises; a raised error changes nothing. */
  datatype Result<+T, +E> = Ok(value: T) | Err(error: E)
}
