/**
 * Option and Result values for lookups that may find nothing and operations
 * that may fail, and the user id every table is keyed by.
 */
module Wrappers {

  datatype Option<+T> = None | Some(value: T)

  datatype Result<+R, +E> = Ok(value: R) | Err(error: E)

  /** A user's id (`auth.users.id`), as a string. */
  type UserId = string
}
