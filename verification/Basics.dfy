/** Failure-carrying values shared by the modules of this project. */
module Basics {
  datatype Option<+T> = None | Some(value: T)

  datatype Result<+T> = Ok(value: T) | Err(reason: string)

  /** JavaScript's Number.MAX_SAFE_INTEGER. */
  const MAX_SAFE_INTEGER: nat := 0x1F_FFFF_FFFF_FFFF
}
