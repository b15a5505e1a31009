/** Identifiers, optional values and results shared by every module. */
module Common {
  datatype Option<+T> = None | Some(value: T)

  datatype Result<+T, +E> = Ok(value: T) | Err(error: E)

  /** A UUID split into its first and last eight bytes, each read big-endian. */
  datatype Uuid = Uuid(hi: nat, lo: nat)

  type NodeId = Uuid
  type JobId = Uuid
}
