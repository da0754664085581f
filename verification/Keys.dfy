/**
 Identifiers and small wrappers shared by every module: query kinds, encoded keys,
 dependency edges, revisions.
 */
module Keys {

  newtype byte = b: int | 0 <= b < 256

  type Bytes = seq<byte>

  /** A stored or computed value. Deep equality of values is equality of their encodings. */
  type Value = Bytes

  type Revision = nat

  /** An erased key: the ingredient it belongs to and the encoded key bytes. */
  datatype DynKey = DynKey(kind: nat, key: Bytes)

  /** A dependency edge names the ingredient and key that was read. */
  type Dep = DynKey

  datatype Option<+T> = None | Some(value: T)

  datatype Result<+T, +E> = Ok(value: T) | Err(error: E)
}
