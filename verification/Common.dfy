/** Types shared by every part of the model. */
module Common {
  newtype byte = x: int | 0 <= x < 256

  type Bytes = seq<byte>

  /** A Go value that may be nil, or a lookup that may miss. */
  datatype Option<+T> = None | Some(value: T)
}
