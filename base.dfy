/** Values shared by every part of the codec. */
module Base {

  /** A frame byte. */
  type Byte = x: int | 0 <= x < 256

  datatype Option<+T> = None | Some(value: T)
}
