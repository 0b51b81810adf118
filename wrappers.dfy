/** Failure-compatible helper types shared by the three modules. */
module Wrappers {

  /** An optional value: the model's stand-in for a pointer that may be null. */
  datatype Option<+T> = None | Some(value: T)

  /** The bytes of the image, of a mapping and of a zip entry. */
  type byte = x: int | 0 <= x < 256
}
