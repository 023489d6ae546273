/** Types shared by the whole project. */
module Common {

  datatype Option<+T> = None | Some(value: T)

  newtype byte = x: int | 0 <= x < 256

  // The largest number of bytes that a Rust vector can hold
  const ISIZE_MAX: nat := 0x7fff_ffff_ffff_ffff
}
