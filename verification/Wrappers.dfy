/** Result types and integer widths shared by every component. */
module Wrappers {
  datatype Option<+T> = None | Some(value: T)

  datatype Result<+T, +E> = Ok(value: T) | Err(error: E)

  /** The values of an 8-bit unsigned field. */
  type u8 = i: int | 0 <= i < 256

  /** The values of a 16-bit unsigned field. */
  type u16 = i: int | 0 <= i < 0x1_0000

  /** The values of a 32-bit unsigned field. */
  type u32 = i: int | 0 <= i < 0x1_0000_0000
}
