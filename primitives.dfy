/** The fixed-width integer types of the profile document. */
module Primitives {

  /** Rust `i8`: the provider number. */
  newtype I8 = x: int | -128 <= x < 128

  /** Rust `u16`: the EDIFACT number of a parameter. */
  newtype U16 = x: int | 0 <= x < 0x1_0000
}
