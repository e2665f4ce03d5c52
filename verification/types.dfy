/**
 * Fixed-width unsigned integers of the AVR program, as bit-vectors so that
 * shifts, masks and ORs behave exactly as on the C types they stand for.
 */
module Types {

  /** `uint8_t`: a byte on the two-wire bus or in a sensor register. */
  type Byte = bv8

  /** `uint16_t`: one colour channel, and the packed display colour. */
  type Word = bv16

  /** `uint32_t` (and the `long` arithmetic feeding it): the 24-bit intermediate colour. */
  type Long = bv32

  /** A value that may be absent; used for a step the bus peer refuses. */
  datatype Option<+T> = None | Some(value: T)
}
