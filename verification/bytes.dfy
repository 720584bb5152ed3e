/** Bytes as the AVR sees them: every register and every `uint8_t` in the
    modelled code is eight bits wide. */
module Bytes {

  /** An unsigned 8-bit value (`uint8_t`, an I/O register). */
  type Byte = bv8
}
