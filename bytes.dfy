/** Octets as the C code's `uint8_t`. */
module Bytes {
  type byte = x: int | 0 <= x < 256
}
