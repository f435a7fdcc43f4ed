/** Octets, the unit of both the UTF-8 encoder and the base 64 codec. */
module Bytes {
  type byte = b: int | 0 <= b < 256
}
