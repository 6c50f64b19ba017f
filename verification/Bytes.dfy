/** Octets, as buffers and the map of the direct index hold them. */
module Bytes {
  newtype byte = i: int | 0 <= i < 256
}
