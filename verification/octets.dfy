/** Bytes, as Node's `Buffer` holds them. */
module Octets {
  newtype byte = x: int | 0 <= x < 256

  type Bytes = seq<byte>
}
