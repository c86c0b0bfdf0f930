/** Octets, and the streams of them the protocols read. */
module Octets {
  type Octet = x: int | 0 <= x < 0x100
  type Bytes = seq<Octet>
}
