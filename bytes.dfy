/** Foundation's `Data`, as a sequence of bytes. */
module Bytes {

  type byte = x: int | 0 <= x < 0x100

  type Data = seq<byte>
}
