/** Contents of files and of stored objects. */
module Octets {
  type Byte = n: nat | n < 256
  type Bytes = seq<Byte>
}
