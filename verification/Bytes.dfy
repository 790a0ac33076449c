/** The bytes of files, for the components that read them. */
module Bytes {
  type Byte = b: int | 0 <= b < 256
}
