module Bytes {
  newtype byte = n: int | 0 <= n < 256
}
