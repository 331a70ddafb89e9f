/** Names for plain values that several components share. */
module Basics {
  type Byte = x: int | 0 <= x < 0x100
  type Time = int       // nanoseconds; 0 is Go's zero time, before every clock reading
  type Etag = string
  type Chan = nat       // channels are numbered in the order they are made
}
