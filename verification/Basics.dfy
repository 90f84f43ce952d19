/** Types that both halves of the project use. */
module Basics {
  datatype Option<+T> = None | Some(value: T)

  type Byte = x: int | 0 <= x < 0x100
  type Word = x: int | 0 <= x < 0x1_0000
}
