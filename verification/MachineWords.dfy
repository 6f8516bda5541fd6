/** The bytes and 32-bit words of the i386. */
module MachineWords {

  const WORD_LIMIT: nat := 0x1_0000_0000

  type Byte = x: int | 0 <= x < 256
  type Word = x: int | 0 <= x < WORD_LIMIT
}
