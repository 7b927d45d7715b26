/** The fixed-width unsigned and signed integers of the C and C++ sources. */
module Words {
  type byte = x: int | 0 <= x < 256
  type uint16 = x: int | 0 <= x < 65536
  type uint32 = x: int | 0 <= x < 0x1_0000_0000
  type int16 = x: int | -32768 <= x < 32768
}
