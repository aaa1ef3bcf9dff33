// The fixed-width unsigned integers of the C sources.

module Words {
  type byte = x: int | 0 <= x < 0x100
  type uint16 = x: int | 0 <= x < 0x1_0000
  type uint32 = x: int | 0 <= x < 0x1_0000_0000

  // The value uint32_t arithmetic keeps of x.
  function Wrap32(x: int): (w: uint32)
    ensures 0 <= x < 0x1_0000_0000 ==> w == x
  {
    x % 0x1_0000_0000
  }
}
