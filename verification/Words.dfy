/** Bytes and 16-bit words as the wire parsers read them. */
module Words {
  type byte = x: int | 0 <= x < 256
  type u16 = x: int | 0 <= x < 0x1_0000
}
