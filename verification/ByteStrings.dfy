/** Bytes, as files and streams hold them. */
module ByteStrings {
  type Byte = b: int | 0 <= b < 256

  type Bytes = seq<Byte>

  /** A line of text without its end. */
  type Line = Bytes

  const NEWLINE: Byte := 10
}
