/** Byte strings shared by the codec, the light client and the download decoder. */
module ByteStrings {

  type Byte = x: int | 0 <= x < 256
  type Bytes = seq<Byte>
}
