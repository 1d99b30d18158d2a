/** Text as the template sees it: the UTF-8 bytes of a `str`. */
module Text {

  newtype uint8 = x: int | 0 <= x < 0x100

  /** The bytes of a string slice; its length is the byte length. */
  type Bytes = seq<uint8>

  /** A validator's static error message (`&'static str`). */
  type ErrMsg = string

  /** The UTF-8 encoding of a text written in ASCII: each character is one byte, its own code. */
  function AsciiBytes(s: string): (b: Bytes)
    requires forall i :: 0 <= i < |s| ==> s[i] as int < 0x80
    ensures |b| == |s|
    ensures forall i :: 0 <= i < |b| ==> b[i] as int == s[i] as int
  {
    if s == [] then [] else [s[0] as int as uint8] + AsciiBytes(s[1..])
  }
}
