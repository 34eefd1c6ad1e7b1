/** Payload bytes as the decoder sees them. */
module Bytes {

  /** One payload byte, as `(unsigned char)payload.at(i)` yields it. */
  type byte = b: int | 0 <= b < 256

  /** The value of `payload.at(i)` itself: a plain, signed 8-bit `char`
      (two's complement), which is what the status cache is compared with
      and stores. */
  function SignedChar(b: byte): (r: int)
    ensures -128 <= r < 128
    ensures (r - b) % 256 == 0
    ensures r == b <==> b < 128
  {
    if b < 128 then b else b - 256
  }

  /** Reading a byte as signed loses nothing: two bytes compare equal as
      signed chars exactly when they are the same byte. */
  lemma SignedCharInjective(a: byte, b: byte)
    ensures SignedChar(a) == SignedChar(b) <==> a == b
  {
  }
}
