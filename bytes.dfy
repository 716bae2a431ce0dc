/** Input bytes and the `u8` arithmetic the puzzle solutions do on them. */
module Bytes {

  /** An input byte (`u8`). */
  type Byte = b: int | 0 <= b < 256

  const NewLine: Byte := 10
  const CarriageReturn: Byte := 13
  const Space: Byte := 32
  const Digit0: Byte := 48

  predicate IsDigit(b: Byte) { 48 <= b <= 57 }

  /** A value reduced to `u8`, as wrapping `u8` arithmetic does (release build). */
  function U8(x: int): Byte { x % 256 }

  /** `b - b'0'` on `u8`: the digit's value for a digit, wrapped otherwise. */
  function DigitValue(b: Byte): (v: Byte)
    ensures IsDigit(b) ==> v == b - Digit0 && v <= 9
  {
    U8(b - Digit0)
  }

  /** `n` zero bytes. */
  function Zeros(n: nat): (z: seq<Byte>)
    ensures |z| == n && forall i | 0 <= i < n :: z[i] == 0
  {
    seq(n, _ => 0)
  }
}
