/**
 * Byte values, the image formats the texture code accepts, and the two
 * box-filter kernels used to build mip levels.
 */
module Pixels {

  /** An unsigned 8-bit value: a colour channel or a colour index (PRubyte). */
  type byte = x: int | 0 <= x < 256

  /** Input image formats. Only packed 24-bit RGB (three bytes per texel) is accepted. */
  datatype ImageFormat = UbyteRgb | OtherFormat

  function Min(a: int, b: int): int { if a <= b then a else b }
  function Max(a: int, b: int): int { if a <= b then b else a }

  /**
   * 2x2 box filter of one channel: the floor of the mean of four bytes,
   * computed in a wide signed integer so the sum never wraps.
   */
  function Box4Blur(a: byte, b: byte, c: byte, d: byte): (r: byte)
    ensures 4 * r <= a + b + c + d < 4 * r + 4
    ensures Min(Min(a, b), Min(c, d)) <= r <= Max(Max(a, b), Max(c, d))
    ensures a == b == c == d ==> r == a
  {
    (a + b + c + d) / 4
  }

  /** 2x1 box filter of one channel: the floor of the mean of two bytes. */
  function Box2Blur(a: byte, b: byte): (r: byte)
    ensures 2 * r <= a + b < 2 * r + 2
    ensures Min(a, b) <= r <= Max(a, b)
    ensures a == b ==> r == a
  {
    (a + b) / 2
  }
}
