/**
 * The integer tail of nearest-texel sampling: wrapping a truncated texel
 * coordinate back into the level (repeat addressing) and reading the
 * colour index there.
 */
module Sampling {
  import opened Pixels
  import opened MipLevels

  /**
   * The last steps of _pr_texture_sample_nearest: a coordinate that came
   * out negative (from a negative texture coordinate) moves up by the
   * level's size, and the texel at (x, y) of the width x height level is
   * read. This is repeat addressing: the coordinates taken modulo the size,
   * and the read stays inside the level.
   */
  function SampleWrapped(mipTexels: seq<byte>, width: pos, height: pos, x: int, y: int): (r: byte)
    requires |mipTexels| >= width * height
    requires -(width as int) < x < width && -(height as int) < y < height
    ensures 0 <= (y % height) * width + x % width < width * height
    ensures r == mipTexels[(y % height) * width + x % width]
  {
    var wx := if x < 0 then x + width else x;
    var wy := if y < 0 then y + height else y;
    WrapIsMod(x, width);
    WrapIsMod(y, height);
    TexelInside(width, height, wx, wy);
    mipTexels[wy * width + wx]
  }

  /** Adding n once to a coordinate in (-n, 0) is the remainder modulo n. */
  lemma WrapIsMod(x: int, n: pos)
    requires -(n as int) < x < n
    ensures x % n == if x < 0 then x + n else x
  {
    var q, r := x / n, x % n;
    var q0, r0 := if x < 0 then -1 else 0, if x < 0 then x + n else x;
    assert x == q * n + r && x == q0 * n + r0;
    assert (q - q0) * n == r0 - r;
    MulSign(q - q0, n);
  }
}
