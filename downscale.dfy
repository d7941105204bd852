/**
 * Box-filter downsampling of a packed RGB image (three bytes per texel,
 * row-major) to the next mip level: the specification as a function, and
 * the nested-loop fill of a freshly zeroed buffer as a method.
 */
module Downscale {
  import opened Pixels
  import opened MipLevels

  /** Byte index of channel i of texel (x, y) in a packed RGB image of width w. */
  function RgbIndex(w: nat, x: nat, y: nat, i: nat): nat
  {
    (y * w + x) * 3 + i
  }

  /** Every texel (x, y) of a w x h image has all three channels inside its w * h * 3 bytes. */
  lemma RgbIndexInside(w: pos, h: pos, x: nat, y: nat, i: nat)
    requires x < w && y < h && i < 3
    ensures RgbIndex(w, x, y, i) < w * h * 3
  {
    TexelInside(w, h, x, y);
  }

  /** The COLOR macro: channel i of texel (x, y) of a packed RGB w x h image. */
  function Color(w: pos, h: pos, data: seq<byte>, x: nat, y: nat, i: nat): byte
    requires |data| >= w * h * 3
    requires x < w && y < h && i < 3
  {
    RgbIndexInside(w, h, x, y, i);
    data[RgbIndex(w, x, y, i)]
  }

  /**
   * Every texel the filter reads for output texel (x, y) lies inside the
   * w x h source image, odd sizes included: the far corner (2x + 1, 2y + 1)
   * of the 2 x 2 block along every dimension that is halved, row 0 and
   * column 0 along a dimension that is already 1.
   */
  lemma SourceReadsInside(w: pos, h: pos, x: nat, y: nat)
    requires x < Half(w) && y < Half(h)
    ensures w > 1 ==> 2 * x + 1 < w
    ensures h > 1 ==> 2 * y + 1 < h
    ensures w == 1 ==> x == 0
    ensures h == 1 ==> y == 0
  {
  }

  /**
   * Channel i of texel (x, y) of the image one level down: the 4-way
   * blur of the 2 x 2 source block when both dimensions shrink, the 2-way
   * blur of a horizontal or a vertical pair at a one-texel strip, and 0
   * (the zeroed buffer, never written) for a 1 x 1 source.
   */
  function ScaledTexel(w: pos, h: pos, data: seq<byte>, x: nat, y: nat, i: nat): byte
    requires |data| >= w * h * 3
    requires x < Half(w) && y < Half(h) && i < 3
  {
    SourceReadsInside(w, h, x, y);
    if w > 1 && h > 1 then
      Box4Blur(Color(w, h, data, 2 * x, 2 * y, i), Color(w, h, data, 2 * x + 1, 2 * y, i),
               Color(w, h, data, 2 * x + 1, 2 * y + 1, i), Color(w, h, data, 2 * x, 2 * y + 1, i))
    else if w > 1 then
      Box2Blur(Color(w, h, data, 2 * x, 0, i), Color(w, h, data, 2 * x + 1, 0, i))
    else if h > 1 then
      Box2Blur(Color(w, h, data, 0, 2 * y, i), Color(w, h, data, 0, 2 * y + 1, i))
    else
      0
  }

  /** Splits a flat byte index of a packed RGB image of width sw into texel and channel. */
  lemma FlatIndex(sw: pos, x: nat, y: nat, i: nat)
    requires x < sw && i < 3
    ensures RgbIndex(sw, x, y, i) / 3 == y * sw + x
    ensures RgbIndex(sw, x, y, i) % 3 == i
    ensures (y * sw + x) % sw == x && (y * sw + x) / sw == y
  {
    DivUnique(RgbIndex(sw, x, y, i), 3, y * sw + x, i);
    DivUnique(y * sw + x, sw, y, x);
  }

  /** A flat byte index of a packed RGB sw x sh image names a texel inside it and a channel. */
  lemma Unflatten(sw: pos, sh: pos, j: nat)
    requires j < sw * sh * 3
    ensures (j / 3) % sw < sw && (j / 3) / sw < sh && j % 3 < 3
    ensures RgbIndex(sw, (j / 3) % sw, (j / 3) / sw, j % 3) == j
  {
    var t, i := j / 3, j % 3;
    assert j == t * 3 + i;
    assert t < sw * sh;
    var y, x := t / sw, t % sw;
    assert t == y * sw + x;
    MulMonotone(sh, y, sw);
  }

  /** Row y of an sw x sh packed RGB image ends where row y + 1 starts, inside the image. */
  lemma RowInside(sw: pos, sh: pos, y: nat)
    requires y < sh
    ensures RgbIndex(sw, sw, y, 0) == RgbIndex(sw, 0, y + 1, 0) <= sw * sh * 3
  {
    MulMonotone(y + 1, sh, sw);
  }

  /** The image one level down, as packed RGB bytes of a Half(w) x Half(h) image. */
  function Downscaled(w: pos, h: pos, data: seq<byte>): (r: seq<byte>)
    requires |data| >= w * h * 3
    ensures |r| == Half(w) * Half(h) * 3
  {
    var sw, sh := Half(w), Half(h);
    seq(sw * sh * 3, j requires 0 <= j < sw * sh * 3 =>
      Unflatten(sw, sh, j);
      ScaledTexel(w, h, data, (j / 3) % sw, (j / 3) / sw, j % 3))
  }

  /** Texel (x, y) of the downscaled image sits at the usual packed-RGB position. */
  lemma DownscaledAt(w: pos, h: pos, data: seq<byte>, x: nat, y: nat, i: nat)
    requires |data| >= w * h * 3
    requires x < Half(w) && y < Half(h) && i < 3
    ensures RgbIndex(Half(w), x, y, i) < |Downscaled(w, h, data)|
    ensures Downscaled(w, h, data)[RgbIndex(Half(w), x, y, i)] == ScaledTexel(w, h, data, x, y, i)
  {
    RgbIndexInside(Half(w), Half(h), x, y, i);
    FlatIndex(Half(w), x, y, i);
  }

  /**
   * A uniformly coloured image (every texel has channels color[0..3])
   * larger than 1 x 1 downscales to the same uniform colour, exactly: no
   * rounding drift.
   */
  lemma DownscaledUniform(w: pos, h: pos, data: seq<byte>, color: seq<byte>)
    requires |data| >= w * h * 3 && |color| == 3
    requires forall x: nat, y: nat, i: nat :: x < w && y < h && i < 3 ==> Color(w, h, data, x, y, i) == color[i]
    requires w > 1 || h > 1
    ensures forall x: nat, y: nat, i: nat :: x < Half(w) && y < Half(h) && i < 3 ==>
      Color(Half(w), Half(h), Downscaled(w, h, data), x, y, i) == color[i]
  {
    forall x: nat, y: nat, i: nat | x < Half(w) && y < Half(h) && i < 3
      ensures Color(Half(w), Half(h), Downscaled(w, h, data), x, y, i) == color[i]
    {
      DownscaledAt(w, h, data, x, y, i);
      ScaledTexelUniform(w, h, data, color, x, y, i);
    }
  }

  /** One texel of DownscaledUniform. */
  lemma ScaledTexelUniform(w: pos, h: pos, data: seq<byte>, color: seq<byte>, x: nat, y: nat, i: nat)
    requires |data| >= w * h * 3 && |color| == 3
    requires forall x: nat, y: nat, i: nat :: x < w && y < h && i < 3 ==> Color(w, h, data, x, y, i) == color[i]
    requires w > 1 || h > 1
    requires x < Half(w) && y < Half(h) && i < 3
    ensures ScaledTexel(w, h, data, x, y, i) == color[i]
  {
    SourceReadsInside(w, h, x, y);
  }

  /**
   * When every channel of the source image lies in [lo, hi], so does every
   * channel of the downscaled image: filtering never leaves the input's
   * range.
   */
  lemma DownscaledInRange(w: pos, h: pos, data: seq<byte>, lo: byte, hi: byte)
    requires |data| >= w * h * 3
    requires w > 1 || h > 1
    requires forall x: nat, y: nat, i: nat :: x < w && y < h && i < 3 ==> lo <= Color(w, h, data, x, y, i) <= hi
    ensures forall x: nat, y: nat, i: nat :: x < Half(w) && y < Half(h) && i < 3 ==>
      lo <= Color(Half(w), Half(h), Downscaled(w, h, data), x, y, i) <= hi
  {
    forall x: nat, y: nat, i: nat | x < Half(w) && y < Half(h) && i < 3
      ensures lo <= Color(Half(w), Half(h), Downscaled(w, h, data), x, y, i) <= hi
    {
      DownscaledAt(w, h, data, x, y, i);
      ScaledTexelInRange(w, h, data, lo, hi, x, y, i);
    }
  }

  /** One texel of DownscaledInRange. */
  lemma ScaledTexelInRange(w: pos, h: pos, data: seq<byte>, lo: byte, hi: byte, x: nat, y: nat, i: nat)
    requires |data| >= w * h * 3
    requires w > 1 || h > 1
    requires forall x: nat, y: nat, i: nat :: x < w && y < h && i < 3 ==> lo <= Color(w, h, data, x, y, i) <= hi
    requires x < Half(w) && y < Half(h) && i < 3
    ensures lo <= ScaledTexel(w, h, data, x, y, i) <= hi
  {
    SourceReadsInside(w, h, x, y);
  }

  /** The byte the 2 x 2 branch writes for texel (x, y), channel i, reading only inside the source. */
  lemma Box4Step(w: pos, h: pos, data: seq<byte>, x: nat, y: nat, i: nat)
    requires |data| >= w * h * 3 && w > 1 && h > 1
    requires x < Half(w) && y < Half(h) && i < 3
    ensures 2 * x + 1 < w && 2 * y + 1 < h
    ensures RgbIndex(Half(w), x, y, i) < Half(w) * Half(h) * 3
    ensures Downscaled(w, h, data)[RgbIndex(Half(w), x, y, i)]
         == Box4Blur(Color(w, h, data, 2 * x, 2 * y, i), Color(w, h, data, 2 * x + 1, 2 * y, i),
                     Color(w, h, data, 2 * x + 1, 2 * y + 1, i), Color(w, h, data, 2 * x, 2 * y + 1, i))
  {
    SourceReadsInside(w, h, x, y);
    DownscaledAt(w, h, data, x, y, i);
  }

  /** The byte the horizontal-strip branch writes for texel x, channel i. */
  lemma RowStep(w: pos, h: pos, data: seq<byte>, x: nat, i: nat)
    requires |data| >= w * h * 3 && w > 1 && h == 1
    requires x < Half(w) && i < 3
    ensures 2 * x + 1 < w
    ensures x * 3 + i < Half(w) * Half(h) * 3
    ensures Downscaled(w, h, data)[x * 3 + i]
         == Box2Blur(Color(w, h, data, 2 * x, 0, i), Color(w, h, data, 2 * x + 1, 0, i))
  {
    SourceReadsInside(w, h, x, 0);
    DownscaledAt(w, h, data, x, 0, i);
  }

  /** The byte the vertical-strip branch writes for texel y, channel i. */
  lemma ColumnStep(w: pos, h: pos, data: seq<byte>, y: nat, i: nat)
    requires |data| >= w * h * 3 && w == 1 && h > 1
    requires y < Half(h) && i < 3
    ensures 2 * y + 1 < h
    ensures y * 3 + i < Half(w) * Half(h) * 3
    ensures Downscaled(w, h, data)[y * 3 + i]
         == Box2Blur(Color(w, h, data, 0, 2 * y, i), Color(w, h, data, 0, 2 * y + 1, i))
  {
    SourceReadsInside(w, h, 0, y);
    DownscaledAt(w, h, data, 0, y, i);
  }

  /**
   * _image_scale_down_ubyte_rgb: allocates a zeroed Half(w) x Half(h) RGB
   * buffer and fills it, texel by texel and channel by channel, with the
   * box filter of the source image; a 1 x 1 source leaves it zeroed.
   */
  method ScaleDownRgb(w: pos, h: pos, data: seq<byte>) returns (scaled: array<byte>)
    requires |data| >= w * h * 3
    ensures fresh(scaled)
    ensures scaled.Length == Half(w) * Half(h) * 3
    ensures scaled[..] == Downscaled(w, h, data)
  {
    var sw, sh := Half(w), Half(h);
    scaled := new byte[sw * sh * 3](_ => 0);
    if w > 1 && h > 1 {
      FillBlocks(w, h, data, scaled);
    } else if w > 1 {
      FillRow(w, h, data, scaled);
    } else if h > 1 {
      FillColumn(w, h, data, scaled);
    } else {
      forall j | 0 <= j < 3
        ensures scaled[j] == Downscaled(w, h, data)[j]
      {
        DownscaledAt(w, h, data, 0, 0, j);
      }
      assert scaled[..] == Downscaled(w, h, data);
    }
  }

  /** The nested y/x/i loops of the 2 x 2 case: every channel is a 4-way blur. */
  method FillBlocks(w: pos, h: pos, data: seq<byte>, scaled: array<byte>)
    requires |data| >= w * h * 3 && w > 1 && h > 1
    requires scaled.Length == Half(w) * Half(h) * 3
    modifies scaled
    ensures scaled[..] == Downscaled(w, h, data)
  {
    var sw, sh := Half(w), Half(h);
    ghost var spec := Downscaled(w, h, data);
    ghost var k: nat := 0;
    var y: nat := 0;
    while y < sh
      invariant y <= sh && k == RgbIndex(sw, 0, y, 0) && k <= scaled.Length
      invariant forall j :: 0 <= j < k ==> scaled[j] == spec[j]
    {
      RowInside(sw, sh, y);
      var x: nat := 0;
      while x < sw
        invariant x <= sw && k == RgbIndex(sw, x, y, 0) && k <= scaled.Length
        invariant forall j :: 0 <= j < k ==> scaled[j] == spec[j]
      {
        for i := 0 to 3
          invariant k == RgbIndex(sw, x, y, i) && k <= scaled.Length
          invariant forall j :: 0 <= j < k ==> scaled[j] == spec[j]
        {
          Box4Step(w, h, data, x, y, i);
          scaled[RgbIndex(sw, x, y, i)] := Box4Blur(
            Color(w, h, data, 2 * x, 2 * y, i),
            Color(w, h, data, 2 * x + 1, 2 * y, i),
            Color(w, h, data, 2 * x + 1, 2 * y + 1, i),
            Color(w, h, data, 2 * x, 2 * y + 1, i));
          k := k + 1;
        }
        x := x + 1;
      }
      y := y + 1;
    }
    assert k == sw * sh * 3;
    assert scaled[..] == spec;
  }

  /** The x/i loops of the one-row case: every channel is a 2-way blur of a horizontal pair. */
  method FillRow(w: pos, h: pos, data: seq<byte>, scaled: array<byte>)
    requires |data| >= w * h * 3 && w > 1 && h == 1
    requires scaled.Length == Half(w) * Half(h) * 3
    modifies scaled
    ensures scaled[..] == Downscaled(w, h, data)
  {
    var sw := Half(w);
    ghost var spec := Downscaled(w, h, data);
    var x: nat := 0;
    while x < sw
      invariant x <= sw
      invariant forall j :: 0 <= j < x * 3 ==> scaled[j] == spec[j]
    {
      for i := 0 to 3
        invariant forall j :: 0 <= j < x * 3 + i ==> scaled[j] == spec[j]
      {
        RowStep(w, h, data, x, i);
        scaled[x * 3 + i] := Box2Blur(Color(w, h, data, 2 * x, 0, i), Color(w, h, data, 2 * x + 1, 0, i));
      }
      x := x + 1;
    }
    assert scaled[..] == spec;
  }

  /** The y/i loops of the one-column case: every channel is a 2-way blur of a vertical pair. */
  method FillColumn(w: pos, h: pos, data: seq<byte>, scaled: array<byte>)
    requires |data| >= w * h * 3 && w == 1 && h > 1
    requires scaled.Length == Half(w) * Half(h) * 3
    modifies scaled
    ensures scaled[..] == Downscaled(w, h, data)
  {
    var sw, sh := Half(w), Half(h);
    assert sw == 1;
    ghost var spec := Downscaled(w, h, data);
    var y: nat := 0;
    while y < sh
      invariant y <= sh
      invariant forall j :: 0 <= j < y * 3 ==> scaled[j] == spec[j]
    {
      for i := 0 to 3
        invariant forall j :: 0 <= j < y * 3 + i ==> scaled[j] == spec[j]
      {
        ColumnStep(w, h, data, y, i);
        assert y * sw * 3 + i == y * 3 + i;
        scaled[y * sw * 3 + i] := Box2Blur(Color(w, h, data, 0, 2 * y, i), Color(w, h, data, 0, 2 * y + 1, i));
      }
      y := y + 1;
    }
    assert scaled[..] == spec;
  }

  /**
   * _image_scale_down: only packed 24-bit RGB can be downscaled; every
   * other format yields no buffer (a null pointer in the source).
   */
  method ScaleDown(w: pos, h: pos, format: ImageFormat, data: seq<byte>) returns (scaled: array?<byte>)
    requires format == UbyteRgb ==> |data| >= w * h * 3
    ensures scaled == null <==> format != UbyteRgb
    ensures scaled != null ==> fresh(scaled) && scaled[..] == Downscaled(w, h, data)
  {
    match format
    case UbyteRgb =>
      scaled := ScaleDownRgb(w, h, data);
    case OtherFormat =>
      scaled := null;
  }
}
