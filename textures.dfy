/**
 * The texture object of the renderer: its shape (width, height, number of
 * mip levels) and one flat array of colour-index texels holding every mip
 * level, base level first. Uploading an image quantises its packed RGB
 * bytes into level 0 and, on request, box-filters and quantises each
 * further level from the RGB image of the level above it.
 */
module Textures {
  import opened Pixels
  import opened MipLevels
  import opened Downscale

  /** The error code an operation reports through the renderer's error state. */
  datatype Error = NoError | NullPointer | InvalidArgument

  /**
   * The R3G3B2 colour quantiser, whose body is not part of this model: it
   * turns the packed RGB bytes of a w x h image into w * h colour indices,
   * with or without ordered dithering.
   */
  type Quantizer = q: (seq<byte>, nat, nat, bool) -> seq<byte> |
    forall rgb: seq<byte>, w: nat, h: nat, dither: bool :: |q(rgb, w, h, dither)| == w * h
    witness (rgb: seq<byte>, w: nat, h: nat, dither: bool) => seq(w * h, _ => 0)

  /**
   * The RGB image that mip level L of a w x h upload is quantised from:
   * the uploaded bytes themselves at level 0, and the box-filtered image of
   * level L - 1 below that.
   */
  function LevelImage(w: pos, h: pos, data: seq<byte>, L: nat): (r: seq<byte>)
    requires |data| >= w * h * 3
    ensures |r| >= LevelDim(w, L) * LevelDim(h, L) * 3
    ensures L > 0 ==> |r| == LevelDim(w, L) * LevelDim(h, L) * 3
  {
    if L == 0 then data
    else Downscaled(LevelDim(w, L - 1), LevelDim(h, L - 1), LevelImage(w, h, data, L - 1))
  }

  /**
   * A uniformly coloured upload stays uniformly coloured, in the same
   * colour, at every level of its full chain: the chain stops at 1 x 1
   * before the filter would ever be asked to shrink a 1 x 1 image.
   */
  lemma {:induction false} LevelImageUniform(w: pos, h: pos, data: seq<byte>, color: seq<byte>, L: nat)
    requires |data| >= w * h * 3 && |color| == 3
    requires forall x: nat, y: nat, i: nat :: x < w && y < h && i < 3 ==> Color(w, h, data, x, y, i) == color[i]
    requires L < LevelCount(w, h)
    ensures forall x: nat, y: nat, i: nat :: x < LevelDim(w, L) && y < LevelDim(h, L) && i < 3 ==>
      Color(LevelDim(w, L), LevelDim(h, L), LevelImage(w, h, data, L), x, y, i) == color[i]
  {
    if L > 0 {
      LevelImageUniform(w, h, data, color, L - 1);
      LevelCountEndsAtUnit(w, h, L - 1);
      DownscaledUniform(LevelDim(w, L - 1), LevelDim(h, L - 1), LevelImage(w, h, data, L - 1), color);
    }
  }

  /** The colour indices stored for mip level L: its RGB image, quantised. */
  function LevelTexels(w: pos, h: pos, data: seq<byte>, dither: bool, quantize: Quantizer, L: nat): (r: seq<byte>)
    requires |data| >= w * h * 3
    ensures |r| == LevelSize(w, h, L)
  {
    var lw, lh := LevelDim(w, L), LevelDim(h, L);
    quantize(LevelImage(w, h, data, L)[..lw * lh * 3], lw, lh, dither)
  }

  /** The texel array of a chain of n levels: the levels' texels one after the other. */
  function ChainTexels(w: pos, h: pos, data: seq<byte>, dither: bool, quantize: Quantizer, n: nat): (r: seq<byte>)
    requires |data| >= w * h * 3
    ensures |r| == LevelOffset(w, h, n)
  {
    if n == 0 then [] else ChainTexels(w, h, data, dither, quantize, n - 1) + LevelTexels(w, h, data, dither, quantize, n - 1)
  }

  /**
   * Level L of a chain of n levels occupies exactly the LevelSize(w, h, L)
   * texels starting at LevelOffset(w, h, L), the slice that
   * Texture.SelectMipLevel hands out for it.
   */
  lemma ChainSlice(w: pos, h: pos, data: seq<byte>, dither: bool, quantize: Quantizer, n: nat, L: nat)
    requires |data| >= w * h * 3
    requires L < n
    ensures LevelOffset(w, h, L) + LevelSize(w, h, L) <= LevelOffset(w, h, n)
    ensures ChainTexels(w, h, data, dither, quantize, n)[LevelOffset(w, h, L)..LevelOffset(w, h, L) + LevelSize(w, h, L)]
         == LevelTexels(w, h, data, dither, quantize, L)
  {
    ChainPrefix(w, h, data, dither, quantize, L + 1, n);
    PrefixSlice(ChainTexels(w, h, data, dither, quantize, L), LevelTexels(w, h, data, dither, quantize, L),
                ChainTexels(w, h, data, dither, quantize, n));
  }

  /** A shorter chain is a prefix of a longer one. */
  lemma {:induction false} ChainPrefix(w: pos, h: pos, data: seq<byte>, dither: bool, quantize: Quantizer, m: nat, n: nat)
    requires |data| >= w * h * 3
    requires m <= n
    ensures ChainTexels(w, h, data, dither, quantize, m) <= ChainTexels(w, h, data, dither, quantize, n)
  {
    if m < n {
      ChainPrefix(w, h, data, dither, quantize, m, n - 1);
      PrefixExtend(ChainTexels(w, h, data, dither, quantize, m), ChainTexels(w, h, data, dither, quantize, n - 1),
                   LevelTexels(w, h, data, dither, quantize, n - 1));
    }
  }

  /** A prefix stays a prefix when the longer sequence grows. */
  lemma PrefixExtend<T>(a: seq<T>, b: seq<T>, c: seq<T>)
    requires a <= b
    ensures a <= b + c
  {
    assert (b + c)[..|a|] == a;
  }

  /** A prefix as long as the whole sequence is the whole sequence. */
  lemma PrefixOfSameLength<T>(a: seq<T>, b: seq<T>)
    requires a <= b && |a| == |b|
    ensures a == b
  {
  }

  /** The part that follows a prefix a inside a + b <= full is b. */
  lemma PrefixSlice<T>(a: seq<T>, b: seq<T>, full: seq<T>)
    requires a + b <= full
    ensures full[|a|..|a| + |b|] == b
  {
    assert full[..|a| + |b|] == a + b;
  }

  /**
   * A texture object. A texture without storage has shape 0 x 0 with no
   * levels; one with storage holds an image of at least 1 x 1 texels with
   * either a single level or the full chain down to 1 x 1, and exactly as
   * many texels as those levels together.
   */
  class Texture {
    var width: int
    var height: int
    var mips: int
    var texels: array?<byte>

    predicate Valid()
      reads this
    {
      if texels == null then width == 0 && height == 0 && mips == 0
      else
        width >= 1 && height >= 1 && (mips == 1 || mips == LevelCount(width, height))
        && texels.Length == LevelOffset(width, height, mips)
    }

    /** _pr_texture_create: an empty texture, 0 x 0 with no levels and no storage. */
    constructor ()
      ensures width == 0 && height == 0 && mips == 0 && texels == null
      ensures Valid()
    {
      width, height, mips, texels := 0, 0, 0, null;
    }

    /**
     * _pr_texture_select_miplevel: clamps the requested level to the last
     * level of the chain and returns where that level starts in the texel
     * array and its dimensions; the level's texels lie inside the array.
     */
    method SelectMipLevel(mip: byte) returns (offset: nat, w: pos, h: pos)
      requires Valid() && texels != null
      ensures var L := if mip < mips then mip else mips - 1;
        offset == LevelOffset(width, height, L) && w == LevelDim(width, L) && h == LevelDim(height, L)
      ensures offset + w * h <= texels.Length
    {
      var level: nat := if mip < mips - 1 then mip else mips - 1;
      // PR_MIP_SIZE: the dimension after `level` halving steps
      w, h := LevelDim(width, level), LevelDim(height, level);
      var lw: pos, lh: pos := width, height;
      offset := 0;
      var m := level;
      ghost var k: nat := 0;
      while m > 0
        invariant k + m == level
        invariant lw == LevelDim(width, k) && lh == LevelDim(height, k)
        invariant offset == LevelOffset(width, height, k)
      {
        assert lw * lh == LevelSize(width, height, k);
        offset := offset + lw * lh;
        if lw > 1 {
          lw := lw / 2;
        }
        if lh > 1 {
          lh := lh / 2;
        }
        m := m - 1;
        k := k + 1;
      }
      LevelInsideChain(width, height, level, mips);
    }

    /**
     * The storage step of _pr_texture_image2d: a texture whose shape differs
     * from the requested one takes that shape and fresh zero-filled storage
     * of numTexels texels; one of the same shape keeps its storage as is.
     */
    method Reshape(w: pos, h: pos, levels: pos, numTexels: nat)
      requires Valid()
      requires (levels == 1 || levels == LevelCount(w, h)) && numTexels == LevelOffset(w, h, levels)
      modifies this
      ensures Valid() && texels != null
      ensures width == w && height == h && mips == levels
      ensures old(width) != w || old(height) != h || old(mips) != levels ==>
        fresh(texels) && forall j :: 0 <= j < texels.Length ==> texels[j] == 0
      ensures old(width) == w && old(height) == h && old(mips) == levels ==> texels == old(texels)
    {
      if width != w || height != h || mips != levels {
        width, height, mips := w, h, levels;
        texels := new byte[numTexels](_ => 0);
      }
    }
  }

  /**
   * The counting loop of _pr_texture_image2d: with mip generation, one
   * level per step of the halving sequence down to 1 x 1, summing every
   * level's texels; without, the base level alone.
   */
  method CountTexels(width: pos, height: pos, generateMips: bool) returns (mips: nat, numTexels: nat)
    ensures mips == if generateMips then LevelCount(width, height) else 1
    ensures numTexels == LevelOffset(width, height, mips)
  {
    if generateMips {
      var w: pos, h: pos := width, height;
      mips, numTexels := 0, 0;
      while true
        invariant mips + LevelCount(w, h) == LevelCount(width, height)
        invariant w == LevelDim(width, mips) && h == LevelDim(height, mips)
        invariant numTexels == LevelOffset(width, height, mips)
        decreases w + h
      {
        assert w * h == LevelSize(width, height, mips);
        numTexels := numTexels + w * h;
        mips := mips + 1;
        if w == 1 && h == 1 {
          break;
        }
        if w > 1 {
          w := w / 2;
        }
        if h > 1 {
          h := h / 2;
        }
      }
    } else {
      mips := 1;
      numTexels := width * height;
      assert numTexels == LevelSize(width, height, 0);
    }
  }

  /**
   * _texture_subimage2d: quantises a w x h packed RGB image into the w * h
   * texels starting at offset and leaves every other texel alone; any
   * format but packed RGB is refused with INVALID_ARGUMENT and writes
   * nothing.
   */
  method WriteLevel(texels: array<byte>, offset: nat, w: pos, h: pos, format: ImageFormat, rgb: seq<byte>,
                    dither: bool, quantize: Quantizer) returns (err: Error)
    requires offset + w * h <= texels.Length
    requires format == UbyteRgb ==> |rgb| >= w * h * 3
    modifies texels
    ensures format != UbyteRgb ==> err == InvalidArgument && unchanged(texels)
    ensures format == UbyteRgb ==>
      && err == NoError
      && texels[..] == old(texels[..offset]) + quantize(rgb[..w * h * 3], w, h, dither) + old(texels[offset + w * h..])
  {
    if format != UbyteRgb {
      return InvalidArgument;
    }
    var indices := quantize(rgb[..w * h * 3], w, h, dither);
    var n := w * h;
    forall j | offset <= j < offset + n {
      texels[j] := indices[j - offset];
    }
    err := NoError;
  }

  /**
   * _pr_texture_image2d on a texture object: validates the pointer and the
   * size, sizes the storage (reallocating, zero-filled, only when the shape
   * changes), writes level 0 and, on request, every further level.
   * With packed RGB data every level of the chain ends up holding its
   * quantised box-filtered image. Any other format is reported as
   * INVALID_ARGUMENT after the storage has been sized; the upload still
   * succeeds when there is a single level, and stops at level 1 otherwise.
   */
  method Image2D(texture: Texture?, width: nat, height: nat, format: ImageFormat, data: seq<byte>,
                 dither: bool, generateMips: bool, quantize: Quantizer) returns (ok: bool, err: Error)
    requires texture != null ==> texture.Valid()
    requires format == UbyteRgb && width > 0 && height > 0 ==> |data| >= width * height * 3
    modifies texture, if texture != null then {texture.texels} else {}
    ensures texture == null ==> !ok && err == NullPointer
    ensures texture != null && (width == 0 || height == 0) ==>
      !ok && err == InvalidArgument && unchanged(texture) && (texture.texels != null ==> unchanged(texture.texels))
    ensures texture != null && width > 0 && height > 0 ==>
      var mips := if generateMips then LevelCount(width, height) else 1;
      var reshaped := old(texture.width) != width || old(texture.height) != height || old(texture.mips) != mips;
      && texture.Valid() && texture.texels != null
      && texture.width == width && texture.height == height && texture.mips == mips
      && (reshaped ==> fresh(texture.texels))
      && (!reshaped ==> texture.texels == old(texture.texels))
      && (format == UbyteRgb ==>
            && ok && err == NoError
            && texture.texels[..] == ChainTexels(width, height, data, dither, quantize, mips))
      && (format != UbyteRgb ==>
            && ok == (mips == 1) && err == InvalidArgument
            && (reshaped ==> forall j :: 0 <= j < texture.texels.Length ==> texture.texels[j] == 0)
            && (!reshaped ==> unchanged(texture.texels)))
  {
    if texture == null {
      return false, NullPointer;
    }
    if width == 0 || height == 0 {
      return false, InvalidArgument;
    }
    var mips, numTexels := CountTexels(width, height, generateMips);
    texture.Reshape(width, height, mips, numTexels);
    var texels := texture.texels;
    LevelInsideChain(width, height, 0, mips);
    err := WriteLevel(texels, 0, width, height, format, data, dither, quantize);
    ok := true;
    if generateMips {
      assert format == UbyteRgb ==> ChainTexels(width, height, data, dither, quantize, 1) <= texels[..];
      ok := FillMipChain(texels, width, height, mips, format, data, dither, quantize);
      if !ok {
        err := InvalidArgument;
      }
    }
  }

  /**
   * A w x h rectangle at (x, y) is non-empty and lies inside an image of
   * imageWidth x imageHeight texels.
   */
  predicate RectInside(imageWidth: int, imageHeight: int, x: int, y: int, w: int, h: int)
  {
    0 <= x && 0 <= y && w > 0 && h > 0 && x + w <= imageWidth && y + h <= imageHeight
  }

  /** Texel (i, j) lies inside an image of imageWidth x imageHeight texels. */
  predicate InImage(imageWidth: int, imageHeight: int, i: int, j: int)
  {
    0 <= i < imageWidth && 0 <= j < imageHeight
  }

  /** RectInside holds exactly when the rectangle has texels and every one of them lies inside the image. */
  lemma RectInsideIffTexelsInside(imageWidth: int, imageHeight: int, x: int, y: int, w: int, h: int)
    ensures RectInside(imageWidth, imageHeight, x, y, w, h) <==>
      w > 0 && h > 0 && forall i, j :: x <= i < x + w && y <= j < y + h ==> InImage(imageWidth, imageHeight, i, j)
  {
    if w > 0 && h > 0 && forall i, j :: x <= i < x + w && y <= j < y + h ==> InImage(imageWidth, imageHeight, i, j) {
      assert InImage(imageWidth, imageHeight, x, y);
      assert InImage(imageWidth, imageHeight, x + w - 1, y + h - 1);
    }
  }

  /**
   * _pr_texture_subimage2d: refuses a null texture with NULL_POINTER; with
   * INVALID_ARGUMENT a texture without storage, a level past the chain, and
   * any rectangle that is not inside the base level with its last column
   * and its last row taken away (so a rectangle reaching the right or the
   * bottom edge is refused). An accepted call writes nothing: the
   * rectangle writer _texture_subimage2d_rect has an empty body, and this
   * method may not modify any object.
   */
  method SubImage2D(texture: Texture?, mip: byte, x: int, y: int, width: int, height: int,
                    format: ImageFormat, data: seq<byte>, dither: bool) returns (ok: bool, err: Error)
    ensures texture == null ==> !ok && err == NullPointer
    ensures texture != null ==>
      && (ok <==> texture.texels != null && mip < texture.mips
                  && RectInside(texture.width - 1, texture.height - 1, x, y, width, height))
      && err == if ok then NoError else InvalidArgument
  {
    if texture == null {
      return false, NullPointer;
    }
    if texture.texels == null || x < 0 || y < 0 || x + width >= texture.width || y + height >= texture.height
       || width <= 0 || height <= 0 || mip >= texture.mips
    {
      return false, InvalidArgument;
    }
    return true, NoError;
  }

  /**
   * The bounds test of _pr_texture_subimage2d refuses the rectangle that
   * covers the whole base level, though every texel of it lies inside.
   */
  lemma WholeImageRectRefused(texture: Texture)
    requires texture.Valid() && texture.texels != null
    ensures RectInside(texture.width, texture.height, 0, 0, texture.width, texture.height)
    ensures !RectInside(texture.width - 1, texture.height - 1, 0, 0, texture.width, texture.height)
  {
    RectInsideIffTexelsInside(texture.width, texture.height, 0, 0, texture.width, texture.height);
  }

  /**
   * _pr_texture_subimage2d with the bounds test it evidently means: a
   * rectangle is accepted exactly when it has texels and all of them lie
   * inside the base level, the last column and row included.
   */
  method SubImage2DInBounds(texture: Texture?, mip: byte, x: int, y: int, width: int, height: int,
                            format: ImageFormat, data: seq<byte>, dither: bool) returns (ok: bool, err: Error)
    ensures texture == null ==> !ok && err == NullPointer
    ensures texture != null ==>
      && (ok <==> texture.texels != null && mip < texture.mips
                  && width > 0 && height > 0
                  && forall i, j :: x <= i < x + width && y <= j < y + height ==>
                       InImage(texture.width, texture.height, i, j))
      && err == if ok then NoError else InvalidArgument
  {
    if texture == null {
      return false, NullPointer;
    }
    RectInsideIffTexelsInside(texture.width, texture.height, x, y, width, height);
    if texture.texels == null || x < 0 || y < 0 || x + width > texture.width || y + height > texture.height
       || width <= 0 || height <= 0 || mip >= texture.mips
    {
      return false, InvalidArgument;
    }
    return true, NoError;
  }

  /**
   * The level loop of _pr_texture_image2d: starting from level 0 already in
   * place, each step writes the next level (see WriteNextLevel). A format
   * that cannot be downscaled ends the loop at its first step with a
   * failure.
   */
  method FillMipChain(texels: array<byte>, width: pos, height: pos, mips: pos, format: ImageFormat, data: seq<byte>,
                      dither: bool, quantize: Quantizer) returns (ok: bool)
    requires texels.Length == LevelOffset(width, height, mips)
    requires format == UbyteRgb ==> |data| >= width * height * 3
    requires format == UbyteRgb ==> ChainTexels(width, height, data, dither, quantize, 1) <= texels[..]
    modifies texels
    ensures format == UbyteRgb ==> ok && texels[..] == ChainTexels(width, height, data, dither, quantize, mips)
    ensures format != UbyteRgb ==> ok == (mips == 1) && unchanged(texels)
  {
    var w: pos, h: pos := width, height;
    var offset: nat := 0;
    var prev := data;
    var mip: pos := 1;
    while mip < mips
      invariant mip <= mips
      invariant w == LevelDim(width, mip - 1) && h == LevelDim(height, mip - 1)
      invariant offset == LevelOffset(width, height, mip - 1)
      invariant format == UbyteRgb ==> prev == LevelImage(width, height, data, mip - 1)
      invariant format == UbyteRgb ==> ChainTexels(width, height, data, dither, quantize, mip) <= texels[..]
      invariant format != UbyteRgb ==> mip == 1 && unchanged(texels)
    {
      ok, w, h, offset, prev := WriteNextLevel(texels, width, height, mips, format, data, dither, quantize,
                                               mip, w, h, offset, prev);
      if !ok {
        return false;
      }
      mip := mip + 1;
    }
    if format == UbyteRgb {
      PrefixOfSameLength(ChainTexels(width, height, data, dither, quantize, mips), texels[..]);
    }
    ok := true;
  }

  /**
   * One step of the level loop of _pr_texture_image2d, for level mip:
   * advance the offset past level mip - 1, downscale that level's RGB
   * image (a format other than packed RGB fails here, writing nothing),
   * halve the dimensions and quantise the downscaled image into level mip,
   * which extends the chain written so far by one level.
   */
  method WriteNextLevel(texels: array<byte>, width: pos, height: pos, mips: pos, format: ImageFormat, data: seq<byte>,
                        dither: bool, quantize: Quantizer, mip: pos, w: pos, h: pos, offset: nat, prev: seq<byte>)
    returns (ok: bool, w': pos, h': pos, offset': nat, next: seq<byte>)
    requires mip < mips && texels.Length == LevelOffset(width, height, mips)
    requires w == LevelDim(width, mip - 1) && h == LevelDim(height, mip - 1)
    requires offset == LevelOffset(width, height, mip - 1)
    requires format == UbyteRgb ==> |data| >= width * height * 3 && prev == LevelImage(width, height, data, mip - 1)
    requires format == UbyteRgb ==> ChainTexels(width, height, data, dither, quantize, mip) <= texels[..]
    modifies texels
    ensures ok <==> format == UbyteRgb
    ensures !ok ==> unchanged(texels)
    ensures ok ==> && w' == LevelDim(width, mip) && h' == LevelDim(height, mip)
                   && offset' == LevelOffset(width, height, mip)
                   && next == LevelImage(width, height, data, mip)
                   && ChainTexels(width, height, data, dither, quantize, mip + 1) <= texels[..]
  {
    assert w * h == LevelSize(width, height, mip - 1);
    offset' := offset + w * h;
    var scaled := ScaleDown(w, h, format, prev);
    if scaled == null {
      return false, w, h, offset', prev;
    }
    next := scaled[..];
    w', h' := w, h;
    if w' > 1 {
      w' := w' / 2;
    }
    if h' > 1 {
      h' := h' / 2;
    }
    LevelInsideChain(width, height, mip, mips);
    ghost var before := texels[..];
    var _ := WriteLevel(texels, offset', w', h', format, next, dither, quantize);
    NextLevelWritten(width, height, data, dither, quantize, mip, prev, next, w', h', offset', before, texels[..]);
    ok := true;
  }

  /**
   * One step of the level loop: downscaling the RGB image of level mip - 1
   * gives the RGB image of level mip, and quantising it into the texels
   * right after the chain written so far extends that chain by level mip.
   */
  lemma NextLevelWritten(width: pos, height: pos, data: seq<byte>, dither: bool, quantize: Quantizer, mip: pos,
                         above: seq<byte>, scaled: seq<byte>, w: pos, h: pos, offset: nat,
                         before: seq<byte>, after: seq<byte>)
    requires |data| >= width * height * 3
    requires above == LevelImage(width, height, data, mip - 1)
    requires scaled == Downscaled(LevelDim(width, mip - 1), LevelDim(height, mip - 1), above)
    requires w == LevelDim(width, mip) && h == LevelDim(height, mip) && offset == LevelOffset(width, height, mip)
    requires ChainTexels(width, height, data, dither, quantize, mip) <= before
    requires offset + w * h <= |before|
    requires after == before[..offset] + quantize(scaled[..w * h * 3], w, h, dither) + before[offset + w * h..]
    ensures scaled == LevelImage(width, height, data, mip)
    ensures ChainTexels(width, height, data, dither, quantize, mip + 1) <= after
  {
    assert w * h == LevelSize(width, height, mip);
    PrefixStep(ChainTexels(width, height, data, dither, quantize, mip),
               LevelTexels(width, height, data, dither, quantize, mip), before, after);
  }

  /** Writing the next level's texels right after a written prefix extends that prefix. */
  lemma PrefixStep<T>(prefix: seq<T>, level: seq<T>, before: seq<T>, after: seq<T>)
    requires prefix <= before && |prefix| + |level| <= |before|
    requires after == before[..|prefix|] + level + before[|prefix| + |level|..]
    ensures prefix + level <= after
  {
    assert after[..|prefix| + |level|] == prefix + level;
  }
}
