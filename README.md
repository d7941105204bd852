# PicoRenderer textures in Dafny

A model of PicoRenderer's texture subsystem, `src/rasterizer/texture.c`. A
texture holds a shape (width, height, number of mip levels) and one flat
array of 8-bit colour indices in R3G3B2 form. That array holds every mip
level, base level first.

Uploading an image (`_pr_texture_image2d`) does the following:

- It validates the texture pointer and the size.
- It counts the levels and texels of the requested chain.
- It reallocates zero-filled storage only when the shape changes.
- It quantises the packed-RGB upload into level 0.
- On request, it box-filters each level down to the next one and
  quantises that as well.

A renderer later clamps a requested level to the chain and finds its
texels with `_pr_texture_select_miplevel`. It reads one texel with
wrap-around addressing at the end of `_pr_texture_sample_nearest`.

Modules:

- `Pixels` (pixels.dfy): bytes, image formats, and the 2x2 and 2x1 box
  filters.
- `MipLevels` (mip_levels.dfy): how a dimension halves, how many levels a
  chain has, and where each level starts in the flat array. It also holds
  the logarithmic level count of `_pr_texture_num_mips` and how that count
  relates to the chain.
- `Downscale` (downscale.dfy): the packed-RGB downscaler.
  - `Downscaled` is the specification, one texel at a time.
  - `ScaleDownRgb` is the nested-loop fill of a zeroed buffer, proved to
    produce exactly `Downscaled`.
- `Textures` (textures.dfy):
  - the texture object as a class with `width`, `height`, `mips` and
    `texels` fields;
  - create, select-level, the storage step of an upload, and the level
    writer;
  - the whole upload, with the chain it builds specified by `ChainTexels`;
  - the sub-image entry point.
- `Sampling` (sampling.dfy): the wrap-around texel read.

The R3G3B2 quantiser `_pr_image_color_to_colorindex_r3g3b2` is not part of
this model. Its body is not shown. Every operation that uses it takes it as
a parameter of type `Quantizer`, which is any function that maps a w x h RGB
image to w * h colour indices. Errors that the C code reports through
`_pr_error_set` are returned as an `Error` value.

The source has two level counts:

- `_pr_texture_num_mips` (src/rasterizer/texture.c:285-288) computes
  ceil(log2(max size)) + 1.
- The allocation loop of `_pr_texture_image2d`
  (src/rasterizer/texture.c:183-197) counts the floor-halving sequence
  down to 1 x 1, which is floor(log2(max size)) + 1.

A texture's storage and its `mips` field come from the allocation loop, and
the model follows that loop. `MipLevels.NumMipsMatchesChainIffPow2` relates
the two counts for a w x h texture whose sides are below 256. They agree
exactly when the larger side is a power of two, and `_pr_texture_num_mips`
counts one level more for every other size.

## Model

| member | source | states |
|---|---|---|
| Pixels.Box4Blur | src/rasterizer/texture.c:46-54 | the result is the floor of the mean of the four bytes; it lies between their minimum and maximum; four equal inputs give that input back |
| Pixels.Box2Blur | src/rasterizer/texture.c:56-62 | the result is the floor of the mean of the two bytes; it lies between them; two equal inputs give that input back |
| MipLevels.LevelCount | src/rasterizer/texture.c:183-197 | the counting loop's number of levels: one per step of the halving sequence, ending with the first level that is 1 x 1 (its properties are the two LevelCount lemmas below) |
| MipLevels.LevelDim | src/rasterizer/texture.c:302-303 | PR_MIP_SIZE as the model defines it: the base dimension halved L times, which never exceeds the base dimension and is smaller at every level after 0 unless the base is 1 |
| MipLevels.LevelSize | src/rasterizer/texture.c:310 | the number of texels of level L, never more than the base level's w * h |
| MipLevels.LevelOffset | src/rasterizer/texture.c:306-318 | where level L starts in the texel array: the sum of the sizes of the levels before it, which is at least L and, after level 0, at least w * h |
| MipLevels.Half | src/rasterizer/texture.c:193-196 | one halving step keeps 1 at 1 and otherwise gives a smaller dimension with 2r <= n < 2r + 2 |
| MipLevels.LevelDimIsShift | src/rasterizer/texture.c:302-303 | the dimension at level L is the base dimension shifted right by L bits, or 1 when that shift reaches 0 |
| MipLevels.LevelCountEndsAtUnit | src/rasterizer/texture.c:183-197 | within a chain of LevelCount levels, a level is 1 x 1 exactly when it is the last one |
| MipLevels.LevelCountIsFloorLog2 | src/rasterizer/texture.c:183-197 | the number of levels of the counting loop is floor(log2(max(w, h))) + 1 |
| MipLevels.NumMips | src/rasterizer/texture.c:285-288 | for a positive size, 2^(r-1) is the first power of two at or above the size (2^(r-2) lies below it whenever r >= 2), so r is ceil(log2) + 1 and a size of 1 gives 1 level; a size of 0 gives 0 levels, and only 0 does |
| MipLevels.CeilLog2Bracket | src/rasterizer/texture.c:287 | ceil(log2 n) is floor(log2 n) or one more; the two are equal exactly when n is a power of two |
| MipLevels.NumMipsMatchesChainIffPow2 | src/rasterizer/texture.c:285-288 | for a w x h texture with sides below 256, _pr_texture_num_mips of the larger side m equals the chain length that _pr_texture_image2d allocates exactly when m is a power of two; otherwise it is one more |
| MipLevels.LevelInsideChain | src/rasterizer/texture.c:306-318 | level L starts where the levels before it end, and it ends inside the storage of every longer chain |
| MipLevels.ChainExamples | src/rasterizer/texture.c:183-202 | worked chain lengths and sizes: 4 x 4 has 3 levels and 21 texels, 5 x 5 has 3 levels and 30 texels, 1 x 1 has 1 level, 256 x 256 has 9 levels; also num_mips of 5, 1 and 2 |
| Downscale.Color | src/rasterizer/texture.c:66 | the COLOR macro: channel i of texel (x, y), read at byte (y * w + x) * 3 + i of the image |
| Downscale.ScaledTexel | src/rasterizer/texture.c:73-117 | channel i of output texel (x, y) for each shape case: the 4-way blur, the horizontal or vertical 2-way blur, or 0 for a 1 x 1 source, which the zeroed buffer keeps |
| Downscale.RgbIndexInside | src/rasterizer/texture.c:66 | the COLOR index of every channel of every texel of a w x h image is below w * h * 3 |
| Downscale.SourceReadsInside | src/rasterizer/texture.c:68-69 | for every output texel, the 2 x 2 block (or the pair, for a one-texel strip) it is filtered from lies inside the source, odd sizes included |
| Downscale.Downscaled | src/rasterizer/texture.c:68-71 | the next level has Half(w) x Half(h) texels of 3 bytes each |
| Downscale.DownscaledAt | src/rasterizer/texture.c:81 | texel (x, y), channel i of the next level is at packed-RGB index (y * Half(w) + x) * 3 + i and holds the branch's filtered value |
| Downscale.Box4Step | src/rasterizer/texture.c:79-86 | when both dimensions shrink, each output byte is the 4-way blur of texels (2x, 2y), (2x+1, 2y), (2x+1, 2y+1) and (2x, 2y+1), all inside the source |
| Downscale.RowStep | src/rasterizer/texture.c:95-100 | in a one-row image, each output byte is the 2-way blur of texels (2x, 0) and (2x+1, 0), both inside the source |
| Downscale.ColumnStep | src/rasterizer/texture.c:108-113 | in a one-column image, each output byte is the 2-way blur of texels (0, 2y) and (0, 2y+1), both inside the source |
| Downscale.DownscaledUniform | src/rasterizer/texture.c:73-117 | an image of one colour, larger than 1 x 1, downscales to exactly that colour |
| Downscale.DownscaledInRange | src/rasterizer/texture.c:73-117 | for a source larger than 1 x 1, when every source channel lies in [lo, hi], so does every downscaled channel (a 1 x 1 source gives the zeroed buffer) |
| Downscale.FillBlocks | src/rasterizer/texture.c:73-90 | the y/x/i loops of the 2 x 2 case fill the buffer with exactly the downscaled image |
| Downscale.FillRow | src/rasterizer/texture.c:91-103 | the x/i loops of the one-row case fill the buffer with exactly the downscaled image |
| Downscale.FillColumn | src/rasterizer/texture.c:104-116 | the y/i loops of the one-column case fill the buffer with exactly the downscaled image |
| Downscale.ScaleDownRgb | src/rasterizer/texture.c:64-121 | returns a new buffer of Half(w) * Half(h) * 3 bytes equal to the downscaled image; a 1 x 1 source gives the zeroed buffer |
| Downscale.ScaleDown | src/rasterizer/texture.c:123-133 | returns null exactly for formats other than packed RGB; otherwise returns a new buffer holding the downscaled image |
| Textures.LevelImage | src/rasterizer/texture.c:227-255 | the RGB image of level L is the upload at level 0 and the downscaled image of level L - 1 below that; it is large enough for its level's dimensions |
| Textures.LevelImageUniform | src/rasterizer/texture.c:225-256 | a one-colour upload has that same colour at every level of its full chain |
| Textures.LevelTexels | src/rasterizer/texture.c:254-255 | a level stores exactly LevelSize colour indices, quantised from its RGB image |
| Textures.ChainTexels | src/rasterizer/texture.c:225-256 | a chain of n levels has exactly LevelOffset(n) texels |
| Textures.ChainPrefix | src/rasterizer/texture.c:230-233 | the texels of a shorter chain are a prefix of the texels of a longer one |
| Textures.ChainSlice | src/rasterizer/texture.c:306-320 | the LevelSize texels that start at LevelOffset(L) of a chain of n levels are exactly level L's texels |
| Textures.Texture.constructor | src/rasterizer/texture.c:137-148 | a new texture is 0 x 0 with 0 levels and no storage |
| Textures.Texture.SelectMipLevel | src/rasterizer/texture.c:294-321 | clamps the level to mips - 1 and returns that level's offset, width and height; the level's texels lie inside the storage |
| Textures.Texture.Reshape | src/rasterizer/texture.c:205-218 | a shape change sets the new shape and fresh zero-filled storage of the requested size; an unchanged shape keeps the same storage |
| Textures.CountTexels | src/rasterizer/texture.c:174-203 | with mip generation, counts LevelCount levels and the texels of all of them; without it, one level of width * height texels |
| Textures.WriteLevel | src/rasterizer/texture.c:20-38 | packed RGB is quantised into the w * h texels at the offset and every other texel is unchanged; any other format gives INVALID_ARGUMENT and changes nothing |
| Textures.WriteNextLevel | src/rasterizer/texture.c:230-256 | one loop step: succeeds exactly for packed RGB; then advances the offset and dimensions to the next level and extends the written chain by that level; a failure writes nothing |
| Textures.NextLevelWritten | src/rasterizer/texture.c:233-255 | downscaling level mip - 1 gives level mip's RGB image, and writing its indices right after the chain extends the chain by one level |
| Textures.FillMipChain | src/rasterizer/texture.c:225-259 | for packed RGB the storage ends up holding the whole chain; for any other format it succeeds only with a single level and writes nothing |
| Textures.Image2D | src/rasterizer/texture.c:159-262 | null texture gives NULL_POINTER; a zero size gives INVALID_ARGUMENT and changes nothing; otherwise the texture takes the requested shape, is reallocated exactly on a shape change, and holds the full quantised chain for RGB; any other format gives INVALID_ARGUMENT and fails unless there is one level |
| Textures.RectInsideIffTexelsInside | src/rasterizer/texture.c:273 | a rectangle passes the intended bounds test exactly when it is non-empty and every texel of it lies inside the image |
| Textures.SubImage2D | src/rasterizer/texture.c:264-283 | null texture gives NULL_POINTER; it succeeds exactly when the texture has storage, the level exists and the rectangle fits inside the image less its last column and row; otherwise INVALID_ARGUMENT; it writes nothing |
| Textures.SubImage2DInBounds | src/rasterizer/texture.c:264-283 | the sub-image entry point with the intended bounds test: same errors as SubImage2D, but a rectangle is accepted exactly when it is non-empty and every texel lies inside the base level |
| Textures.WholeImageRectRefused | src/rasterizer/texture.c:273 | the rectangle that covers the whole base level lies inside the image, yet the bounds test refuses it |
| Sampling.WrapIsMod | src/rasterizer/texture.c:335-338 | adding the size to a negative coordinate in (-n, n) is the coordinate modulo n |
| Sampling.SampleWrapped | src/rasterizer/texture.c:335-341 | the texel read is at (y mod h) * w + (x mod w), which lies inside the level |

## Left out

- MipLevels.NumMips: the float expression `ceilf(log2f(maxSize))` is modelled by the exact integer `CeilLog2`. The model assumes they agree for every size from 1 to 255. This holds when `log2f` is exact on powers of two. For any other size in that range, log2 lies more than 0.005 from an integer, far beyond single-precision rounding.
- `_pr_texutre_compute_miplevel`, and the conversion of the float (u, v) coordinates to integers at the start of `_pr_texture_sample_nearest`, are left out: they are floating-point arithmetic. `Sampling.SampleWrapped` takes the integer coordinates, which lie in (-size, size).
- `_pr_texture_delete` and every free and malloc are not modelled. Memory is managed by Dafny. Freeing the previous level's image inside the level loop has no counterpart. Neither does the final `PR_FREE(prevData)` at src/rasterizer/texture.c:258. When mip generation is on but the chain has a single level (a 1 x 1 image), `prevData` there is still the caller's `data`, so the caller's buffer is freed. `prTextureImage2DFromFile` (src/pico.c:113-127) passes an image's own colour buffer and then calls `_pr_image_delete` on that image. That call would free the buffer a second time if it releases the colours, but its body is not part of this model.
- The global error state and the error callback behind `_pr_error_set` are not modelled. Each operation returns the error code it would set.
- The R3G3B2 quantiser is not part of this model. It appears as the `Quantizer` parameter. Only its output length (w * h) is assumed.
- The definitions of `PR_MIP_SIZE` and `PR_CLAMP` are not part of this model. The model treats `PR_MIP_SIZE(n, L)` as n halved L times, with 1 kept at 1 (`MipLevels.LevelDim`). It treats `PR_CLAMP` as an ordinary clamp.
- Sizes and texel counts are unbounded integers. The width of `PRtexsize` and of `size_t` is not modelled, so a product that overflows in C is not represented.
- The level count is an unbounded integer, while the C field is an 8-bit `PRubyte`. A real chain has at most 33 levels for 32-bit sizes, so no wrap is represented.
- Textures.Image2D: the declaration of `PRtexsize` is not part of this model. Its use in comparisons like `width <= 0` at src/rasterizer/texture.c:273 suggests it is signed. The model takes `nat` sizes and refuses only 0, as line 168 does. If a size can be negative, it passes the `== 0` test at line 168. With `generateMips` set, the counting loop at lines 183-197 then never halves that side, because `w > 1` is false, and never reaches its `w == 1 && h == 1` exit. So it does not terminate, while `mips` wraps around as a byte. `Textures.CountTexels` terminates (`decreases w + h`) only because its sizes are at least 1, so this case is not represented.
- Textures.Image2D: the caller must pass a texture in the shape invariant `Texture.Valid()`. That invariant is what `_pr_texture_create` and earlier uploads establish.
- Textures.Texture.SelectMipLevel: requires a texture that has storage. With 0 levels the clamp range [0, mips - 1] is empty and the texel pointer is null, so the function is not meant for an empty texture.
- Textures.SubImage2D: `_texture_subimage2d_rect` has an empty body in the source, so an accepted sub-image call writes nothing. Its `format` and `data` arguments are never read.
- Textures.WriteLevel: the unused `mip` parameter of `_texture_subimage2d` is omitted.
- `src/pico.c`, `inc/pico.h` and the platform headers are not part of this model. They are the public wrappers and type declarations around the texture functions.

## Findings

| source | as written | input that shows it | evidently intended | confidence | as-written member | corrected member |
|---|---|---|---|---|---|---|
| src/rasterizer/texture.c:273 | the bounds test refuses `x + width >= texture->width` (and the same for y), so a rectangle that ends at the right or bottom edge is refused | a texture of any size W x H with x = 0, y = 0, width = W, height = H: every texel lies inside, yet the call fails with INVALID_ARGUMENT | refuse only `x + width > texture->width` and `y + height > texture->height` | medium; not executed | Textures.WholeImageRectRefused | Textures.SubImage2DInBounds |

`Textures.SubImage2D` models the test as written, and
`Textures.WholeImageRectRefused` shows it refusing the whole-image rectangle.
`Textures.SubImage2DInBounds` uses the intended test, `Textures.RectInside`.
`Textures.RectInsideIffTexelsInside` proves that this test accepts exactly
the non-empty rectangles whose texels all lie inside the image. Like the
source, the corrected member compares the rectangle with the base level's
width and height for every `mip`. For a level above 0, a rectangle that fits
the base level can still extend past that smaller level.
