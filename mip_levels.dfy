/**
 * The shape of a mip chain: how a dimension shrinks from one level to the
 * next, how many levels a chain has, and where each level starts in the
 * single flat texel array that holds them all, base level first.
 */
module MipLevels {
  import opened Pixels

  /** A texture dimension that holds an image: at least one texel. */
  type pos = n: int | 1 <= n witness 1

  /** 2 to the power k. */
  function Pow2(k: nat): (r: pos)
  {
    if k == 0 then 1 else 2 * Pow2(k - 1)
  }

  lemma {:induction false} Pow2Monotone(j: nat, k: nat)
    ensures j < k ==> Pow2(j) < Pow2(k)
  {
    if j + 1 < k {
      Pow2Monotone(j, k - 1);
    }
  }

  /**
   * One halving step of a dimension: the floor of half, except that a
   * dimension of 1 stays 1.
   */
  function Half(n: pos): (r: pos)
    ensures n == 1 ==> r == 1
    ensures n > 1 ==> r < n && 2 * r <= n < 2 * r + 2
  {
    if n > 1 then n / 2 else 1
  }

  /** The dimension at mip level L of a base dimension n: n halved L times. */
  function LevelDim(n: pos, L: nat): (r: pos)
    ensures r <= n
    ensures L > 0 && n > 1 ==> r < n
  {
    if L == 0 then n else Half(LevelDim(n, L - 1))
  }

  /**
   * The halving sequence read as a shift: the dimension at level L is
   * the base dimension shifted right by L bits, and never less than 1.
   */
  lemma {:induction false} LevelDimIsShift(n: pos, L: nat)
    ensures LevelDim(n, L) == if n / Pow2(L) >= 1 then n / Pow2(L) else 1
  {
    if L > 0 {
      LevelDimIsShift(n, L - 1);
      DivDiv(n, Pow2(L - 1));
    }
  }

  lemma DivDiv(n: nat, a: pos)
    ensures n / a / 2 == n / (2 * a)
  {
    var q, r := n / a, n % a;
    var q2, r2 := q / 2, q % 2;
    assert n == q * a + r;
    assert q == 2 * q2 + r2;
    assert n == q2 * (2 * a) + (r2 * a + r) by {
      calc {
        n;
        q * a + r;
        (2 * q2 + r2) * a + r;
        q2 * (2 * a) + (r2 * a + r);
      }
    }
    assert 0 <= r2 * a + r < 2 * a;
    DivUnique(n, 2 * a, q2, r2 * a + r);
  }

  lemma DivUnique(n: nat, d: pos, q: int, r: int)
    requires n == q * d + r && 0 <= r < d
    ensures n / d == q
  {
    var q0, r0 := n / d, n % d;
    assert n == q0 * d + r0;
    assert (q0 - q) * d == r - r0;
    MulSign(q0 - q, d);
  }

  /** A non-zero multiple of d is at least d away from zero. */
  lemma MulSign(k: int, d: pos)
    ensures k >= 1 ==> k * d >= d
    ensures k <= -1 ==> k * d + d <= 0
  {
  }

  /** Texel (x, y) of a w x h image lies inside its w * h row-major texels. */
  lemma TexelInside(w: pos, h: pos, x: nat, y: nat)
    requires x < w && y < h
    ensures y * w + x < w * h
  {
    MulMonotone(y + 1, h, w);
    MulSucc(y, w);
  }

  lemma MulSucc(y: nat, w: nat)
    ensures (y + 1) * w == y * w + w
  {
  }

  lemma MulMonotone(a: int, b: int, c: nat)
    ensures a <= b ==> a * c <= b * c
  {
  }

  /**
   * The number of mip levels of a full chain: the length of the halving
   * sequence that starts at (w, h) and ends with the first level that is
   * 1 x 1.
   */
  function LevelCount(w: pos, h: pos): pos
    decreases w + h
  {
    if w == 1 && h == 1 then 1 else 1 + LevelCount(Half(w), Half(h))
  }

  lemma {:induction false} LevelDimShift(n: pos, L: nat)
    ensures LevelDim(Half(n), L) == LevelDim(n, L + 1)
  {
    if L > 0 {
      LevelDimShift(n, L - 1);
    }
  }

  /**
   * LevelCount is exactly the length of the halving sequence: its last
   * level is 1 x 1 and no earlier level is.
   */
  lemma {:induction false} LevelCountEndsAtUnit(w: pos, h: pos, L: nat)
    requires L < LevelCount(w, h)
    ensures LevelDim(w, L) == 1 && LevelDim(h, L) == 1 <==> L == LevelCount(w, h) - 1
    decreases w + h
  {
    if !(w == 1 && h == 1) && L > 0 {
      LevelCountEndsAtUnit(Half(w), Half(h), L - 1);
      LevelDimShift(w, L - 1);
      LevelDimShift(h, L - 1);
    }
  }

  /** The floor of the base-2 logarithm. */
  function FloorLog2(n: pos): (r: nat)
    ensures Pow2(r) <= n < Pow2(r + 1)
  {
    if n == 1 then 0 else 1 + FloorLog2(n / 2)
  }

  /** The ceiling of the base-2 logarithm. */
  function CeilLog2(n: pos): (r: nat)
    ensures n <= Pow2(r)
    ensures r > 0 ==> Pow2(r - 1) < n
  {
    if n == 1 then 0 else 1 + CeilLog2((n + 1) / 2)
  }

  /**
   * Closed form of the level count: one level more than the floor of the
   * base-2 logarithm of the larger dimension.
   */
  lemma {:induction false} LevelCountIsFloorLog2(w: pos, h: pos)
    ensures LevelCount(w, h) == FloorLog2(Max(w, h)) + 1
    decreases w + h
  {
    if !(w == 1 && h == 1) {
      LevelCountIsFloorLog2(Half(w), Half(h));
      assert Max(Half(w), Half(h)) == Max(w, h) / 2;
    }
  }

  /**
   * The level count prescribed by _pr_texture_num_mips for a largest
   * dimension maxSize: the ceiling of its base-2 logarithm plus one, and
   * 0 for an empty texture.
   */
  function NumMips(maxSize: int): (r: nat)
    requires 0 <= maxSize < 256
    ensures maxSize > 0 ==> r >= 1 && maxSize <= Pow2(r - 1)
    ensures r >= 2 ==> Pow2(r - 2) < maxSize
    ensures maxSize == 0 <==> r == 0
  {
    if maxSize > 0 then CeilLog2(maxSize) + 1 else 0
  }

  /** n is a power of two. */
  predicate IsPow2(n: pos)
  {
    n == 1 || (n % 2 == 0 && IsPow2(n / 2))
  }

  lemma {:induction false} Pow2IsPow2(k: nat)
    ensures IsPow2(Pow2(k))
  {
    if k > 0 {
      Pow2IsPow2(k - 1);
      assert Pow2(k) / 2 == Pow2(k - 1);
    }
  }

  lemma {:induction false} IsPow2IsPow2OfFloorLog2(n: pos)
    requires IsPow2(n)
    ensures Pow2(FloorLog2(n)) == n
  {
    if n > 1 {
      IsPow2IsPow2OfFloorLog2(n / 2);
    }
  }

  /**
   * The ceiling and the floor of the logarithm are equal on powers of two
   * and one apart on every other size.
   */
  lemma CeilLog2Bracket(n: pos)
    ensures CeilLog2(n) == FloorLog2(n) || CeilLog2(n) == FloorLog2(n) + 1
    ensures CeilLog2(n) == FloorLog2(n) <==> IsPow2(n)
  {
    CeilLog2AtLeastFloor(n);
    CeilLog2AtMostFloorPlusOne(n);
    if CeilLog2(n) == FloorLog2(n) {
      Pow2IsPow2(FloorLog2(n));
    }
    if IsPow2(n) {
      IsPow2IsPow2OfFloorLog2(n);
    }
  }

  lemma CeilLog2AtLeastFloor(n: pos)
    ensures FloorLog2(n) <= CeilLog2(n)
  {
    Pow2Monotone(CeilLog2(n), FloorLog2(n));
  }

  lemma CeilLog2AtMostFloorPlusOne(n: pos)
    ensures CeilLog2(n) <= FloorLog2(n) + 1
  {
    var f, c := FloorLog2(n), CeilLog2(n);
    if c > 0 {
      Pow2Monotone(f + 1, c - 1);
    }
  }

  /**
   * _pr_texture_num_mips, given the larger side m of a w x h image, agrees
   * with the length of the halving chain that _pr_texture_image2d allocates
   * exactly when m is a power of two; for any other m it counts one level
   * more.
   */
  lemma NumMipsMatchesChainIffPow2(w: pos, h: pos)
    requires w < 256 && h < 256
    ensures var m := Max(w, h);
      && (NumMips(m) == LevelCount(w, h) <==> IsPow2(m))
      && (!IsPow2(m) ==> NumMips(m) == LevelCount(w, h) + 1)
  {
    LevelCountIsFloorLog2(w, h);
    CeilLog2Bracket(Max(w, h));
  }

  /**
   * Where level L starts in the flat texel array: the number of texels of
   * all larger levels before it.
   */
  function LevelOffset(w: pos, h: pos, L: nat): (r: nat)
    ensures r >= L
    ensures L > 0 ==> r >= w * h
  {
    if L == 0 then 0 else LevelOffset(w, h, L - 1) + LevelSize(w, h, L - 1)
  }

  /** The number of texels of level L. */
  function LevelSize(w: pos, h: pos, L: nat): (r: pos)
    ensures r <= w * h
  {
    MulBoth(LevelDim(w, L), w, LevelDim(h, L), h);
    LevelDim(w, L) * LevelDim(h, L)
  }

  lemma MulBoth(a: pos, b: pos, c: pos, d: pos)
    requires a <= b && c <= d
    ensures a * c <= b * d
  {
    MulMonotone(a, b, c);
    assert b * c <= b * d;
  }

  /**
   * Every level of a chain of `mips` levels lies inside the chain's
   * storage of LevelOffset(w, h, mips) texels, after all larger levels and
   * before all smaller ones.
   */
  lemma {:induction false} LevelInsideChain(w: pos, h: pos, L: nat, mips: nat)
    requires L < mips
    ensures LevelOffset(w, h, L) + LevelSize(w, h, L) <= LevelOffset(w, h, mips)
    ensures LevelOffset(w, h, L) + LevelSize(w, h, L) == LevelOffset(w, h, L + 1)
  {
    if mips > L + 1 {
      LevelInsideChain(w, h, L, mips - 1);
    }
  }

  /** Worked sizes: 4 x 4 gives 16 + 4 + 1 texels, 5 x 5 gives 25 + 4 + 1, 1 x 1 a single level. */
  lemma ChainExamples()
    ensures LevelCount(4, 4) == 3 && LevelOffset(4, 4, 3) == 21
    ensures LevelCount(5, 5) == 3 && LevelOffset(5, 5, 3) == 30
    ensures LevelCount(1, 1) == 1 && LevelOffset(1, 1, 1) == 1
    ensures LevelCount(256, 256) == 9
    ensures NumMips(5) == 4 && NumMips(1) == 1 && NumMips(2) == 2
  {
    LevelCountIsFloorLog2(256, 256);
    assert FloorLog2(256) == 8;
  }
}
