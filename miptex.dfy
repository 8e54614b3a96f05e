/** Mip-mapped textures as both the BSP texture lump and WAD3 files store them: four levels,
    each half the width and height of the one before (rounding down). */
module Miptex {
  const MipLevelCount: nat := 4

  /** 2^level, the divisor of both dimensions at a mip level. */
  function MipDivisor(level: nat): (d: nat)
    ensures d >= 1
  {
    if level == 0 then 1 else 2 * MipDivisor(level - 1)
  }

  /** Integer division of a size by a positive divisor. */
  function Quotient(size: nat, divisor: nat): nat
    requires divisor >= 1
  {
    size / divisor
  }

  /** A dimension at a mip level: size / 2^level. */
  function MipDimension(size: nat, level: nat): nat {
    Quotient(size, MipDivisor(level))
  }

  /** The bytes the BSP decoder skips from the first mip level to the colour count:
      width * height / 64 * 85 (all four levels when both sizes are multiples of 8). */
  function MipDataSize(width: nat, height: nat): nat {
    Quotient(width * height, 64) * 85
  }

  /** Pixels at a mip level: (width / 2^level) * (height / 2^level). */
  function MipPixels(width: nat, height: nat, level: nat): nat {
    MipDimension(width, level) * MipDimension(height, level)
  }

  /** Pixels in the first `levels` mip levels. */
  function TotalMipPixels(width: nat, height: nat, levels: nat): nat {
    if levels == 0 then 0 else TotalMipPixels(width, height, levels - 1) + MipPixels(width, height, levels - 1)
  }

  /** When both sizes are multiples of 8, the BSP decoder's shortcut width * height / 64 * 85
      is exactly the pixel count of the four levels, which is what the WAD decoder sums. */
  lemma {:induction false} MipDataSizeIsTotalMipPixels(width: nat, height: nat)
    requires width % 8 == 0 && height % 8 == 0
    ensures MipDataSize(width, height) == TotalMipPixels(width, height, MipLevelCount)
  {
    var a, b := width / 8, height / 8;
    assert MipDivisor(1) == 2 && MipDivisor(2) == 4 && MipDivisor(3) == 8;
    assert MipDimension(width, 0) == 8 * a && MipDimension(height, 0) == 8 * b;
    assert MipDimension(width, 1) == 4 * a && MipDimension(height, 1) == 4 * b;
    assert MipDimension(width, 2) == 2 * a && MipDimension(height, 2) == 2 * b;
    assert MipDimension(width, 3) == a && MipDimension(height, 3) == b;
    assert MipPixels(width, height, 0) == 64 * (a * b);
    assert MipPixels(width, height, 1) == 16 * (a * b);
    assert MipPixels(width, height, 2) == 4 * (a * b);
    assert MipPixels(width, height, 3) == a * b;
    assert width * height == 64 * (a * b);
    assert MipDataSize(width, height) == 85 * (a * b);
    assert TotalMipPixels(width, height, 1) == 64 * (a * b);
    assert TotalMipPixels(width, height, 2) == 80 * (a * b);
    assert TotalMipPixels(width, height, 3) == 84 * (a * b);
  }

  /** Without that condition the two disagree: a 4 x 4 texture has 16 + 4 + 1 + 0 pixels,
      while the shortcut gives 0. */
  lemma MipDataSizeDiffersForSmallSizes()
    ensures MipDataSize(4, 4) == 0 && TotalMipPixels(4, 4, MipLevelCount) == 21
  {
    assert MipDivisor(1) == 2 && MipDivisor(2) == 4 && MipDivisor(3) == 8;
  }
}
