/** The model face-range check as the source computes it, in 32-bit `int` arithmetic, set beside
    the check the rest of the model uses (`Bsp.FaceRangeOk`). */
module BspFindings {
  import Bsp

  const Int32Min: int := -0x8000_0000
  const Int32Max: int := 0x7FFF_FFFF

  predicate IsInt32(x: int) { Int32Min <= x <= Int32Max }

  /** Two's-complement wrap-around of a sum to 32 bits, which is what the signed overflow in
      `firstFace + faceCount` produces on the usual targets (the language leaves it undefined). */
  function Wrap32(x: int): (w: int)
    ensures IsInt32(w)
    ensures (x - w) % 0x1_0000_0000 == 0
    ensures IsInt32(x) ==> w == x
  {
    (x - Int32Min) % 0x1_0000_0000 + Int32Min
  }

  /** The checks as written: the sum is an `int` and may wrap before the comparison. */
  predicate FaceRangeOkAsWritten(firstFace: int, count: int, faceCount: nat)
    requires IsInt32(firstFace) && IsInt32(count)
  {
    0 <= firstFace < faceCount && count >= 0 && Wrap32(firstFace + count) <= faceCount
  }

  /** A model with firstFace 1 and faceCount 0x7FFFFFFF passes the written check against a
      two-face table although its range runs far past the end of the table. */
  lemma FaceRangeAsWrittenAcceptsOverrun()
    ensures FaceRangeOkAsWritten(1, Int32Max, 2)
    ensures 1 + Int32Max > 2 && !Bsp.FaceRangeOk(1, Int32Max, 2)
  {
    assert Wrap32(1 + Int32Max) == Int32Min;
  }

  /** The two checks agree whenever the sum does not overflow, and the intended one always
      keeps the range inside the face table. A face table comes from a lump whose size is an
      `int`, so it holds fewer than 2^31 faces. */
  lemma FaceRangeOkIsInBounds(firstFace: int, count: int, faceCount: nat)
    requires IsInt32(firstFace) && IsInt32(count) && faceCount <= Int32Max
    ensures Bsp.FaceRangeOk(firstFace, count, faceCount)
            ==> 0 <= firstFace && 0 <= count && firstFace + count <= faceCount
    ensures IsInt32(firstFace + count)
            ==> (Bsp.FaceRangeOk(firstFace, count, faceCount) <==> FaceRangeOkAsWritten(firstFace, count, faceCount))
    ensures Bsp.FaceRangeOk(firstFace, count, faceCount) ==> FaceRangeOkAsWritten(firstFace, count, faceCount)
  {
    if Bsp.FaceRangeOk(firstFace, count, faceCount) {
      assert IsInt32(firstFace + count);
    }
  }
}
