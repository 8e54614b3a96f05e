/** Bytes and their little-endian numeric interpretation, as done by
    `BinaryReader::ReadValue<T>` (a `memcpy` into a `T` on a little-endian host). */
module Bytes {

  type byte = x: int | 0 <= x < 256

  /** 256 to the power n: the number of values an n-byte unsigned integer can hold. */
  function Pow256(n: nat): (r: nat)
    ensures r >= 1
  {
    if n == 0 then 1 else 256 * Pow256(n - 1)
  }

  /** The unsigned value of bytes stored least significant first. */
  function LeUnsigned(s: seq<byte>): (r: nat)
    ensures r < Pow256(|s|)
  {
    if s == [] then 0 else s[0] + 256 * LeUnsigned(s[1..])
  }

  /** The n bytes, least significant first, that store x. */
  function LeBytes(x: nat, n: nat): (r: seq<byte>)
    requires x < Pow256(n)
    ensures |r| == n
  {
    if n == 0 then [] else [x % 256] + LeBytes(x / 256, n - 1)
  }

  lemma {:induction false} LeUnsignedOfLeBytes(x: nat, n: nat)
    requires x < Pow256(n)
    ensures LeUnsigned(LeBytes(x, n)) == x
  {
    if n > 0 {
      LeUnsignedOfLeBytes(x / 256, n - 1);
      assert LeBytes(x, n)[1..] == LeBytes(x / 256, n - 1);
    }
  }

  lemma {:induction false} LeBytesOfLeUnsigned(s: seq<byte>)
    ensures LeBytes(LeUnsigned(s), |s|) == s
  {
    if s != [] {
      LeBytesOfLeUnsigned(s[1..]);
      assert LeUnsigned(s) % 256 == s[0];
      assert LeUnsigned(s) / 256 == LeUnsigned(s[1..]);
    }
  }

  /** Two's-complement reinterpretation of an n-byte unsigned value. */
  function Signed(u: nat, n: nat): (r: int)
    requires 0 < n && u < Pow256(n)
    ensures -(Pow256(n) / 2) <= r < Pow256(n) / 2
    ensures r >= 0 <==> u < Pow256(n) / 2
    ensures (if r < 0 then r + Pow256(n) else r) == u
  {
    if u < Pow256(n) / 2 then u else u - Pow256(n)
  }

  /** The unsigned n-byte integer stored at data[p..p+n]. */
  function UIntAt(data: seq<byte>, p: nat, n: nat): nat
    requires p + n <= |data|
  {
    LeUnsigned(data[p..p + n])
  }

  /** The signed n-byte integer stored at data[p..p+n]. */
  function IntAt(data: seq<byte>, p: nat, n: nat): int
    requires 0 < n && p + n <= |data|
  {
    Signed(UIntAt(data, p, n), n)
  }

  /** An IEEE-754 single-precision value, kept as its raw 32-bit pattern. */
  datatype Float32 = Float32(bits: nat)

  function FloatAt(data: seq<byte>, p: nat): Float32
    requires p + 4 <= |data|
  {
    Float32(UIntAt(data, p, 4))
  }

  const SignBit: nat := 0x8000_0000
  const ExponentMask: nat := 0x7F80_0000

  predicate IsNegativeSign(f: Float32) { (f.bits / SignBit) % 2 == 1 }

  /** The pattern with its sign bit cleared. */
  function Magnitude(f: Float32): nat { f.bits % SignBit }

  predicate IsNaN(f: Float32) { Magnitude(f) > ExponentMask }

  /** The C++ comparison `f < 0`: false for NaN and for both zeros. */
  predicate LessThanZero(f: Float32) {
    IsNegativeSign(f) && !IsNaN(f) && Magnitude(f) != 0
  }

  /** The C++ comparison `f <= 0`: false for NaN, true for both zeros. */
  predicate AtMostZero(f: Float32) {
    !IsNaN(f) && (IsNegativeSign(f) || Magnitude(f) == 0)
  }

  lemma FloatComparisons(f: Float32)
    ensures LessThanZero(f) ==> AtMostZero(f)
    ensures AtMostZero(f) ==> LessThanZero(f) || Magnitude(f) == 0
    ensures IsNaN(f) ==> !LessThanZero(f) && !AtMostZero(f)
  {
  }

  /** A byte as the `char` a `std::string` holds. */
  function ByteChar(b: byte): (c: char)
    ensures c as int == b
  {
    b as char
  }

  function Chars(s: seq<byte>): (r: string)
    ensures |r| == |s|
    ensures forall i | 0 <= i < |s| :: r[i] as int == s[i]
  {
    seq(|s|, i requires 0 <= i < |s| => ByteChar(s[i]))
  }
}
