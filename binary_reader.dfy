/** The bounds-checked cursor every decoder reads through (src/utils/BinaryReader.hpp).
    The bytes are a `const` field, so no operation can change them; only the position moves.
    A thrown `std::out_of_range` is a `None` result that leaves the position where it was. */
module BinaryReader {
  import opened Wrappers
  import opened Bytes

  /** Whether `ReadBytes(n)` succeeds at position p. The source also refuses p == |data|,
      so even a read of zero bytes fails at the end of the buffer. */
  predicate CanRead(data: seq<byte>, p: nat, n: nat) {
    p < |data| && p + n <= |data|
  }

  /** What `ReadBytes(n)` yields at position p. */
  function ReadAt(data: seq<byte>, p: nat, n: nat): (r: Option<seq<byte>>)
    ensures r.Some? <==> CanRead(data, p, n)
    ensures r.Some? ==> |r.value| == n && forall i | 0 <= i < n :: r.value[i] == data[p + i]
  {
    if CanRead(data, p, n) then Some(data[p..p + n]) else None
  }

  /** Two successive non-empty reads succeed exactly when one read of their total length does,
      and yield its two halves. */
  lemma ReadAtSplit(data: seq<byte>, p: nat, a: nat, b: nat)
    requires a > 0 && b > 0
    ensures ReadAt(data, p, a + b).Some? <==> ReadAt(data, p, a).Some? && ReadAt(data, p + a, b).Some?
    ensures ReadAt(data, p, a + b).Some? ==>
              ReadAt(data, p, a + b).value == ReadAt(data, p, a).value + ReadAt(data, p + a, b).value
  {
    if CanRead(data, p, a + b) {
      assert data[p..p + a + b] == data[p..p + a] + data[p + a..p + a + b];
    }
  }

  /** Reading at p from the reader `subspan(offset)` returns is reading at offset + p from the
      whole buffer. */
  lemma SuffixRead(data: seq<byte>, offset: nat, p: nat, n: nat)
    requires offset <= |data|
    ensures CanRead(data[offset..], p, n) <==> CanRead(data, offset + p, n)
    ensures CanRead(data, offset + p, n) ==> data[offset..][p..p + n] == data[offset + p..offset + p + n]
  {
  }

  /** The bytes before the first NUL (all of s if it holds none): what `strlen` keeps. */
  function UntilNul(s: seq<byte>): (r: seq<byte>)
    ensures |r| <= |s| && r == s[..|r|]
    ensures forall i | 0 <= i < |r| :: r[i] != 0
    ensures |r| < |s| ==> s[|r|] == 0
  {
    if s == [] || s[0] == 0 then [] else [s[0]] + UntilNul(s[1..])
  }

  /** A prefix free of NULs that ends at a NUL or at the end of s is the one `UntilNul` keeps. */
  lemma {:induction false} UntilNulIsPrefix(s: seq<byte>, k: nat)
    requires k <= |s|
    requires forall i | 0 <= i < k :: s[i] != 0
    requires k < |s| ==> s[k] == 0
    ensures UntilNul(s) == s[..k]
  {
    if k > 0 {
      UntilNulIsPrefix(s[1..], k - 1);
      assert s[..k] == [s[0]] + s[1..][..k - 1];
    }
  }

  class Reader {
    const data: seq<byte>
    var pos: nat

    /** The position never passes the end of the buffer. */
    ghost predicate Valid()
      reads this
    {
      pos <= |data|
    }

    constructor (bytes: seq<byte>)
      ensures data == bytes && pos == 0 && Valid()
    {
      data := bytes;
      pos := 0;
    }

    function GetPosition(): (p: nat)
      reads this
      requires Valid()
      ensures p <= |data| && p == pos
    {
      pos
    }

    method SetPosition(offset: nat) returns (ok: bool)
      requires Valid()
      modifies this
      ensures Valid()
      ensures ok <==> offset <= |data|
      ensures pos == if ok then offset else old(pos)
    {
      if offset > |data| {
        return false;
      }
      pos := offset;
      return true;
    }

    /** A fresh reader over data[offset..offset+count] (or to the end), positioned at 0.
        `std::span::subspan` has no check of its own: its bounds are a precondition. */
    method Subspan(offset: nat, count: Option<nat>) returns (sub: Reader)
      requires offset <= |data|
      requires count.Some? ==> offset + count.value <= |data|
      ensures fresh(sub) && sub.Valid() && sub.pos == 0
      ensures sub.data == if count.Some? then data[offset..offset + count.value] else data[offset..]
    {
      var bytes := if count.Some? then data[offset..offset + count.value] else data[offset..];
      sub := new Reader(bytes);
    }

    method ReadBytes(n: nat) returns (r: Option<seq<byte>>)
      requires Valid()
      modifies this
      ensures Valid()
      ensures r == ReadAt(data, old(pos), n)
      ensures pos == if r.Some? then old(pos) + n else old(pos)
    {
      if pos >= |data| || pos + n > |data| {
        return None;
      }
      r := Some(data[pos..pos + n]);
      pos := pos + n;
    }

    /** `ReadValue<T>` for an unsigned T of n bytes. */
    method ReadUnsigned(n: nat) returns (r: Option<nat>)
      requires Valid()
      modifies this
      ensures Valid()
      ensures r.Some? <==> CanRead(data, old(pos), n)
      ensures r.Some? ==> r.value == UIntAt(data, old(pos), n) && r.value < Pow256(n)
      ensures pos == if r.Some? then old(pos) + n else old(pos)
    {
      var bytes :- ReadBytes(n);
      return Some(LeUnsigned(bytes));
    }

    /** `ReadValue<T>` for a signed T of n bytes. */
    method ReadSigned(n: nat) returns (r: Option<int>)
      requires Valid() && n > 0
      modifies this
      ensures Valid()
      ensures r.Some? <==> CanRead(data, old(pos), n)
      ensures r.Some? ==> r.value == IntAt(data, old(pos), n)
      ensures pos == if r.Some? then old(pos) + n else old(pos)
    {
      var u :- ReadUnsigned(n);
      return Some(Signed(u, n));
    }

    method ReadUInt8() returns (r: Option<byte>)
      requires Valid()
      modifies this
      ensures Valid()
      ensures r.Some? <==> CanRead(data, old(pos), 1)
      ensures r.Some? ==> r.value == data[old(pos)]
      ensures pos == if r.Some? then old(pos) + 1 else old(pos)
    {
      var u :- ReadUnsigned(1);
      assert data[old(pos)..old(pos) + 1][1..] == [];
      return Some(u);
    }

    method ReadUInt16() returns (r: Option<nat>)
      requires Valid()
      modifies this
      ensures Valid()
      ensures r.Some? <==> CanRead(data, old(pos), 2)
      ensures r.Some? ==> r.value == UIntAt(data, old(pos), 2) && r.value < 0x1_0000
      ensures pos == if r.Some? then old(pos) + 2 else old(pos)
    {
      r := ReadUnsigned(2);
    }

    method ReadUInt32() returns (r: Option<nat>)
      requires Valid()
      modifies this
      ensures Valid()
      ensures r.Some? <==> CanRead(data, old(pos), 4)
      ensures r.Some? ==> r.value == UIntAt(data, old(pos), 4) && r.value < 0x1_0000_0000
      ensures pos == if r.Some? then old(pos) + 4 else old(pos)
    {
      r := ReadUnsigned(4);
    }

    method ReadInt8() returns (r: Option<int>)
      requires Valid()
      modifies this
      ensures Valid()
      ensures r.Some? <==> CanRead(data, old(pos), 1)
      ensures r.Some? ==> r.value == IntAt(data, old(pos), 1) && -0x80 <= r.value < 0x80
      ensures pos == if r.Some? then old(pos) + 1 else old(pos)
    {
      r := ReadSigned(1);
    }

    method ReadInt16() returns (r: Option<int>)
      requires Valid()
      modifies this
      ensures Valid()
      ensures r.Some? <==> CanRead(data, old(pos), 2)
      ensures r.Some? ==> r.value == IntAt(data, old(pos), 2) && -0x8000 <= r.value < 0x8000
      ensures pos == if r.Some? then old(pos) + 2 else old(pos)
    {
      r := ReadSigned(2);
    }

    method ReadInt32() returns (r: Option<int>)
      requires Valid()
      modifies this
      ensures Valid()
      ensures r.Some? <==> CanRead(data, old(pos), 4)
      ensures r.Some? ==> r.value == IntAt(data, old(pos), 4) && -0x8000_0000 <= r.value < 0x8000_0000
      ensures pos == if r.Some? then old(pos) + 4 else old(pos)
    {
      r := ReadSigned(4);
    }

    method ReadFloat() returns (r: Option<Float32>)
      requires Valid()
      modifies this
      ensures Valid()
      ensures r.Some? <==> CanRead(data, old(pos), 4)
      ensures r.Some? ==> r.value == FloatAt(data, old(pos))
      ensures pos == if r.Some? then old(pos) + 4 else old(pos)
    {
      var u :- ReadUnsigned(4);
      return Some(Float32(u));
    }

    /** Reads exactly n bytes and keeps those before the first NUL. */
    method ReadFixedUTF8String(n: nat) returns (r: Option<string>)
      requires Valid()
      modifies this
      ensures Valid()
      ensures r.Some? <==> CanRead(data, old(pos), n)
      ensures r.Some? ==> r.value == Chars(UntilNul(data[old(pos)..old(pos) + n]))
      ensures r.Some? ==> |r.value| <= n && forall i | 0 <= i < |r.value| :: r.value[i] != 0 as char
      ensures pos == if r.Some? then old(pos) + n else old(pos)
    {
      var bytes :- ReadBytes(n);
      var length := 0;
      while length < |bytes| && bytes[length] != 0
        invariant 0 <= length <= |bytes|
        invariant forall i | 0 <= i < length :: bytes[i] != 0
      {
        length := length + 1;
      }
      UntilNulIsPrefix(bytes, length);
      return Some(Chars(bytes[..length]));
    }
  }
}
