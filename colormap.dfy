/** The 256-colour palette ("colormap") embedded after BSP and WAD mip textures and in sprites:
    256 RGB24 triples, filled entry by entry with three `ReadUInt8` calls each. */
module Colormap {
  import opened Wrappers
  import opened Bytes
  import opened BinaryReader

  const ColormapColorCount: nat := 256
  /** Bytes occupied by a stored colormap: three per colour. */
  const ColormapSize: nat := 3 * ColormapColorCount

  datatype Rgb = Rgb(r: byte, g: byte, b: byte)

  /** The colormap stored at data[p..p + 768]. */
  function ColormapAt(data: seq<byte>, p: nat): (c: seq<Rgb>)
    requires p + ColormapSize <= |data|
    ensures |c| == ColormapColorCount
    ensures forall i | 0 <= i < ColormapColorCount ::
              c[i] == Rgb(data[p + 3 * i], data[p + 3 * i + 1], data[p + 3 * i + 2])
  {
    seq(ColormapColorCount, i requires 0 <= i < ColormapColorCount =>
      Rgb(data[p + 3 * i], data[p + 3 * i + 1], data[p + 3 * i + 2]))
  }

  /** The colormap at p of a suffix starting at offset is the one at offset + p of the whole. */
  lemma ColormapAtSuffix(data: seq<byte>, offset: nat, p: nat)
    requires offset + p + ColormapSize <= |data|
    ensures ColormapAt(data[offset..], p) == ColormapAt(data, offset + p)
  {
  }

  /** Resizes a colormap to 256 entries and fills it from the reader. */
  method ReadColormap(reader: Reader) returns (r: Option<seq<Rgb>>)
    requires reader.Valid()
    modifies reader
    ensures reader.Valid()
    ensures r.Some? <==> CanRead(reader.data, old(reader.pos), ColormapSize)
    ensures r.Some? ==> r.value == ColormapAt(reader.data, old(reader.pos))
    ensures r.Some? ==> reader.pos == old(reader.pos) + ColormapSize
  {
    ghost var start := reader.pos;
    var colormap := new Rgb[ColormapColorCount](_ => Rgb(0, 0, 0));
    for i := 0 to ColormapColorCount
      invariant reader.Valid() && reader.pos == start + 3 * i
      invariant i > 0 ==> start + 3 * i <= |reader.data|
      invariant forall j | 0 <= j < i ::
                  colormap[j] == Rgb(reader.data[start + 3 * j], reader.data[start + 3 * j + 1],
                                     reader.data[start + 3 * j + 2])
    {
      var red := reader.ReadUInt8();
      if red.None? { return None; }
      var green := reader.ReadUInt8();
      if green.None? { return None; }
      var blue := reader.ReadUInt8();
      if blue.None? { return None; }
      colormap[i] := Rgb(red.value, green.value, blue.value);
    }
    return Some(colormap[..]);
  }
}
