/** The WAD decoder as the source runs it: one reader over the file for the header, and a
    fresh reader over a suffix of the buffer for each directory entry, miptex, pixel block and
    colormap. Each method is proved to yield what the matching function of module Wad describes. */
module WadLoader {
  import opened Wrappers
  import opened Bytes
  import opened BinaryReader
  import opened Colormap
  import opened Miptex
  import opened Wad

  /** Pixels and colormap, read through the reader over data[pixelsPos..]. */
  method ReadMiptexPixels(dataEntry: Reader, ghost data: seq<byte>, ghost pixelsPos: nat, width: nat, height: nat,
                          name: string) returns (r: Option<WadEntry>)
    requires pixelsPos <= |data| && dataEntry.data == data[pixelsPos..]
    requires dataEntry.Valid() && dataEntry.pos == 0
    modifies dataEntry
    ensures r == MiptexPixelsAt(data, pixelsPos, width, height, name)
  {
    var pixelCount := width * height;
    SuffixRead(data, pixelsPos, 0, pixelCount);
    var pixels :- dataEntry.ReadBytes(pixelCount);
    assert pixels == data[pixelsPos..pixelsPos + pixelCount];

    var totalPixelCount := 0;
    for i := 0 to MipLevelCount
      invariant totalPixelCount == TotalMipPixels(width, height, i)
    {
      totalPixelCount := totalPixelCount + MipPixels(width, height, i);
    }

    // Past the end this `subspan` is undefined behaviour; the model fails.
    if totalPixelCount + 2 > |dataEntry.data| { return None; }
    var colorMapEntry := dataEntry.Subspan(totalPixelCount + 2, None);
    SuffixRead(data, pixelsPos + totalPixelCount + 2, 0, ColormapSize);
    assert colorMapEntry.data == data[pixelsPos + totalPixelCount + 2..];
    var colormap :- ReadColormap(colorMapEntry);
    ColormapAtSuffix(data, pixelsPos + totalPixelCount + 2, 0);
    return Some(WadEntry(name, width, height, pixels, colormap));
  }

  /** The name is skipped; the width, the height and the offset of the first mip level follow it.
      Only that first offset is used: the levels are assumed to follow one another. */
  method ReadMiptexFields(miptexEntry: Reader) returns (r: Option<(nat, nat, nat)>)
    requires miptexEntry.Valid()
    modifies miptexEntry
    ensures r.Some? <==> 28 <= |miptexEntry.data|
    ensures r.Some? ==> r.value == (UIntAt(miptexEntry.data, 16, 4), UIntAt(miptexEntry.data, 20, 4),
                                    UIntAt(miptexEntry.data, 24, 4))
  {
    var ok := miptexEntry.SetPosition(16);
    if !ok { return None; }
    var width :- miptexEntry.ReadUInt32();
    var height :- miptexEntry.ReadUInt32();
    var dataOffset :- miptexEntry.ReadUInt32();
    return Some((width, height, dataOffset));
  }

  /** The miptex a directory entry points to. */
  method TryReadMiptex(reader: Reader, filePos: int, name: string) returns (r: Option<WadEntry>)
    ensures r == MiptexEntryAt(reader.data, filePos, name)
  {
    // A negative or too large offset is undefined behaviour in `subspan`; the model fails.
    if filePos < 0 || filePos > |reader.data| { return None; }
    var miptexEntry := reader.Subspan(filePos, None);
    var fields :- ReadMiptexFields(miptexEntry);
    var (width, height, dataOffset) := fields;
    SuffixRead(reader.data, filePos, 16, 4);
    SuffixRead(reader.data, filePos, 20, 4);
    SuffixRead(reader.data, filePos, 24, 4);
    assert width == MiptexWidth(reader.data, filePos) && height == MiptexHeight(reader.data, filePos);
    assert dataOffset == MiptexDataOffset(reader.data, filePos);

    if dataOffset > |miptexEntry.data| { return None; }
    var dataEntry := miptexEntry.Subspan(dataOffset, None);
    assert dataEntry.data == reader.data[filePos + dataOffset..];
    r := ReadMiptexPixels(dataEntry, reader.data, filePos + dataOffset, width, height, name);
  }

  /** The fields of a 32-byte directory entry the decoder uses: file position, type and name
      (disk size, size, compression and padding are read and dropped). */
  method ReadDirectoryEntry(tableEntry: Reader) returns (r: Option<(int, byte, string)>)
    requires tableEntry.Valid() && tableEntry.pos == 0
    modifies tableEntry
    ensures r.Some? <==> CanRead(tableEntry.data, 0, WadEntrySize)
    ensures r.Some? ==> r.value == (IntAt(tableEntry.data, 0, 4), tableEntry.data[12],
                                    Chars(UntilNul(tableEntry.data[16..32])))
  {
    var filePos :- tableEntry.ReadInt32();
    var diskSize :- tableEntry.ReadInt32();
    var size :- tableEntry.ReadInt32();
    var lumpType :- tableEntry.ReadUInt8();
    var compression :- tableEntry.ReadUInt8();
    var padding :- tableEntry.ReadUInt16();
    var name :- tableEntry.ReadFixedUTF8String(16);
    return Some((filePos, lumpType, name));
  }

  /** One directory entry: skipped unless it is a miptex, which is then decoded. */
  method TryReadWadEntry(reader: Reader, tableOffset: nat) returns (r: Option<EntryOutcome>)
    ensures r == EntryAt(reader.data, tableOffset)
  {
    // `subspan` past the end of the buffer is undefined behaviour in the source; the model fails.
    if tableOffset > |reader.data| { return None; }
    var tableEntry := reader.Subspan(tableOffset, None);
    SuffixRead(reader.data, tableOffset, 0, WadEntrySize);
    var fields :- ReadDirectoryEntry(tableEntry);
    var (filePos, lumpType, name) := fields;
    SuffixRead(reader.data, tableOffset, 0, 4);
    SuffixRead(reader.data, tableOffset, 16, 16);
    assert filePos == IntAt(reader.data, tableOffset, 4);
    assert lumpType == reader.data[tableOffset + 12];
    assert name == Chars(UntilNul(reader.data[tableOffset + 16..tableOffset + 32]));
    // The type is looked at only after the name has been read.
    if lumpType != MiptexLumpType { return Some(Skipped); }
    var entry :- TryReadMiptex(reader, filePos, name);
    return Some(Decoded(entry));
  }

  /** The 12-byte header: identification, lump count and directory offset. */
  method ReadWadHeader(reader: Reader) returns (r: Option<(int, int)>)
    requires reader.Valid() && reader.pos == 0
    modifies reader
    ensures r.Some? <==> WadHeaderSize <= |reader.data|
                         && (Identification(reader.data) == "WAD2" || Identification(reader.data) == "WAD3")
    ensures r.Some? ==> r.value == (LumpCount(reader.data), LumpTableOffset(reader.data))
  {
    var identification :- reader.ReadFixedUTF8String(4);
    if identification != "WAD2" && identification != "WAD3" { return None; }
    var lumpCount :- reader.ReadInt32();
    var lumpTableOffset :- reader.ReadInt32();
    return Some((lumpCount, lumpTableOffset));
  }

  /** The directory loop: lumpCount slots of 32 bytes from the table offset. */
  method ReadEntries(reader: Reader, lumpTableOffset: nat, lumpCount: nat) returns (r: Option<seq<WadEntry>>)
    ensures r == EntriesUpTo(reader.data, lumpTableOffset, lumpCount)
  {
    var entries: seq<WadEntry> := [];
    for i := 0 to lumpCount
      invariant EntriesUpTo(reader.data, lumpTableOffset, i) == Some(entries)
    {
      var entry := TryReadWadEntry(reader, lumpTableOffset + WadEntrySize * i);
      if entry.None? {
        FailedEntryFailsPrefix(reader.data, lumpTableOffset, i, lumpCount);
        return None;
      }
      EntriesUpToStep(reader.data, lumpTableOffset, i, entries, entry.value);
      if entry.value.Decoded? {
        entries := entries + [entry.value.entry];
      }
    }
    return Some(entries);
  }

  /** `TryLoadWadFile(FILE*)` after the file has been read into `data`. */
  method TryLoadWadFile(data: seq<byte>) returns (r: Option<WadFile>)
    ensures r == WadSpec(data)
  {
    var reader := new Reader(data);
    var header :- ReadWadHeader(reader);
    var (lumpCount, lumpTableOffset) := header;
    // Reject invalid headers.
    if lumpCount < 0 || lumpTableOffset < WadHeaderSize { return None; }
    assert HeaderOk(data);
    var entries :- ReadEntries(reader, lumpTableOffset, lumpCount);
    return Some(WadFile(entries));
  }

}
