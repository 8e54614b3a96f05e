/** WAD2/WAD3 texture archives (src/formats/wad/WadFile.hpp and WadFile.cpp): a 12-byte header,
    a directory of 32-byte entries, and for each miptex entry its name, size, first mip level
    and colormap.

    Positions are absolute offsets into the file. The source reads each entry through readers
    over suffixes of the buffer (`subspan`); taking a suffix past the end is undefined
    behaviour there and a failure here. */
module Wad {
  import opened Wrappers
  import opened Bytes
  import opened BinaryReader
  import opened Colormap
  import opened Miptex
  import Bsp

  const WadHeaderSize: nat := 12
  const WadEntrySize: nat := 32

  /** The one directory entry type the decoder keeps; the others are palette (64), colormap
      (65), qpic (66), raw (68), second colormap (69) and font (70). */
  const MiptexLumpType: byte := 67

  /** A texture: its name, size, the pixels of its first mip level and its 256 colours. */
  datatype WadEntry = WadEntry(name: string, width: nat, height: nat, pixels: seq<byte>, colormap: seq<Rgb>)

  datatype WadFile = WadFile(entries: seq<WadEntry>)

  /** What one directory slot contributes: nothing (an entry of another type) or a texture. */
  datatype EntryOutcome = Skipped | Decoded(entry: WadEntry)

  // ---------------------------------------------------------------- header

  /** The 4-byte identification, up to its first NUL. */
  function Identification(data: seq<byte>): string
    requires 4 <= |data|
  {
    Chars(UntilNul(data[0..4]))
  }

  function LumpCount(data: seq<byte>): int
    requires WadHeaderSize <= |data|
  {
    IntAt(data, 4, 4)
  }

  function LumpTableOffset(data: seq<byte>): int
    requires WadHeaderSize <= |data|
  {
    IntAt(data, 8, 4)
  }

  predicate HeaderOk(data: seq<byte>) {
    WadHeaderSize <= |data|
    && (Identification(data) == "WAD2" || Identification(data) == "WAD3")
    && LumpCount(data) >= 0
    && LumpTableOffset(data) >= WadHeaderSize
  }

  // ---------------------------------------------------------------- one entry

  /** A miptex starts with a 16-byte name the decoder skips, then width, height and the offset
      of its first mip level. */
  function MiptexWidth(data: seq<byte>, m: nat): nat requires m + 28 <= |data| { UIntAt(data, m + 16, 4) }
  function MiptexHeight(data: seq<byte>, m: nat): nat requires m + 28 <= |data| { UIntAt(data, m + 20, 4) }
  function MiptexDataOffset(data: seq<byte>, m: nat): nat requires m + 28 <= |data| { UIntAt(data, m + 24, 4) }

  /** The colormap follows the four mip levels and a 2-byte colour count. */
  function WadColormapPos(data: seq<byte>, m: nat): nat
    requires m + 28 <= |data|
  {
    m + MiptexDataOffset(data, m) + TotalMipPixels(MiptexWidth(data, m), MiptexHeight(data, m), MipLevelCount) + 2
  }

  /** The part of a miptex read from its first mip level on: width * height pixels, then,
      past all four levels and a 2-byte colour count, the colormap. */
  function MiptexPixelsAt(data: seq<byte>, pixelsPos: nat, width: nat, height: nat, name: string)
    : (r: Option<WadEntry>)
    ensures r.Some? ==> r.value.name == name && |r.value.pixels| == r.value.width * r.value.height
                        && |r.value.colormap| == ColormapColorCount
  {
    var pixelCount := width * height;
    var colormapPos := pixelsPos + TotalMipPixels(width, height, MipLevelCount) + 2;
    if !CanRead(data, pixelsPos, pixelCount) || !CanRead(data, colormapPos, ColormapSize) then None
    else Some(WadEntry(name, width, height, data[pixelsPos..pixelsPos + pixelCount], ColormapAt(data, colormapPos)))
  }

  /** The miptex a directory entry points to at filePos. */
  function MiptexEntryAt(data: seq<byte>, filePos: int, name: string): (r: Option<WadEntry>)
    ensures r.Some? ==> r.value.name == name && |r.value.pixels| == r.value.width * r.value.height
                        && |r.value.colormap| == ColormapColorCount
  {
    if filePos < 0 || filePos + 28 > |data| then None
    else
      var m := filePos as nat;
      var pixelsPos := m + MiptexDataOffset(data, m);
      if pixelsPos > |data| then None
      else MiptexPixelsAt(data, pixelsPos, MiptexWidth(data, m), MiptexHeight(data, m), name)
  }

  /** The directory entry at t: file position, disk size, size, type, compression, padding,
      16-byte name. The name is read before the type is looked at. */
  function EntryAt(data: seq<byte>, t: nat): Option<EntryOutcome> {
    if t + WadEntrySize > |data| then None
    else if data[t + 12] != MiptexLumpType then Some(Skipped)
    else
      var entry :- MiptexEntryAt(data, IntAt(data, t, 4), Chars(UntilNul(data[t + 16..t + 32])));
      Some(Decoded(entry))
  }

  // ---------------------------------------------------------------- whole file

  /** The entries from the first n directory slots, in directory order. One slot that fails
      fails them all: the source does not catch the exception. */
  function EntriesUpTo(data: seq<byte>, tableOffset: nat, n: nat): Option<seq<WadEntry>> {
    if n == 0 then Some([])
    else
      var previous :- EntriesUpTo(data, tableOffset, n - 1);
      var outcome :- EntryAt(data, tableOffset + WadEntrySize * (n - 1));
      Some(if outcome.Decoded? then previous + [outcome.entry] else previous)
  }

  /** One more slot extends the entries by its texture, if it holds one. */
  lemma EntriesUpToStep(data: seq<byte>, tableOffset: nat, n: nat, entries: seq<WadEntry>, outcome: EntryOutcome)
    requires EntriesUpTo(data, tableOffset, n) == Some(entries)
    requires EntryAt(data, tableOffset + WadEntrySize * n) == Some(outcome)
    ensures EntriesUpTo(data, tableOffset, n + 1)
            == Some(if outcome.Decoded? then entries + [outcome.entry] else entries)
  {
  }

  function WadSpec(data: seq<byte>): Option<WadFile> {
    if !HeaderOk(data) then None
    else
      var entries :- EntriesUpTo(data, LumpTableOffset(data) as nat, LumpCount(data) as nat);
      Some(WadFile(entries))
  }

  // ---------------------------------------------------------------- properties

  /** Slot k of the directory holds a miptex entry. */
  predicate IsMiptexSlot(data: seq<byte>, tableOffset: nat, k: nat) {
    tableOffset + WadEntrySize * k + 12 < |data| && data[tableOffset + WadEntrySize * k + 12] == MiptexLumpType
  }

  /** The number of miptex slots among the first n. */
  function MiptexSlotCount(data: seq<byte>, tableOffset: nat, n: nat): nat {
    if n == 0 then 0
    else MiptexSlotCount(data, tableOffset, n - 1) + (if IsMiptexSlot(data, tableOffset, n - 1) then 1 else 0)
  }

  /** A slot of another type contributes nothing; a miptex slot that does not fail contributes one entry. */
  lemma EntryOutcomeByType(data: seq<byte>, t: nat)
    requires EntryAt(data, t).Some?
    ensures t + WadEntrySize <= |data|
    ensures EntryAt(data, t).value.Decoded? <==> data[t + 12] == MiptexLumpType
  {
  }

  /** One entry per miptex slot, so never more entries than the header's lump count. */
  lemma {:induction false} EntryCountIsMiptexSlotCount(data: seq<byte>, tableOffset: nat, n: nat)
    requires EntriesUpTo(data, tableOffset, n).Some?
    ensures |EntriesUpTo(data, tableOffset, n).value| == MiptexSlotCount(data, tableOffset, n)
    ensures MiptexSlotCount(data, tableOffset, n) <= n
  {
    if n > 0 {
      EntryCountIsMiptexSlotCount(data, tableOffset, n - 1);
      EntryOutcomeByType(data, tableOffset + WadEntrySize * (n - 1));
    }
  }

  lemma {:induction false} EntryCountBound(data: seq<byte>)
    requires WadSpec(data).Some?
    ensures |WadSpec(data).value.entries| <= LumpCount(data)
  {
    EntryCountIsMiptexSlotCount(data, LumpTableOffset(data) as nat, LumpCount(data) as nat);
  }

  /** A slot that fails fails every longer prefix of the directory, and so the whole file. */
  lemma {:induction false} FailedEntryFailsPrefix(data: seq<byte>, tableOffset: nat, k: nat, n: nat)
    requires k < n
    requires EntryAt(data, tableOffset + WadEntrySize * k).None?
    ensures EntriesUpTo(data, tableOffset, n).None?
  {
    if k < n - 1 {
      FailedEntryFailsPrefix(data, tableOffset, k, n - 1);
    }
  }

  lemma FailedEntryFailsFile(data: seq<byte>, k: nat)
    requires HeaderOk(data) && k < LumpCount(data)
    requires EntryAt(data, LumpTableOffset(data) as nat + WadEntrySize * k).None?
    ensures WadSpec(data).None?
  {
    FailedEntryFailsPrefix(data, LumpTableOffset(data) as nat, k, LumpCount(data) as nat);
  }

  /** Every decoded entry has width * height pixels, 256 colours and a name of at most 16 characters. */
  predicate EntryShapeOk(e: WadEntry) {
    |e.pixels| == e.width * e.height && |e.colormap| == ColormapColorCount && |e.name| <= 16
  }

  lemma DecodedEntryShape(data: seq<byte>, t: nat)
    requires EntryAt(data, t).Some? && EntryAt(data, t).value.Decoded?
    ensures EntryShapeOk(EntryAt(data, t).value.entry)
  {
    var name := Chars(UntilNul(data[t + 16..t + 32]));
    assert EntryAt(data, t).value.entry == MiptexEntryAt(data, IntAt(data, t, 4), name).value;
  }

  lemma {:induction false} DecodedEntriesShape(data: seq<byte>, tableOffset: nat, n: nat)
    requires EntriesUpTo(data, tableOffset, n).Some?
    ensures forall i | 0 <= i < |EntriesUpTo(data, tableOffset, n).value| ::
              EntryShapeOk(EntriesUpTo(data, tableOffset, n).value[i])
  {
    if n > 0 {
      DecodedEntriesShape(data, tableOffset, n - 1);
      var t := tableOffset + WadEntrySize * (n - 1);
      if EntryAt(data, t).value.Decoded? {
        DecodedEntryShape(data, t);
      }
    }
  }

  /** Extending the directory prefix by one slot only appends: earlier entries keep their
      place, so entries appear in directory order. */
  lemma {:induction false} EntriesArePrefixes(data: seq<byte>, tableOffset: nat, k: nat, n: nat)
    requires k <= n
    requires EntriesUpTo(data, tableOffset, n).Some?
    ensures EntriesUpTo(data, tableOffset, k).Some?
    ensures EntriesUpTo(data, tableOffset, k).value <= EntriesUpTo(data, tableOffset, n).value
  {
    if k < n {
      EntriesArePrefixes(data, tableOffset, k, n - 1);
    }
  }

  /** A WAD miptex and a texture embedded in a BSP file share one layout. When both sizes are
      multiples of 8 the WAD decoder, which sums the four levels, finds the colormap where the
      BSP decoder, which uses width * height / 64 * 85, does. */
  lemma ColormapPosAgreesWithBsp(data: seq<byte>, m: nat)
    requires m + Bsp.MiptexHeaderSize <= |data|
    requires MiptexWidth(data, m) % 8 == 0 && MiptexHeight(data, m) % 8 == 0
    ensures WadColormapPos(data, m) == Bsp.TextureColormapPos(data, m)
  {
    MipDataSizeIsTotalMipPixels(MiptexWidth(data, m), MiptexHeight(data, m));
  }
}
