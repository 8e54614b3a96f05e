# HLAM prototypes: asset decoders in Dafny

A model of the file-format core of the Half-Life Asset Manager prototypes, with proofs about it:

- the little-endian `BinaryReader` the decoders share;
- the BSP version 30 level decoder (entities, textures, texture infos, vertexes, edges,
  surf-edges, faces, models);
- the WAD2/WAD3 texture archive decoder;
- the IDSP version 2 sprite decoder, with the two enum-to-name maps;
- the `AssetLoaders` registry, kept sorted by loader priority;
- the comparator that orders texture names in the WAD viewer.

Each decoder has two halves.

- **A specification module** (`Bsp`, `Wad`, `Sprite`) says declaratively what a byte buffer
  decodes to. Each record is described at its absolute offset, and any failure yields `None`.
- **A loader module** (`BspLoader`, `WadLoader`, `SpriteLoader`) performs the source's sequence
  of reads through a `Reader` object. Each of its methods is proved to return exactly what the
  matching specification function describes.

The properties are proved as lemmas about the specification functions. They live in
`BspProperties`, `Wad`, `Sprite`, `Miptex`, `AssetLoaderRegistry` and `TextureNames`. Examples:

- every index in a decoded BSP file is in range;
- the WAD palette position agrees with the BSP formula;
- the sprite frame list and frame shapes are as described;
- insertion by priority keeps the registry sorted;
- the texture-name comparator is a strict weak order.

Modelling conventions:

- **Failures.** Both ways the source fails become `None`: an empty `std::optional`, and an
  `std::out_of_range` thrown by the reader. The source never catches the exception, so it
  aborts the whole load just as an empty result does.
- **Floats.** Floats are opaque 32-bit words (`Float32`). The comparisons `f < 0` and `f <= 0`
  are defined exactly on the IEEE-754 bit pattern, so NaN compares false.
- **Undefined behaviour.** Wherever a decoder would run into undefined behaviour, the model
  fails explicitly, and a comment at the check says so. This covers an out-of-range
  `std::span::subspan`, a vector index past the end, a `memcpy` past a vector's end and
  `std::abs` of the most negative `int`. The texture-name comparator returns no failure, so
  there the undefined case is a precondition instead (see `TextureNames.SkipTextureSpecifiers`
  under Left out).
- **Input.** File input is replaced by a byte sequence holding the whole file.

## Model

| member | source | states |
|---|---|---|
| `BinaryReader.ReadAt` | src/utils/BinaryReader.hpp:40-49 | a read of n bytes at p succeeds iff p < length and p + n <= length (so a 0-byte read at the end fails), and yields exactly data[p..p+n] |
| `BinaryReader.ReadAtSplit` | src/utils/BinaryReader.hpp:40-49 | reading a + b bytes is reading a bytes then b bytes from where the first read stopped |
| `BinaryReader.SuffixRead` | src/utils/BinaryReader.hpp:35-38 | a read at p from a reader over data[offset..] is the read at offset + p of the whole buffer |
| `BinaryReader.UntilNul` | src/utils/BinaryReader.hpp:94-98 | the part of a string before its first NUL: a prefix, NUL-free, ending at a NUL or the end |
| `BinaryReader.UntilNulIsPrefix` | src/utils/BinaryReader.hpp:94-98 | any NUL-free prefix ending at a NUL or at the end is exactly the trimmed string |
| `BinaryReader.Reader.constructor` | src/utils/BinaryReader.hpp:12-15 | a new reader is over the given bytes at position 0 |
| `BinaryReader.Reader.GetPosition` | src/utils/BinaryReader.hpp:20-23 | returns the position, which never exceeds the length |
| `BinaryReader.Reader.SetPosition` | src/utils/BinaryReader.hpp:25-33 | succeeds iff offset <= length, and then the position is offset; otherwise the position is unchanged |
| `BinaryReader.Reader.Subspan` | src/utils/BinaryReader.hpp:35-38 | requires offset <= length; a fresh reader at position 0 over data[offset..offset+count] or to the end; the original is unchanged |
| `BinaryReader.Reader.ReadBytes` | src/utils/BinaryReader.hpp:40-49 | yields ReadAt of the current position and advances by exactly n on success; the position never passes the end |
| `BinaryReader.Reader.ReadUnsigned` | src/utils/BinaryReader.hpp:104-110 | consumes n bytes and decodes them little-endian as an unsigned value below 256^n |
| `BinaryReader.Reader.ReadSigned` | src/utils/BinaryReader.hpp:104-110 | consumes n bytes and decodes them as a two's-complement value |
| `BinaryReader.Reader.ReadUInt8` | src/utils/BinaryReader.hpp:51-54 | consumes 1 byte and yields it |
| `BinaryReader.Reader.ReadUInt16` | src/utils/BinaryReader.hpp:56-59 | consumes 2 bytes, little-endian unsigned |
| `BinaryReader.Reader.ReadUInt32` | src/utils/BinaryReader.hpp:61-64 | consumes 4 bytes, little-endian unsigned |
| `BinaryReader.Reader.ReadInt8` | src/utils/BinaryReader.hpp:66-69 | consumes 1 byte, signed |
| `BinaryReader.Reader.ReadInt16` | src/utils/BinaryReader.hpp:71-74 | consumes 2 bytes, signed, in [-2^15, 2^15) |
| `BinaryReader.Reader.ReadInt32` | src/utils/BinaryReader.hpp:76-79 | consumes 4 bytes, signed, in [-2^31, 2^31) |
| `BinaryReader.Reader.ReadFloat` | src/utils/BinaryReader.hpp:81-84 | consumes 4 bytes as an opaque float word |
| `BinaryReader.Reader.ReadFixedUTF8String` | src/utils/BinaryReader.hpp:86-101 | consumes exactly n bytes; the result is the part before the first NUL, of length <= n and NUL-free |
| `Bytes.LeUnsigned` | src/utils/BinaryReader.hpp:104-110 | the little-endian value of n bytes is below 256^n |
| `Bytes.LeUnsignedOfLeBytes` | src/utils/BinaryReader.hpp:104-110 | encoding a value below 256^n into n little-endian bytes and decoding gives it back |
| `Bytes.LeBytesOfLeUnsigned` | src/utils/BinaryReader.hpp:104-110 | decoding n bytes and encoding the value gives the same bytes back |
| `Bytes.Signed` | src/utils/BinaryReader.hpp:71-79 | the two's-complement reading of an n-byte value lies in [-2^(8n-1), 2^(8n-1)) and agrees with it modulo 2^(8n) |
| `Bytes.FloatComparisons` | src/formats/sprite/SpriteFile.cpp:75 | on a float word, `< 0` implies `<= 0`, they differ only on the zeros, and NaN satisfies neither |
| `Bytes.Chars` | src/utils/BinaryReader.hpp:86-101 | the string built from bytes has one character per byte with the same code |
| `Colormap.ColormapAt` | src/formats/bsp/BSPFile.cpp:135-141 | the palette is exactly 256 RGB triples taken from consecutive bytes |
| `Colormap.ColormapAtSuffix` | src/formats/wad/WadFile.cpp:80-87 | the palette read through a suffix reader is the one at the absolute position |
| `Colormap.ReadColormap` | src/formats/wad/WadFile.cpp:82-87 | fills 256 entries with three byte reads each; succeeds iff 768 bytes are readable, yielding ColormapAt and advancing by 768 |
| `Miptex.MipDataSizeIsTotalMipPixels` | src/formats/bsp/BSPFile.cpp:133 | for sizes that are multiples of 8, the BSP skip W*H/64*85 equals the WAD sum over the four levels of (W>>l)*(H>>l) |
| `Miptex.MipDataSizeDiffersForSmallSizes` | src/formats/wad/WadFile.cpp:67-76 | the two palette-position formulas differ for a 4x4 texture (0 against 21 pixels) |
| `Bsp.LumpsSpec` | src/formats/bsp/BSPFile.cpp:412-430 | version 30, then exactly 15 (offset, size) pairs, none negative |
| `Bsp.MipData` | src/formats/bsp/BSPFile.cpp:121-130 | mip level l holds (W/2^l)*(H/2^l) bytes |
| `BspLoader.TryLoadEntities` | src/formats/bsp/BSPFile.cpp:53-65 | the entities text is exactly max(0, size - 1) bytes at the Entities lump offset |
| `BspLoader.ReadMipOffsets` | src/formats/bsp/BSPFile.cpp:107-110 | reads the four mip offsets as unsigned words |
| `BspLoader.ReadMipLevels` | src/formats/bsp/BSPFile.cpp:114-131 | fails on any zero offset or unreadable level; otherwise level l is W/2^l * H/2^l bytes at textureOffset + offset[l] |
| `BspLoader.ReadTextureOffset` | src/formats/bsp/BSPFile.cpp:89-98 | directory entry i is read at lumpOffset + 4(i+1) and must lie in [0, lumpSize) |
| `BspLoader.ReadMiptexPixels` | src/formats/bsp/BSPFile.cpp:114-141 | the four mip levels, then 256 palette triples at textureOffset + offset[0] + W*H/64*85 + 2 |
| `BspLoader.ReadMiptex` | src/formats/bsp/BSPFile.cpp:100-142 | a zero first mip offset leaves the mip data and palette empty; otherwise they are read as above |
| `BspLoader.ReadTexture` | src/formats/bsp/BSPFile.cpp:87-145 | texture i is decoded exactly when its directory entry and miptex are valid |
| `BspLoader.TryLoadTextures` | src/formats/bsp/BSPFile.cpp:67-149 | a negative count fails; otherwise every texture must decode, in directory order |
| `BspLoader.ReadVec3` | src/formats/bsp/BSPFile.cpp:166-168 | three float reads at consecutive positions |
| `BspLoader.ReadTextureAxis` | src/formats/bsp/BSPFile.cpp:166-169 | one direction and its offset at p and p + 12; succeeds exactly when 16 bytes remain at p |
| `BspLoader.ReadTextureAxes` | src/formats/bsp/BSPFile.cpp:164-170 | the two axes at p and p + 16, in order; succeeds exactly when 32 bytes remain at p |
| `BspLoader.ReadTextureInfo` | src/formats/bsp/BSPFile.cpp:162-182 | record k at lumpOffset + 40k; its texture index must lie in [0, texture count) and is kept as the reference |
| `BspLoader.ReadBspHeader` | src/formats/bsp/BSPFile.cpp:412-431 | the version must be 30 and each of the 15 directory entries must have a non-negative offset and size; the result is LumpsSpec |
| `BspLoader.TryLoadTextureInfos` | src/formats/bsp/BSPFile.cpp:151-185 | exactly size/40 texture infos, each valid |
| `BspLoader.LoadVertexes` | src/formats/bsp/BSPFile.cpp:187-205 | size/12 vertexes of three floats each |
| `BspLoader.LoadEdges` | src/formats/bsp/BSPFile.cpp:207-224 | size/4 edges of two unsigned 16-bit vertex indexes |
| `BspLoader.LoadSurfEdges` | src/formats/bsp/BSPFile.cpp:226-239 | the lump's bytes as size/4 signed 32-bit values; a size that is not a multiple of 4 fails |
| `BspLoader.CollectFaceVertexes` | src/formats/bsp/BSPFile.cpp:291-314 | exactly numEdges vertexes; vertex i is the first end of edge \|s\| when the surf-edge s >= 0 and the second otherwise; fails when an edge index is out of range |
| `BspLoader.ReadFaceRecord` | src/formats/bsp/BSPFile.cpp:258-272 | consumes the 20-byte face record, yielding firstEdge, numEdges and texInfo |
| `BspLoader.ReadFace` | src/formats/bsp/BSPFile.cpp:256-315 | fails unless firstEdge is in [0, \|surfEdges\|), numEdges >= 0 and texInfo is in [0, \|textureInfos\|); then the vertexes as above |
| `BspLoader.TryLoadFaces` | src/formats/bsp/BSPFile.cpp:241-318 | exactly size/20 faces, each valid |
| `BspLoader.ReadModel` | src/formats/bsp/BSPFile.cpp:342-379 | firstFace must be in [0, \|faces\|), faceCount >= 0 and firstFace + faceCount <= \|faces\| |
| `BspLoader.TryLoadModels` | src/formats/bsp/BSPFile.cpp:331-382 | exactly size/64 models, each valid |
| `BspLoader.TryLoadBspFile` | src/formats/bsp/BSPFile.cpp:400-476 | the decoded file is BspSpec: the header, then each stage in order, failing as soon as any stage fails |
| `Bsp.BspSpec` | src/formats/bsp/BSPFile.cpp:400-476 | the reference decoding: the lump directory, then entities, textures, texture infos, faces and models, each stage on the results of the earlier ones; the first failing stage makes the whole result a failure |
| `BspProperties.ModelFaces` | src/formats/bsp/BSPFile.cpp:377 | a model's faces are exactly faces[firstFace .. firstFace + faceCount) |
| `BspProperties.DecodedFileIsStageResults` | src/formats/bsp/BSPFile.cpp:434-475 | a decoded file holds exactly the results of the five stages run on the decoded lumps |
| `BspProperties.FailedStageFailsFile` | src/formats/bsp/BSPFile.cpp:434-445 | when the entities or textures stage fails, the whole decode fails |
| `BspProperties.TextureInfoReferencesInRange` | src/formats/bsp/BSPFile.cpp:172-179 | every decoded texture info refers to an existing texture |
| `BspProperties.FaceReferencesInRange` | src/formats/bsp/BSPFile.cpp:274-288 | every decoded face refers to an existing texture info |
| `BspProperties.ModelReferencesInRange` | src/formats/bsp/BSPFile.cpp:368-377 | every decoded model's face range lies inside the face table |
| `BspProperties.DecodedReferencesInRange` | src/formats/bsp/BSPFile.cpp:400-476 | in every decoded file every index (texture, texture info, face range) is in range |
| `BspProperties.DecodedCounts` | src/formats/bsp/BSPFile.cpp:59-85 | entities length max(0, size-1), the stored texture count, size/40 infos, size/20 faces and size/64 models |
| `BspProperties.DecodedTextureShape` | src/formats/bsp/BSPFile.cpp:102-142 | a decoded texture has a name of at most 16 characters, the stored width and height, and either no mip data and no palette, or four levels of (W/2^l)*(H/2^l) bytes and 256 colours |
| `BspProperties.DecodedTexturesShape` | src/formats/bsp/BSPFile.cpp:87-148 | every texture of a decoded table has that shape |
| `BspProperties.FaceWinding` | src/formats/bsp/BSPFile.cpp:293-313 | vertex i of a face comes from surf-edge firstEdge + i, using the edge's first vertex for a non-negative surf-edge and the second otherwise |
| `BspFindings.FaceRangeAsWrittenAcceptsOverrun` | src/formats/bsp/BSPFile.cpp:373 | the check with a 32-bit sum accepts firstFace 1 and faceCount 0x7FFFFFFF against two faces |
| `BspFindings.FaceRangeOkIsInBounds` | src/formats/bsp/BSPFile.cpp:368-377 | the unbounded check keeps the range inside the table and agrees with the 32-bit check whenever the sum does not overflow |
| `Wad.MiptexPixelsAt` | src/formats/wad/WadFile.cpp:59-87 | W*H pixel bytes at the data offset, then 256 colours after the four mip levels and 2 bytes |
| `Wad.MiptexEntryAt` | src/formats/wad/WadFile.cpp:46-89 | width and height at filePos + 16 and + 20; the pixels and palette as above |
| `Wad.EntryOutcomeByType` | src/formats/wad/WadFile.cpp:24-40 | a readable directory slot yields an entry iff its type byte is 67 (Miptex) |
| `Wad.EntryCountIsMiptexSlotCount` | src/formats/wad/WadFile.cpp:140-150 | the entries are one per Miptex slot among the first n |
| `Wad.EntryCountBound` | src/formats/wad/WadFile.cpp:138-152 | a decoded WAD holds at most lumpCount entries |
| `Wad.FailedEntryFailsPrefix` | src/formats/wad/WadFile.cpp:142-150 | a failing slot k fails every run of more than k slots |
| `Wad.EntriesUpToStep` | src/formats/wad/WadFile.cpp:142-149 | one more slot appends its miptex when decoded and leaves the entries unchanged when skipped |
| `Wad.FailedEntryFailsFile` | src/formats/wad/WadFile.cpp:117-150 | a bounds failure inside any directory slot fails the whole load |
| `Wad.DecodedEntryShape` | src/formats/wad/WadFile.cpp:42-89 | a decoded entry has W*H pixels, 256 colours and a name of at most 16 characters |
| `Wad.DecodedEntriesShape` | src/formats/wad/WadFile.cpp:138-150 | every decoded entry has that shape |
| `Wad.EntriesArePrefixes` | src/formats/wad/WadFile.cpp:142-150 | entries keep directory order: the entries of the first k slots are a prefix of those of the first n |
| `Wad.ColormapPosAgreesWithBsp` | src/formats/wad/WadFile.cpp:67-80 | for sizes that are multiples of 8 the WAD palette position equals the BSP one |
| `WadLoader.ReadMiptexPixels` | src/formats/wad/WadFile.cpp:59-87 | reads the pixels, sums the four mip level sizes in a loop and reads the palette after them |
| `WadLoader.ReadMiptexFields` | src/formats/wad/WadFile.cpp:46-57 | width, height and first mip offset are the unsigned words at 16, 20 and 24; fails exactly when the miptex is shorter than 28 bytes |
| `WadLoader.TryReadMiptex` | src/formats/wad/WadFile.cpp:46-89 | reads width, height and data offset after skipping the name, then the pixels and palette |
| `WadLoader.ReadDirectoryEntry` | src/formats/wad/WadFile.cpp:24-33 | consumes the 32-byte slot: filePos, type byte and the NUL-trimmed 16-byte name |
| `Wad.EntryAt` | src/formats/wad/WadFile.cpp:21-90 | the slot at t: fails unless 32 bytes remain, is skipped unless its type byte is 67 (Miptex), and otherwise is the miptex at the slot's file position under the slot's NUL-trimmed name, failing when that miptex fails |
| `WadLoader.TryReadWadEntry` | src/formats/wad/WadFile.cpp:22-90 | slot at tableOffset: skipped unless Miptex, otherwise the decoded miptex |
| `WadLoader.ReadEntries` | src/formats/wad/WadFile.cpp:138-150 | slot i read at tableOffset + 32i for every i below the count; the result is EntriesUpTo for the whole count |
| `WadLoader.ReadWadHeader` | src/formats/wad/WadFile.cpp:120-128 | the identification must be "WAD2" or "WAD3"; then lump count and table offset |
| `Wad.WadSpec` | src/formats/wad/WadFile.cpp:108-153 | the reference decoding: "WAD2" or "WAD3", a non-negative lump count, a table offset of at least 12, then the entries of all lumpCount slots in directory order |
| `WadLoader.TryLoadWadFile` | src/formats/wad/WadFile.cpp:108-153 | a negative lump count or a table offset below 12 fails; slot i is read at tableOffset + 32i; the result is WadSpec |
| `Sprite.SpriteTypeToString` | src/formats/sprite/SpriteFile.cpp:9-20 | total: values outside the enumeration get "vp_parallel" |
| `Sprite.SpriteTextureFormatToString` | src/formats/sprite/SpriteFile.cpp:22-32 | total: values outside the enumeration get "normal" |
| `Sprite.SpriteTypeNamesDistinct` | src/formats/sprite/SpriteFile.cpp:9-20 | on the five sprite types the names are distinct, so a name identifies the type |
| `Sprite.TextureFormatNamesDistinct` | src/formats/sprite/SpriteFile.cpp:22-32 | on the four texture formats the names are distinct |
| `Sprite.SingleFrameAt` | src/formats/sprite/SpriteFile.cpp:36-56 | a single frame consumes 16 header bytes plus exactly its pixel bytes, within the buffer |
| `Sprite.FramesUpTo` | src/formats/sprite/SpriteFile.cpp:83-93 | n frames in sequence yield n frames |
| `Sprite.IntervalsAt` | src/formats/sprite/SpriteFile.cpp:71-79 | a group has one interval per frame |
| `Sprite.RecordsUpTo` | src/formats/sprite/SpriteFile.cpp:203-232 | n frame records yield n records |
| `Sprite.HeaderAt` | src/formats/sprite/SpriteFile.cpp:126-152 | the identification must be "IDSP" and the version 2; the header then spans 40 bytes |
| `Sprite.FailedFrameFailsRun` | src/formats/sprite/SpriteFile.cpp:83-93 | a frame that fails fails its whole group |
| `Sprite.FailedRecordFailsRun` | src/formats/sprite/SpriteFile.cpp:203-232 | a record that fails fails the whole sprite |
| `Sprite.DecodedFrameShape` | src/formats/sprite/SpriteFile.cpp:46-53 | a decoded frame has non-negative width and height and exactly width * height pixels |
| `Sprite.DecodedFramesShape` | src/formats/sprite/SpriteFile.cpp:83-93 | every frame of a run has that shape |
| `Sprite.DecodedRecordShape` | src/formats/sprite/SpriteFile.cpp:58-96 | a decoded group has as many intervals as frames, each frame of valid shape |
| `Sprite.DecodedRecordsShape` | src/formats/sprite/SpriteFile.cpp:203-232 | every decoded record has that shape |
| `Sprite.SinglesAreSingleRecords` | src/formats/sprite/SpriteFile.cpp:203-231 | groups contribute nothing: at most one kept frame per record, one per record when there are no groups, and every kept frame is the frame of some single record |
| `Sprite.SingleIndexesAppend` | src/formats/sprite/SpriteFile.cpp:203-231 | one more record adds one single-record position when it is a single frame and none when it is a group |
| `Sprite.SinglesInRecordOrder` | src/formats/sprite/SpriteFile.cpp:203-231 | only the SINGLE branch pushes a frame: the kept frames are exactly as many as the tag-0 records, and the frame of the tag-0 record at i sits at the number of tag-0 records before i, so every one is kept in record order |
| `Sprite.DecodedSprite` | src/formats/sprite/SpriteFile.cpp:114-234 | a decoded sprite has id "IDSP", version 2, a valid type, format and sync type, a radius that does not compare below zero (a NaN radius passes), a non-negative width and height, 256 colours and frames of valid shape; of the numFrames top-level records, its frames are exactly those of the tag-0 records, one each, in record order |
| `SpriteLoader.TryLoadSingleSpriteFrame` | src/formats/sprite/SpriteFile.cpp:36-56 | origin, width and height; negative dimensions fail; then W*H pixels |
| `SpriteLoader.ReadIntervals` | src/formats/sprite/SpriteFile.cpp:69-79 | n float intervals, failing on the first one that is <= 0 |
| `SpriteLoader.ReadFrames` | src/formats/sprite/SpriteFile.cpp:81-93 | n single frames back to back, failing on the first one that fails |
| `Sprite.GroupAt` | src/formats/sprite/SpriteFile.cpp:58-96 | a group at p: a 32-bit frame count that must be non-negative, that many intervals each greater than zero, then that many single frames back to back; the position after the last frame |
| `SpriteLoader.TryLoadSpriteGroup` | src/formats/sprite/SpriteFile.cpp:58-96 | a negative count fails; then the intervals and the frames |
| `Sprite.RecordAt` | src/formats/sprite/SpriteFile.cpp:205-231 | a 32-bit tag at p: 0 introduces a single frame at p + 4, any other value a group at p + 4 |
| `SpriteLoader.ReadFrameRecord` | src/formats/sprite/SpriteFile.cpp:205-231 | tag 0 introduces a single frame; any other tag a group |
| `SpriteLoader.ReadFrameRecords` | src/formats/sprite/SpriteFile.cpp:201-232 | reads count records in a row and fails exactly when RecordsUpTo fails; the result is the single frames among those records, in order, with groups dropped |
| `SpriteLoader.ReadSpriteHeader` | src/formats/sprite/SpriteFile.cpp:126-152 | the header fields in file order after the identification and version checks |
| `Sprite.SpriteSpec` | src/formats/sprite/SpriteFile.cpp:114-235 | the reference decoding: a valid header, a colour count of exactly 256, the 256-colour palette, then numFrames records of which only the single frames are kept |
| `SpriteLoader.TryLoadSpriteFile` | src/formats/sprite/SpriteFile.cpp:114-235 | the result is SpriteSpec: header checks, colour count 256, the palette, then numFrames records keeping only single frames |
| `AssetLoaderRegistry.AssetLoader.GetPriority` | src/assets/IAssetLoader.hpp:18-23 | the loader's priority |
| `AssetLoaderRegistry.InsertByPriority` | src/assets/AssetLoaders.hpp:19-27 | insertion grows the list by one and adds exactly the new loader |
| `AssetLoaderRegistry.InsertAtPartition` | src/assets/AssetLoaders.hpp:23-26 | inserting at the upper bound is the reference insertion |
| `AssetLoaderRegistry.HigherCountPartitions` | src/assets/AssetLoaders.hpp:23-26 | in a sorted list the upper bound splits strictly higher priorities from the rest |
| `AssetLoaderRegistry.SpliceKeepsSorted` | src/assets/AssetLoaders.hpp:23-26 | inserting at the upper bound keeps the list sorted by non-increasing priority |
| `AssetLoaderRegistry.InsertedPlacement` | src/assets/AssetLoaders.hpp:23-26 | the new loader follows every higher-priority loader and precedes all others (the newest first among equals), the old loaders keep their order, and the list stays sorted |
| `AssetLoaderRegistry.AssetLoaders.constructor` | src/assets/AssetLoaders.hpp:29-30 | a new registry is empty |
| `AssetLoaderRegistry.AssetLoaders.GetLoaders` | src/assets/AssetLoaders.hpp:17 | the loaders in stored order, so a higher priority is probed earlier |
| `AssetLoaderRegistry.AssetLoaders.UpperBound` | src/assets/AssetLoaders.hpp:23-26 | a binary search finds the first loader whose priority is at most the new one's |
| `AssetLoaderRegistry.AssetLoaders.Add` | src/assets/AssetLoaders.hpp:19-27 | requires a non-null loader; the list becomes the reference insertion and stays sorted |
| `TextureNames.HasTextureSpecifiers` | src/assetsystems/wad/ui/WadMainWindow.cpp:214-217 | true exactly when the name starts with `+` or `-`; the empty name starts with its terminator and has none |
| `TextureNames.SkipTextureSpecifiers` | src/assetsystems/wad/ui/WadMainWindow.cpp:219-227 | drops exactly the two leading characters when there is a specifier and nothing otherwise |
| `TextureNames.StrICmp` | src/assetsystems/wad/ui/WadMainWindow.cpp:249-256 | `_stricmp` as the comparator calls it: the difference of the first pair of ASCII-lower-cased codes that differ or are both the terminator, a NUL or the end of the string ending a name; its meaning is proved by `StrICmpIsFoldedOrder` |
| `TextureNames.StrICmpIsFoldedOrder` | src/assetsystems/wad/ui/WadMainWindow.cpp:249 | `_stricmp` is zero exactly for equal lower-cased C strings and negative exactly for lexicographically smaller ones |
| `TextureNames.TextureNameLess` | src/assetsystems/wad/ui/WadMainWindow.cpp:238-257 | the sorting lambda: with a specifier on either side and base names that differ under `_stricmp`, the base names decide; otherwise `_stricmp` of the full names does; its meaning is proved by `TextureNameLessIsKeyLess` |
| `TextureNames.TextureNameLessIsKeyLess` | src/assetsystems/wad/ui/WadMainWindow.cpp:238-257 | the comparator is the lexicographic order on (lower-cased base name, lower-cased full name) |
| `TextureNames.NoSpecifierOrder` | src/assetsystems/wad/ui/WadMainWindow.cpp:256 | without specifiers the order is `_stricmp` on the full names |
| `TextureNames.SpecifierOrder` | src/assetsystems/wad/ui/WadMainWindow.cpp:243-256 | with a specifier on either side, differing base names decide; otherwise the full names decide |
| `TextureNames.TextureNameLessIrreflexive` | src/assetsystems/wad/ui/WadMainWindow.cpp:256 | no name sorts before itself |
| `TextureNames.TextureNameLessAsymmetric` | src/assetsystems/wad/ui/WadMainWindow.cpp:238-257 | two names are never each before the other |
| `TextureNames.TextureNameLessTransitive` | src/assetsystems/wad/ui/WadMainWindow.cpp:238-257 | the order is transitive |
| `TextureNames.TextureNameEquivalence` | src/assetsystems/wad/ui/WadMainWindow.cpp:238-257 | names unordered either way have equal keys, so the comparator is a strict weak order as `std::sort` requires |

## Left out

- File input. `TryReadFileIntoBuffer`, the `fopen`/`fclose` overloads, and the magic-number
  sniffing and probing loop of the asset systems are not modelled; decoders take the whole
  file as a byte sequence.
- Qt and OpenGL. The viewers, the rendering and `std::sort` itself are not modelled; only the
  comparator is. StudioModel support is not modelled either: it checks "IDST" and decodes
  nothing.
- Floating-point arithmetic. Floats are carried as bit patterns; only the two comparisons with
  zero that the sprite decoder makes are interpreted.
- Unchecked fields. The BSP face fields plane number, side, light styles and light offset, and
  the model head nodes and visleaf, are read (so they count for bounds) but not stored.
  The same goes for the WAD directory fields disk size, size, compression and padding.
- Failure reasons. They are not distinguished: an empty optional and an out-of-range exception
  both give `None`.
- `BspLoader.CollectFaceVertexes`: the source checks `firstEdge` but never
  `firstEdge + numEdges`, nor the vertex indexes stored in an edge. Indexing past the end of a
  vector is undefined there; the model fails instead.
- `BspLoader.LoadSurfEdges`: the source copies `size` bytes into a vector of `size/4` integers,
  which writes past its end when size is not a multiple of 4. The model fails in that case.
- `WadLoader.TryReadMiptex`: `subspan` past the end of the buffer is undefined behaviour in the
  source (`std::span` does not check); the model fails there.
- Sizes. `size_t` and `int` arithmetic is unbounded in the model. The `size_t` sums the
  decoders form stay below 2^64 for a different reason in each case. Most addends are 32-bit
  values. The two products of two 32-bit values are W*H/64*85 in the BSP palette position and
  the WAD `totalPixelCount`. Each is formed only after a read of W*H bytes has succeeded, so
  W*H is at most the size of the buffer. The one `int` sum that can overflow inside the buffer
  is recorded under Findings.
- `WadLoader.ReadEntries`: the `int` table offset grows by 32 after each slot. A slot must be
  readable before the offset moves past it, so the offset stays at most the buffer size and
  can overflow only for a buffer over 2 GiB. The model does not wrap it.
- `TextureNames.SkipTextureSpecifiers`: for the one-character names "+" and "-", `name += 2`
  points past the terminator, and reading there is undefined behaviour. Such a name can reach
  the comparator, since WAD names are taken from the file unchecked. The comparator returns no
  failure to model it with, so `SpecifiersSkippable` is a precondition of
  `SkipTextureSpecifiers`, `TextureNameLess` and the lemmas about them. The model says nothing
  about sorting a directory that holds such a name.
- WAD failures. Only entries of a type other than Miptex are skipped
  (src/formats/wad/WadFile.cpp:37-40). A bounds failure inside a Miptex entry aborts the whole
  load, because nothing catches the exception, and the model does the same.
- Face edge ranges. The code checks `firstEdge` against the surf-edge table but never
  `firstEdge + numEdges` (src/formats/bsp/BSPFile.cpp:274-295); see `BspLoader.CollectFaceVertexes`
  above.
- Palette positions. The BSP and WAD decoders compute the palette position by different
  formulas, and the two agree only for sizes that are multiples of 8. Each decoder is modelled
  with its own formula (`Miptex.MipDataSizeDiffersForSmallSizes`).

## Findings

| source | as written | input that shows it | evidently intended | confidence | as-written member | corrected member |
|---|---|---|---|---|---|---|
| src/formats/bsp/BSPFile.cpp:373 | `firstFace + faceCount` is summed as a 32-bit `int` before it is compared with the face count; signed overflow is undefined and in practice wraps | a model with firstFace 1 and faceCount 0x7FFFFFFF in a level with 2 faces: the sum wraps negative, the check passes, and the face span runs past the table | the range check holds in unbounded arithmetic, so every model's faces lie in the face table | high, not executed | `BspFindings.FaceRangeAsWrittenAcceptsOverrun` | `BspFindings.FaceRangeOkIsInBounds` |
