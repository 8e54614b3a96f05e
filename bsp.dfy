/** The Half-Life BSP version 30 level format (src/formats/bsp/BSPFile.hpp and BSPFile.cpp):
    the decoded data model and, lump by lump, what a successful decode yields.

    Pointers and spans of the source are validated indices here: a texture info names its
    texture by index, a face its texture info, and a model its faces by (first, count). */
module Bsp {
  import opened Wrappers
  import opened Bytes
  import opened BinaryReader
  import opened Colormap
  import opened Miptex

  const BspVersion: int := 30
  const BspLumpCount: nat := 15
  const BspMipLevelCount: nat := MipLevelCount

  /** Record sizes in bytes. */
  const LumpEntrySize: nat := 8
  const MiptexHeaderSize: nat := 40
  const TextureInfoSize: nat := 40
  const VertexSize: nat := 12
  const EdgeSize: nat := 4
  const SurfEdgeSize: nat := 4
  const BspFaceSize: nat := 20
  const BspModelSize: nat := 64

  /** Positions of the lumps the decoder uses in the 15-slot directory. */
  const EntitiesLump: nat := 0
  const TexturesLump: nat := 2
  const VertexesLump: nat := 3
  const TexInfoLump: nat := 6
  const FacesLump: nat := 7
  const EdgesLump: nat := 12
  const SurfEdgesLump: nat := 13
  const ModelsLump: nat := 14

  /** A directory entry; the decoder only keeps entries whose two fields are non-negative. */
  datatype Lump = Lump(offset: nat, size: nat)

  datatype Vec3 = Vec3(x: Float32, y: Float32, z: Float32)

  /** `mips` holds the four mip levels; a texture without embedded pixels has four empty
      levels and an empty colormap. */
  datatype Texture = Texture(name: string, width: nat, height: nat, mips: seq<seq<byte>>, colormap: seq<Rgb>)

  datatype TextureInfo = TextureInfo(vertices: seq<Vec3>, stCoordinates: seq<Float32>, texture: nat, flags: int)

  /** An edge as stored: two unsigned 16-bit vertex indices. Internal to the decoder. */
  datatype Edge = Edge(v0: nat, v1: nat)

  datatype Face = Face(vertexes: seq<Vec3>, textureInfo: nat)

  /** A model's faces are the range faces[firstFace .. firstFace + faceCount]. */
  datatype Model = Model(mins: Vec3, maxs: Vec3, origin: Vec3, firstFace: nat, faceCount: nat)

  datatype BspFile = BspFile(entities: string, textures: seq<Texture>, textureInfos: seq<TextureInfo>,
                             faces: seq<Face>, models: seq<Model>)

  function Vec3At(data: seq<byte>, p: nat): Vec3
    requires p + 12 <= |data|
  {
    Vec3(FloatAt(data, p), FloatAt(data, p + 4), FloatAt(data, p + 8))
  }

  // ---------------------------------------------------------------- header

  /** Directory slot k: two int32 read at 4 + 8k, both required to be non-negative. */
  predicate LumpOk(data: seq<byte>, k: nat) {
    4 + LumpEntrySize * k + 8 <= |data|
    && IntAt(data, 4 + LumpEntrySize * k, 4) >= 0
    && IntAt(data, 8 + LumpEntrySize * k, 4) >= 0
  }

  function LumpAt(data: seq<byte>, k: nat): Lump
    requires LumpOk(data, k)
  {
    Lump(IntAt(data, 4 + LumpEntrySize * k, 4) as nat, IntAt(data, 8 + LumpEntrySize * k, 4) as nat)
  }

  predicate HeaderOk(data: seq<byte>) {
    4 <= |data| && IntAt(data, 0, 4) == BspVersion
    && forall k | 0 <= k < BspLumpCount :: LumpOk(data, k)
  }

  function LumpsSpec(data: seq<byte>): (r: Option<seq<Lump>>)
    ensures r.Some? ==> |r.value| == BspLumpCount
  {
    if HeaderOk(data) then Some(seq(BspLumpCount, k requires 0 <= k < BspLumpCount => LumpAt(data, k)))
    else None
  }

  // ---------------------------------------------------------------- entities

  /** The stored text without its terminating NUL: max(0, size - 1) bytes. */
  function EntitiesLength(lump: Lump): nat {
    if lump.size > 0 then lump.size - 1 else 0
  }

  function EntitiesSpec(data: seq<byte>, lump: Lump): Option<string> {
    if CanRead(data, lump.offset, EntitiesLength(lump))
    then Some(Chars(data[lump.offset..lump.offset + EntitiesLength(lump)]))
    else None
  }

  // ---------------------------------------------------------------- textures

  /** Where the directory stores the offset of texture i: 4 * (i + 1) past the lump start. */
  function TextureDirPos(lump: Lump, i: nat): nat {
    lump.offset + 4 * (i + 1)
  }

  /** The miptex header at t: a 16-byte name, width, height, four mip offsets. */
  function TexWidth(data: seq<byte>, t: nat): nat requires t + MiptexHeaderSize <= |data| {
    UIntAt(data, t + 16, 4)
  }

  function TexHeight(data: seq<byte>, t: nat): nat requires t + MiptexHeaderSize <= |data| {
    UIntAt(data, t + 20, 4)
  }

  function MipOffset(data: seq<byte>, t: nat, level: nat): nat
    requires t + MiptexHeaderSize <= |data| && level < BspMipLevelCount
  {
    UIntAt(data, t + 24 + 4 * level, 4)
  }

  function MipPos(data: seq<byte>, t: nat, level: nat): nat
    requires t + MiptexHeaderSize <= |data| && level < BspMipLevelCount
  {
    t + MipOffset(data, t, level)
  }

  predicate MipLevelOk(data: seq<byte>, t: nat, level: nat)
    requires t + MiptexHeaderSize <= |data| && level < BspMipLevelCount
  {
    MipOffset(data, t, level) != 0
    && CanRead(data, MipPos(data, t, level), MipPixels(TexWidth(data, t), TexHeight(data, t), level))
  }

  function MipData(data: seq<byte>, t: nat, level: nat): (pixels: seq<byte>)
    requires t + MiptexHeaderSize <= |data| && level < BspMipLevelCount
    requires MipLevelOk(data, t, level)
    ensures |pixels| == MipPixels(TexWidth(data, t), TexHeight(data, t), level)
  {
    var p := MipPos(data, t, level);
    data[p..p + MipPixels(TexWidth(data, t), TexHeight(data, t), level)]
  }

  /** The colormap follows at mipOffset[0] + width * height / 64 * 85 + 2 (past a 2-byte colour count). */
  function TextureColormapPos(data: seq<byte>, t: nat): nat
    requires t + MiptexHeaderSize <= |data|
  {
    t + MipOffset(data, t, 0) + MipDataSize(TexWidth(data, t), TexHeight(data, t)) + 2
  }

  /** Whether the directory slot of texture i is readable and points inside the lump. */
  predicate TextureDirOk(data: seq<byte>, lump: Lump, i: nat) {
    TextureDirPos(lump, i) + 4 <= |data|
    && 0 <= IntAt(data, TextureDirPos(lump, i), 4) < lump.size
  }

  function TexturePos(data: seq<byte>, lump: Lump, i: nat): nat
    requires TextureDirOk(data, lump, i)
  {
    lump.offset + IntAt(data, TextureDirPos(lump, i), 4)
  }

  /** The pixel data of a miptex with a non-zero first mip offset: four mip levels and the colormap. */
  predicate MiptexPixelsOk(data: seq<byte>, t: nat)
    requires t + MiptexHeaderSize <= |data|
  {
    (forall level | 0 <= level < BspMipLevelCount :: MipLevelOk(data, t, level))
    && CanRead(data, TextureColormapPos(data, t), ColormapSize)
  }

  /** A miptex at t; one whose first mip offset is 0 has no pixel data in the file. */
  predicate MiptexOk(data: seq<byte>, t: nat) {
    t + MiptexHeaderSize <= |data|
    && (MipOffset(data, t, 0) != 0 ==> MiptexPixelsOk(data, t))
  }

  function MiptexAt(data: seq<byte>, t: nat): Texture
    requires MiptexOk(data, t)
  {
    var name := Chars(UntilNul(data[t..t + 16]));
    if MipOffset(data, t, 0) == 0 then
      Texture(name, TexWidth(data, t), TexHeight(data, t), [[], [], [], []], [])
    else
      Texture(name, TexWidth(data, t), TexHeight(data, t),
              seq(BspMipLevelCount, level requires 0 <= level < BspMipLevelCount => MipData(data, t, level)),
              ColormapAt(data, TextureColormapPos(data, t)))
  }

  predicate TextureOk(data: seq<byte>, lump: Lump, i: nat) {
    TextureDirOk(data, lump, i) && MiptexOk(data, TexturePos(data, lump, i))
  }

  function TextureAt(data: seq<byte>, lump: Lump, i: nat): Texture
    requires TextureOk(data, lump, i)
  {
    MiptexAt(data, TexturePos(data, lump, i))
  }

  predicate TexturesOk(data: seq<byte>, lump: Lump) {
    lump.offset + 4 <= |data|
    && var count := IntAt(data, lump.offset, 4);
    count >= 0 && forall i | 0 <= i < count :: TextureOk(data, lump, i)
  }

  function TexturesSpec(data: seq<byte>, lump: Lump): Option<seq<Texture>> {
    if TexturesOk(data, lump) then
      var count := IntAt(data, lump.offset, 4);
      Some(seq(count, i requires 0 <= i < count => TextureAt(data, lump, i)))
    else None
  }

  // ---------------------------------------------------------------- texture infos

  function TextureInfoPos(lump: Lump, k: nat): nat {
    lump.offset + TextureInfoSize * k
  }

  function TextureIndexAt(data: seq<byte>, lump: Lump, k: nat): int
    requires TextureInfoPos(lump, k) + TextureInfoSize <= |data|
  {
    IntAt(data, TextureInfoPos(lump, k) + 32, 4)
  }

  predicate TextureInfoOk(data: seq<byte>, lump: Lump, textureCount: nat, k: nat) {
    TextureInfoPos(lump, k) + TextureInfoSize <= |data|
    && 0 <= TextureIndexAt(data, lump, k) < textureCount
  }

  function TextureInfoAt(data: seq<byte>, lump: Lump, textureCount: nat, k: nat): TextureInfo
    requires TextureInfoOk(data, lump, textureCount, k)
  {
    var p := TextureInfoPos(lump, k);
    TextureInfo([Vec3At(data, p), Vec3At(data, p + 16)], [FloatAt(data, p + 12), FloatAt(data, p + 28)],
                TextureIndexAt(data, lump, k) as nat, IntAt(data, p + 36, 4))
  }

  predicate TextureInfosOk(data: seq<byte>, lump: Lump, textureCount: nat) {
    lump.offset <= |data|
    && forall k | 0 <= k < lump.size / TextureInfoSize :: TextureInfoOk(data, lump, textureCount, k)
  }

  function TextureInfosSpec(data: seq<byte>, lump: Lump, textureCount: nat): Option<seq<TextureInfo>> {
    if TextureInfosOk(data, lump, textureCount) then
      Some(seq(lump.size / TextureInfoSize, k requires 0 <= k < lump.size / TextureInfoSize =>
        TextureInfoAt(data, lump, textureCount, k)))
    else None
  }

  // ---------------------------------------------------------------- vertexes, edges, surf-edges

  function VertexesSpec(data: seq<byte>, lump: Lump): Option<seq<Vec3>> {
    var count := lump.size / VertexSize;
    if lump.offset + VertexSize * count <= |data| then
      Some(seq(count, k requires 0 <= k < count => Vec3At(data, lump.offset + VertexSize * k)))
    else None
  }

  function EdgeAt(data: seq<byte>, p: nat): Edge
    requires p + EdgeSize <= |data|
  {
    Edge(UIntAt(data, p, 2), UIntAt(data, p + 2, 2))
  }

  function EdgesSpec(data: seq<byte>, lump: Lump): Option<seq<Edge>> {
    var count := lump.size / EdgeSize;
    if lump.offset + EdgeSize * count <= |data| then
      Some(seq(count, k requires 0 <= k < count => EdgeAt(data, lump.offset + EdgeSize * k)))
    else None
  }

  /** The whole lump is read in one `ReadBytes(size)`. A size that is not a multiple of 4 would
      make the source copy past the end of its int vector; the model fails instead. */
  function SurfEdgesSpec(data: seq<byte>, lump: Lump): Option<seq<int>> {
    var count := lump.size / SurfEdgeSize;
    if CanRead(data, lump.offset, lump.size) && lump.size % SurfEdgeSize == 0 then
      Some(seq(count, k requires 0 <= k < count => IntAt(data, lump.offset + SurfEdgeSize * k, 4)))
    else None
  }

  // ---------------------------------------------------------------- faces

  function Abs(x: int): nat {
    if x < 0 then -x else x
  }

  /** The vertex a surf-edge contributes: the edge's first vertex when traversed forwards
      (surf-edge >= 0), its second when traversed backwards. */
  function SurfEdgeVertex(edges: seq<Edge>, surfEdge: int): nat
    requires Abs(surfEdge) < |edges|
  {
    if surfEdge >= 0 then edges[surfEdge].v0 else edges[-surfEdge].v1
  }

  predicate SurfEdgeOk(vertexCount: nat, edges: seq<Edge>, surfEdge: int) {
    Abs(surfEdge) < |edges| && SurfEdgeVertex(edges, surfEdge) < vertexCount
  }

  function FacePos(lump: Lump, k: nat): nat {
    lump.offset + BspFaceSize * k
  }

  function FirstEdgeAt(data: seq<byte>, lump: Lump, k: nat): int
    requires FacePos(lump, k) + BspFaceSize <= |data|
  {
    IntAt(data, FacePos(lump, k) + 4, 4)
  }

  function NumEdgesAt(data: seq<byte>, lump: Lump, k: nat): int
    requires FacePos(lump, k) + BspFaceSize <= |data|
  {
    IntAt(data, FacePos(lump, k) + 8, 2)
  }

  function FaceTexInfoAt(data: seq<byte>, lump: Lump, k: nat): int
    requires FacePos(lump, k) + BspFaceSize <= |data|
  {
    IntAt(data, FacePos(lump, k) + 10, 2)
  }

  /** The surf-edges firstEdge .. firstEdge + numEdges - 1 exist and each leads to an existing
      vertex: checks the source lacks, which the model turns into failures. */
  predicate FaceEdgesOk(vertexes: seq<Vec3>, edges: seq<Edge>, surfEdges: seq<int>, firstEdge: int, numEdges: int) {
    0 <= firstEdge && 0 <= numEdges && firstEdge + numEdges <= |surfEdges|
    && forall i | firstEdge <= i < firstEdge + numEdges :: SurfEdgeOk(|vertexes|, edges, surfEdges[i])
  }

  /** The face's vertex loop: one vertex per surf-edge, in surf-edge order. */
  function FaceVertexes(vertexes: seq<Vec3>, edges: seq<Edge>, surfEdges: seq<int>, firstEdge: int, numEdges: int)
    : seq<Vec3>
    requires FaceEdgesOk(vertexes, edges, surfEdges, firstEdge, numEdges)
  {
    seq(numEdges, i requires 0 <= i < numEdges => vertexes[SurfEdgeVertex(edges, surfEdges[firstEdge + i])])
  }

  /** Face k: the checks of the source, then the surf-edge and vertex checks it lacks. */
  predicate FaceOk(data: seq<byte>, lump: Lump, k: nat, vertexes: seq<Vec3>, edges: seq<Edge>,
                   surfEdges: seq<int>, textureInfoCount: nat) {
    FacePos(lump, k) + BspFaceSize <= |data|
    && 0 <= FirstEdgeAt(data, lump, k) < |surfEdges|
    && NumEdgesAt(data, lump, k) >= 0
    && 0 <= FaceTexInfoAt(data, lump, k) < textureInfoCount
    && FaceEdgesOk(vertexes, edges, surfEdges, FirstEdgeAt(data, lump, k), NumEdgesAt(data, lump, k))
  }

  function FaceAt(data: seq<byte>, lump: Lump, k: nat, vertexes: seq<Vec3>, edges: seq<Edge>,
                  surfEdges: seq<int>, textureInfoCount: nat): Face
    requires FaceOk(data, lump, k, vertexes, edges, surfEdges, textureInfoCount)
  {
    Face(FaceVertexes(vertexes, edges, surfEdges, FirstEdgeAt(data, lump, k), NumEdgesAt(data, lump, k)),
         FaceTexInfoAt(data, lump, k) as nat)
  }

  predicate FaceTableOk(data: seq<byte>, lump: Lump, vertexes: seq<Vec3>, edges: seq<Edge>,
                        surfEdges: seq<int>, textureInfoCount: nat) {
    lump.offset <= |data|
    && forall k | 0 <= k < lump.size / BspFaceSize ::
         FaceOk(data, lump, k, vertexes, edges, surfEdges, textureInfoCount)
  }

  function FacesSpec(data: seq<byte>, lumps: seq<Lump>, textureInfoCount: nat): Option<seq<Face>>
    requires |lumps| == BspLumpCount
  {
    var vertexes :- VertexesSpec(data, lumps[VertexesLump]);
    var edges :- EdgesSpec(data, lumps[EdgesLump]);
    var surfEdges :- SurfEdgesSpec(data, lumps[SurfEdgesLump]);
    var lump := lumps[FacesLump];
    if FaceTableOk(data, lump, vertexes, edges, surfEdges, textureInfoCount) then
      Some(seq(lump.size / BspFaceSize, k requires 0 <= k < lump.size / BspFaceSize =>
        FaceAt(data, lump, k, vertexes, edges, surfEdges, textureInfoCount)))
    else None
  }

  // ---------------------------------------------------------------- models

  function ModelPos(lump: Lump, k: nat): nat {
    lump.offset + BspModelSize * k
  }

  function FirstFaceAt(data: seq<byte>, lump: Lump, k: nat): int
    requires ModelPos(lump, k) + BspModelSize <= |data|
  {
    IntAt(data, ModelPos(lump, k) + 56, 4)
  }

  function FaceCountAt(data: seq<byte>, lump: Lump, k: nat): int
    requires ModelPos(lump, k) + BspModelSize <= |data|
  {
    IntAt(data, ModelPos(lump, k) + 60, 4)
  }

  /** The checks on a model's face range, with the sum taken without 32-bit overflow. */
  predicate FaceRangeOk(firstFace: int, count: int, faceCount: nat) {
    0 <= firstFace < faceCount && count >= 0 && firstFace + count <= faceCount
  }

  predicate ModelOk(data: seq<byte>, lump: Lump, faceCount: nat, k: nat) {
    ModelPos(lump, k) + BspModelSize <= |data|
    && FaceRangeOk(FirstFaceAt(data, lump, k), FaceCountAt(data, lump, k), faceCount)
  }

  function ModelAt(data: seq<byte>, lump: Lump, faceCount: nat, k: nat): Model
    requires ModelOk(data, lump, faceCount, k)
  {
    var p := ModelPos(lump, k);
    Model(Vec3At(data, p), Vec3At(data, p + 12), Vec3At(data, p + 24),
          FirstFaceAt(data, lump, k) as nat, FaceCountAt(data, lump, k) as nat)
  }

  predicate ModelsOk(data: seq<byte>, lump: Lump, faceCount: nat) {
    lump.offset <= |data|
    && forall k | 0 <= k < lump.size / BspModelSize :: ModelOk(data, lump, faceCount, k)
  }

  function ModelsSpec(data: seq<byte>, lump: Lump, faceCount: nat): Option<seq<Model>> {
    if ModelsOk(data, lump, faceCount) then
      Some(seq(lump.size / BspModelSize, k requires 0 <= k < lump.size / BspModelSize =>
        ModelAt(data, lump, faceCount, k)))
    else None
  }

  // ---------------------------------------------------------------- whole file

  /** The stages in the order the source runs them; any failure fails the whole decode. */
  function BspSpec(data: seq<byte>): Option<BspFile> {
    var lumps :- LumpsSpec(data);
    var entities :- EntitiesSpec(data, lumps[EntitiesLump]);
    var textures :- TexturesSpec(data, lumps[TexturesLump]);
    var textureInfos :- TextureInfosSpec(data, lumps[TexInfoLump], |textures|);
    var faces :- FacesSpec(data, lumps, |textureInfos|);
    var models :- ModelsSpec(data, lumps[ModelsLump], |faces|);
    Some(BspFile(entities, textures, textureInfos, faces, models))
  }
}
