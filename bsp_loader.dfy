/** The BSP decoder as the source runs it (src/formats/bsp/BSPFile.cpp): one reader over the
    whole file, moved with `SetPosition` from lump to lump; tables the source `resize`s and then
    fills are arrays here, lists it `push_back`s onto are sequences. Every method is proved to
    yield exactly what the matching specification function of module Bsp describes. */
module BspLoader {
  import opened Wrappers
  import opened Bytes
  import opened BinaryReader
  import opened Colormap
  import opened Miptex
  import opened Bsp

  method TryLoadEntities(reader: Reader, lump: Lump) returns (r: Option<string>)
    requires reader.Valid()
    modifies reader
    ensures reader.Valid()
    ensures r == EntitiesSpec(reader.data, lump)
  {
    var length := if lump.size > 0 then lump.size - 1 else 0;
    var ok := reader.SetPosition(lump.offset);
    if !ok { return None; }
    var bytes :- reader.ReadBytes(length);
    return Some(Chars(bytes));
  }

  /** The four mip levels of the miptex at t, read at the offsets already in `mipLevelOffsets`. */
  method ReadMipLevels(reader: Reader, t: nat, width: nat, height: nat, mipLevelOffsets: array<nat>)
    returns (r: Option<seq<seq<byte>>>)
    requires reader.Valid() && t + MiptexHeaderSize <= |reader.data|
    requires width == TexWidth(reader.data, t) && height == TexHeight(reader.data, t)
    requires mipLevelOffsets.Length == BspMipLevelCount
    requires forall l | 0 <= l < BspMipLevelCount :: mipLevelOffsets[l] == MipOffset(reader.data, t, l)
    modifies reader
    ensures reader.Valid()
    ensures r.Some? <==> forall level | 0 <= level < BspMipLevelCount :: MipLevelOk(reader.data, t, level)
    ensures r.Some? ==> r.value == seq(BspMipLevelCount, level requires 0 <= level < BspMipLevelCount =>
                                     MipData(reader.data, t, level))
  {
    var textureDatas := new seq<byte>[BspMipLevelCount](_ => []);
    for level := 0 to BspMipLevelCount
      invariant reader.Valid()
      invariant forall l | 0 <= l < level ::
                  MipLevelOk(reader.data, t, l) && textureDatas[l] == MipData(reader.data, t, l)
    {
      if mipLevelOffsets[level] == 0 {
        assert !MipLevelOk(reader.data, t, level);
        return None;
      }
      var ok := reader.SetPosition(t + mipLevelOffsets[level]);
      if !ok {
        assert !MipLevelOk(reader.data, t, level);
        return None;
      }
      var pixels := reader.ReadBytes(MipPixels(width, height, level));
      if pixels.None? {
        assert !MipLevelOk(reader.data, t, level);
        return None;
      }
      textureDatas[level] := pixels.value;
    }
    return Some(textureDatas[..]);
  }

  /** The four uint32 mip offsets of a miptex header, into `mipLevelOffsets`. */
  method ReadMipOffsets(reader: Reader, mipLevelOffsets: array<nat>) returns (ok: bool)
    requires reader.Valid() && mipLevelOffsets.Length == BspMipLevelCount
    modifies reader, mipLevelOffsets
    ensures reader.Valid()
    ensures ok <==> CanRead(reader.data, old(reader.pos), 4 * BspMipLevelCount)
    ensures ok ==> reader.pos == old(reader.pos) + 4 * BspMipLevelCount
    ensures ok ==> forall l | 0 <= l < BspMipLevelCount ::
                     mipLevelOffsets[l] == UIntAt(reader.data, old(reader.pos) + 4 * l, 4)
  {
    ghost var start := reader.pos;
    for level := 0 to BspMipLevelCount
      invariant reader.Valid() && reader.pos == start + 4 * level
      invariant forall l | 0 <= l < level :: mipLevelOffsets[l] == UIntAt(reader.data, start + 4 * l, 4)
    {
      var mipOffset := reader.ReadUInt32();
      if mipOffset.None? { return false; }
      mipLevelOffsets[level] := mipOffset.value;
    }
    return true;
  }

  /** The directory slot of texture i, which must point inside the lump. */
  method ReadTextureOffset(reader: Reader, lump: Lump, i: nat) returns (r: Option<nat>)
    requires reader.Valid()
    modifies reader
    ensures reader.Valid()
    ensures r.Some? <==> TextureDirOk(reader.data, lump, i)
    ensures r.Some? ==> r.value == TexturePos(reader.data, lump, i)
  {
    var ok := reader.SetPosition(TextureDirPos(lump, i));
    if !ok { return None; }
    var offset :- reader.ReadInt32();
    if offset < 0 || offset >= lump.size { return None; }
    return Some(lump.offset + offset);
  }

  /** The mip levels and the colormap of a miptex whose first mip offset is not 0. */
  method ReadMiptexPixels(reader: Reader, t: nat, width: nat, height: nat, mipLevelOffsets: array<nat>)
    returns (r: Option<(seq<seq<byte>>, seq<Rgb>)>)
    requires reader.Valid() && t + MiptexHeaderSize <= |reader.data|
    requires width == TexWidth(reader.data, t) && height == TexHeight(reader.data, t)
    requires mipLevelOffsets.Length == BspMipLevelCount
    requires forall l | 0 <= l < BspMipLevelCount :: mipLevelOffsets[l] == MipOffset(reader.data, t, l)
    modifies reader
    ensures reader.Valid()
    ensures r.Some? <==> MiptexPixelsOk(reader.data, t)
    ensures r.Some? ==> r.value.0 == seq(BspMipLevelCount, level requires 0 <= level < BspMipLevelCount =>
                                              MipData(reader.data, t, level))
                        && r.value.1 == ColormapAt(reader.data, TextureColormapPos(reader.data, t))
  {
    var mips :- ReadMipLevels(reader, t, width, height, mipLevelOffsets);
    var colormapOffset := t + mipLevelOffsets[0] + MipDataSize(width, height) + 2;
    var ok := reader.SetPosition(colormapOffset);
    if !ok { return None; }
    var colormap :- ReadColormap(reader);
    return Some((mips, colormap));
  }

  /** A miptex header at t (name, width, height, four mip offsets), then its pixel data. */
  method ReadMiptex(reader: Reader, t: nat, mipLevelOffsets: array<nat>) returns (r: Option<Texture>)
    requires reader.Valid() && mipLevelOffsets.Length == BspMipLevelCount
    modifies reader, mipLevelOffsets
    ensures reader.Valid()
    ensures r.Some? <==> MiptexOk(reader.data, t)
    ensures r.Some? ==> r.value == MiptexAt(reader.data, t)
  {
    var ok := reader.SetPosition(t);
    if !ok { return None; }
    var name :- reader.ReadFixedUTF8String(16);
    var width :- reader.ReadUInt32();
    var height :- reader.ReadUInt32();
    ok := ReadMipOffsets(reader, mipLevelOffsets);
    if !ok { return None; }
    if mipLevelOffsets[0] == 0 {
      return Some(Texture(name, width, height, [[], [], [], []], []));
    }
    var pixels :- ReadMiptexPixels(reader, t, width, height, mipLevelOffsets);
    return Some(Texture(name, width, height, pixels.0, pixels.1));
  }

  /** One iteration of the texture loop. `mipLevelOffsets` is the four-entry array the source
      declares once outside the loop. */
  method ReadTexture(reader: Reader, lump: Lump, i: nat, mipLevelOffsets: array<nat>) returns (r: Option<Texture>)
    requires reader.Valid() && mipLevelOffsets.Length == BspMipLevelCount
    modifies reader, mipLevelOffsets
    ensures reader.Valid()
    ensures r.Some? <==> TextureOk(reader.data, lump, i)
    ensures r.Some? ==> r.value == TextureAt(reader.data, lump, i)
  {
    var textureOffset :- ReadTextureOffset(reader, lump, i);
    r := ReadMiptex(reader, textureOffset, mipLevelOffsets);
  }

  method TryLoadTextures(reader: Reader, lump: Lump) returns (r: Option<seq<Texture>>)
    requires reader.Valid()
    modifies reader
    ensures reader.Valid()
    ensures r == TexturesSpec(reader.data, lump)
  {
    var ok := reader.SetPosition(lump.offset);
    if !ok { return None; }
    var textureCount :- reader.ReadInt32();
    if textureCount < 0 { return None; }
    var textures := new Texture[textureCount](_ => Texture([], 0, 0, [], []));
    var mipLevelOffsets := new nat[BspMipLevelCount](_ => 0);
    for i := 0 to textureCount
      invariant reader.Valid()
      invariant forall j | 0 <= j < i :: TextureOk(reader.data, lump, j) && textures[j] == TextureAt(reader.data, lump, j)
    {
      var texture := ReadTexture(reader, lump, i, mipLevelOffsets);
      if texture.None? { return None; }
      textures[i] := texture.value;
    }
    assert textures[..] == TexturesSpec(reader.data, lump).value;
    return Some(textures[..]);
  }

  /** Three consecutive floats. */
  method ReadVec3(reader: Reader) returns (r: Option<Vec3>)
    requires reader.Valid()
    modifies reader
    ensures reader.Valid()
    ensures r.Some? <==> CanRead(reader.data, old(reader.pos), 12)
    ensures r.Some? ==> r.value == Vec3At(reader.data, old(reader.pos)) && reader.pos == old(reader.pos) + 12
  {
    var x :- reader.ReadFloat();
    var y :- reader.ReadFloat();
    var z :- reader.ReadFloat();
    return Some(Vec3(x, y, z));
  }

  /** One texture axis: a direction and an offset along it. */
  method ReadTextureAxis(reader: Reader) returns (r: Option<(Vec3, Float32)>)
    requires reader.Valid()
    modifies reader
    ensures reader.Valid()
    ensures r.Some? <==> old(reader.pos) + 16 <= |reader.data|
    ensures r.Some? ==> r.value == (Vec3At(reader.data, old(reader.pos)), FloatAt(reader.data, old(reader.pos) + 12))
    ensures r.Some? ==> reader.pos == old(reader.pos) + 16
  {
    var vertex :- ReadVec3(reader);
    var st :- reader.ReadFloat();
    return Some((vertex, st));
  }

  /** The two texture axes of a texture info. */
  method ReadTextureAxes(reader: Reader) returns (r: Option<(seq<Vec3>, seq<Float32>)>)
    requires reader.Valid()
    modifies reader
    ensures reader.Valid()
    ensures r.Some? <==> old(reader.pos) + 32 <= |reader.data|
    ensures r.Some? ==> reader.pos == old(reader.pos) + 32
    ensures r.Some? ==> r.value.0 == [Vec3At(reader.data, old(reader.pos)), Vec3At(reader.data, old(reader.pos) + 16)]
    ensures r.Some? ==> r.value.1 == [FloatAt(reader.data, old(reader.pos) + 12), FloatAt(reader.data, old(reader.pos) + 28)]
  {
    ghost var start := reader.pos;
    var vertices: seq<Vec3> := [];
    var stCoordinates: seq<Float32> := [];
    for dataIndex := 0 to 2
      invariant reader.Valid() && reader.pos == start + 16 * dataIndex
      invariant |vertices| == dataIndex && |stCoordinates| == dataIndex
      invariant forall d | 0 <= d < dataIndex ::
                  vertices[d] == Vec3At(reader.data, start + 16 * d)
                  && stCoordinates[d] == FloatAt(reader.data, start + 16 * d + 12)
    {
      var axis :- ReadTextureAxis(reader);
      vertices := vertices + [axis.0];
      stCoordinates := stCoordinates + [axis.1];
    }
    return Some((vertices, stCoordinates));
  }

  /** One 40-byte record: two (vector, offset) pairs, the texture index, the flags. */
  method ReadTextureInfo(reader: Reader, lump: Lump, textureCount: nat, ghost k: nat) returns (r: Option<TextureInfo>)
    requires reader.Valid() && reader.pos == TextureInfoPos(lump, k)
    modifies reader
    ensures reader.Valid()
    ensures r.Some? <==> TextureInfoOk(reader.data, lump, textureCount, k)
    ensures r.Some? ==> r.value == TextureInfoAt(reader.data, lump, textureCount, k)
    ensures r.Some? ==> reader.pos == old(reader.pos) + TextureInfoSize
  {
    var axes :- ReadTextureAxes(reader);
    var textureIndex :- reader.ReadInt32();
    if textureIndex < 0 || textureIndex >= textureCount { return None; }
    var flags :- reader.ReadInt32();
    return Some(TextureInfo(axes.0, axes.1, textureIndex, flags));
  }

  method TryLoadTextureInfos(reader: Reader, lump: Lump, textureCount: nat) returns (r: Option<seq<TextureInfo>>)
    requires reader.Valid()
    modifies reader
    ensures reader.Valid()
    ensures r == TextureInfosSpec(reader.data, lump, textureCount)
  {
    var ok := reader.SetPosition(lump.offset);
    if !ok { return None; }
    var count := lump.size / TextureInfoSize;
    var textureInfos := new TextureInfo[count](_ => TextureInfo([], [], 0, 0));
    for k := 0 to count
      invariant reader.Valid() && reader.pos == TextureInfoPos(lump, k)
      invariant forall j | 0 <= j < k ::
                  TextureInfoOk(reader.data, lump, textureCount, j)
                  && textureInfos[j] == TextureInfoAt(reader.data, lump, textureCount, j)
    {
      var info := ReadTextureInfo(reader, lump, textureCount, k);
      if info.None? { return None; }
      textureInfos[k] := info.value;
    }
    assert textureInfos[..] == TextureInfosSpec(reader.data, lump, textureCount).value;
    return Some(textureInfos[..]);
  }

  method LoadVertexes(reader: Reader, lump: Lump) returns (r: Option<seq<Vec3>>)
    requires reader.Valid()
    modifies reader
    ensures reader.Valid()
    ensures r == VertexesSpec(reader.data, lump)
  {
    var ok := reader.SetPosition(lump.offset);
    if !ok { return None; }
    var count := lump.size / VertexSize;
    var vertexes := new Vec3[count](_ => Vec3(Float32(0), Float32(0), Float32(0)));
    for k := 0 to count
      invariant reader.Valid() && reader.pos == lump.offset + VertexSize * k
      invariant forall j | 0 <= j < k :: vertexes[j] == Vec3At(reader.data, lump.offset + VertexSize * j)
    {
      var vertex :- ReadVec3(reader);
      vertexes[k] := vertex;
    }
    assert vertexes[..] == VertexesSpec(reader.data, lump).value;
    return Some(vertexes[..]);
  }

  method LoadEdges(reader: Reader, lump: Lump) returns (r: Option<seq<Edge>>)
    requires reader.Valid()
    modifies reader
    ensures reader.Valid()
    ensures r == EdgesSpec(reader.data, lump)
  {
    var ok := reader.SetPosition(lump.offset);
    if !ok { return None; }
    var count := lump.size / EdgeSize;
    var edges := new Edge[count](_ => Edge(0, 0));
    for k := 0 to count
      invariant reader.Valid() && reader.pos == lump.offset + EdgeSize * k
      invariant forall j | 0 <= j < k :: edges[j] == EdgeAt(reader.data, lump.offset + EdgeSize * j)
    {
      var v0 :- reader.ReadUInt16();
      var v1 :- reader.ReadUInt16();
      edges[k] := Edge(v0, v1);
    }
    assert edges[..] == EdgesSpec(reader.data, lump).value;
    return Some(edges[..]);
  }

  /** One `ReadBytes` of the whole lump reinterpreted as int32 values. */
  method LoadSurfEdges(reader: Reader, lump: Lump) returns (r: Option<seq<int>>)
    requires reader.Valid()
    modifies reader
    ensures reader.Valid()
    ensures r == SurfEdgesSpec(reader.data, lump)
  {
    var ok := reader.SetPosition(lump.offset);
    if !ok { return None; }
    var count := lump.size / SurfEdgeSize;
    var bytes :- reader.ReadBytes(lump.size);
    // The source copies `size` bytes into a vector of size / 4 ints; when size is not a
    // multiple of 4 that copy runs past the vector. The model fails here instead.
    if lump.size % SurfEdgeSize != 0 { return None; }
    var surfEdges := seq(count, k requires 0 <= k < count => IntAt(bytes, SurfEdgeSize * k, 4));
    assert bytes == reader.data[lump.offset..lump.offset + lump.size];
    forall k | 0 <= k < count
      ensures surfEdges[k] == IntAt(reader.data, lump.offset + SurfEdgeSize * k, 4)
    {
      assert bytes[SurfEdgeSize * k..SurfEdgeSize * k + 4]
          == reader.data[lump.offset + SurfEdgeSize * k..lump.offset + SurfEdgeSize * k + 4];
    }
    assert surfEdges == SurfEdgesSpec(reader.data, lump).value;
    return Some(surfEdges);
  }

  /** The face's vertex loop: for each surf-edge, the vertex it starts from. */
  method CollectFaceVertexes(vertexes: seq<Vec3>, edges: seq<Edge>, surfEdges: seq<int>, firstEdge: nat, numEdges: nat)
    returns (r: Option<seq<Vec3>>)
    requires firstEdge < |surfEdges|
    ensures r.Some? <==> FaceEdgesOk(vertexes, edges, surfEdges, firstEdge, numEdges)
    ensures r.Some? ==> r.value == FaceVertexes(vertexes, edges, surfEdges, firstEdge, numEdges)
  {
    var faceVertexes: seq<Vec3> := [];
    for i := 0 to numEdges
      invariant FaceEdgesOk(vertexes, edges, surfEdges, firstEdge, i)
      invariant faceVertexes == FaceVertexes(vertexes, edges, surfEdges, firstEdge, i)
    {
      // The source indexes surfEdges[firstEdge + i] without checking firstEdge + numEdges.
      if firstEdge + i >= |surfEdges| { return None; }
      var edgeIndex := surfEdges[firstEdge + i];
      // `std::abs` of INT_MIN is undefined; Abs gives 2^31, which the range check below rejects.
      var absoluteEdgeIndex := Abs(edgeIndex);
      if absoluteEdgeIndex >= |edges| {
        assert !SurfEdgeOk(|vertexes|, edges, surfEdges[firstEdge + i]);
        return None;
      }
      var edge := edges[absoluteEdgeIndex];
      var vertexIndex := if edgeIndex >= 0 then edge.v0 else edge.v1;
      // The source indexes vertexes with the edge's vertex index without checking it.
      if vertexIndex >= |vertexes| {
        assert !SurfEdgeOk(|vertexes|, edges, surfEdges[firstEdge + i]);
        return None;
      }
      faceVertexes := faceVertexes + [vertexes[vertexIndex]];
    }
    return Some(faceVertexes);
  }

  /** The fields of one 20-byte face record the decoder keeps: first surf-edge, surf-edge
      count and texture info index (plane, side, four light styles and the light offset are
      read and dropped). */
  method ReadFaceRecord(reader: Reader) returns (r: Option<(int, int, int)>)
    requires reader.Valid()
    modifies reader
    ensures reader.Valid()
    ensures r.Some? <==> CanRead(reader.data, old(reader.pos), BspFaceSize)
    ensures r.Some? ==> reader.pos == old(reader.pos) + BspFaceSize
                        && r.value == (IntAt(reader.data, old(reader.pos) + 4, 4),
                                       IntAt(reader.data, old(reader.pos) + 8, 2),
                                       IntAt(reader.data, old(reader.pos) + 10, 2))
  {
    ghost var start := reader.pos;
    var planeNumber :- reader.ReadInt16();
    var side :- reader.ReadInt16();
    var firstEdge :- reader.ReadInt32();
    var numEdges :- reader.ReadInt16();
    var texInfo :- reader.ReadInt16();
    for style := 0 to 4
      invariant reader.Valid() && reader.pos == start + 12 + style
    {
      var value :- reader.ReadUInt8();
    }
    var lightOffset :- reader.ReadInt32();
    return Some((firstEdge, numEdges, texInfo));
  }

  /** One face record, its checks, then the face's vertexes. */
  method ReadFace(reader: Reader, lump: Lump, ghost k: nat, vertexes: seq<Vec3>, edges: seq<Edge>,
                  surfEdges: seq<int>, textureInfoCount: nat) returns (r: Option<Face>)
    requires reader.Valid() && reader.pos == FacePos(lump, k)
    modifies reader
    ensures reader.Valid()
    ensures r.Some? <==> FaceOk(reader.data, lump, k, vertexes, edges, surfEdges, textureInfoCount)
    ensures r.Some? ==> r.value == FaceAt(reader.data, lump, k, vertexes, edges, surfEdges, textureInfoCount)
    ensures r.Some? ==> reader.pos == old(reader.pos) + BspFaceSize
  {
    var record :- ReadFaceRecord(reader);
    var (firstEdge, numEdges, texInfo) := record;
    if firstEdge < 0 || firstEdge >= |surfEdges| { return None; }
    if numEdges < 0 { return None; }
    if texInfo < 0 || texInfo >= textureInfoCount { return None; }
    var faceVertexes :- CollectFaceVertexes(vertexes, edges, surfEdges, firstEdge, numEdges);
    return Some(Face(faceVertexes, texInfo));
  }

  method TryLoadFaces(reader: Reader, lumps: seq<Lump>, textureInfoCount: nat) returns (r: Option<seq<Face>>)
    requires reader.Valid() && |lumps| == BspLumpCount
    modifies reader
    ensures reader.Valid()
    ensures r == FacesSpec(reader.data, lumps, textureInfoCount)
  {
    var vertexes :- LoadVertexes(reader, lumps[VertexesLump]);
    var edges :- LoadEdges(reader, lumps[EdgesLump]);
    var surfEdges :- LoadSurfEdges(reader, lumps[SurfEdgesLump]);
    var lump := lumps[FacesLump];
    var ok := reader.SetPosition(lump.offset);
    if !ok { return None; }
    var count := lump.size / BspFaceSize;
    var faces := new Face[count](_ => Face([], 0));
    for k := 0 to count
      invariant reader.Valid() && reader.pos == FacePos(lump, k)
      invariant forall j | 0 <= j < k ::
                  FaceOk(reader.data, lump, j, vertexes, edges, surfEdges, textureInfoCount)
                  && faces[j] == FaceAt(reader.data, lump, j, vertexes, edges, surfEdges, textureInfoCount)
    {
      var face := ReadFace(reader, lump, k, vertexes, edges, surfEdges, textureInfoCount);
      if face.None? { return None; }
      faces[k] := face.value;
    }
    assert faces[..] == FacesSpec(reader.data, lumps, textureInfoCount).value;
    return Some(faces[..]);
  }

  /** One 64-byte model record: bounds, origin, four hull head nodes, visleaf count, face range. */
  method ReadModel(reader: Reader, lump: Lump, faceCount: nat, ghost k: nat) returns (r: Option<Model>)
    requires reader.Valid() && reader.pos == ModelPos(lump, k)
    modifies reader
    ensures reader.Valid()
    ensures r.Some? <==> ModelOk(reader.data, lump, faceCount, k)
    ensures r.Some? ==> r.value == ModelAt(reader.data, lump, faceCount, k)
    ensures r.Some? ==> reader.pos == old(reader.pos) + BspModelSize
  {
    ghost var start := reader.pos;
    var mins :- ReadVec3(reader);
    var maxs :- ReadVec3(reader);
    var origin :- ReadVec3(reader);
    for node := 0 to 4
      invariant reader.Valid() && reader.pos == start + 36 + 4 * node
    {
      var headNode :- reader.ReadInt32();
    }
    var visleaf :- reader.ReadInt32();
    var firstFace :- reader.ReadInt32();
    var count :- reader.ReadInt32();
    if firstFace < 0 || firstFace >= faceCount { return None; }
    // Unbounded integers: the source's int sum firstFace + count can overflow (see BspFindings).
    if count < 0 || firstFace + count > faceCount { return None; }
    return Some(Model(mins, maxs, origin, firstFace, count));
  }

  method TryLoadModels(reader: Reader, lump: Lump, faceCount: nat) returns (r: Option<seq<Model>>)
    requires reader.Valid()
    modifies reader
    ensures reader.Valid()
    ensures r == ModelsSpec(reader.data, lump, faceCount)
  {
    var ok := reader.SetPosition(lump.offset);
    if !ok { return None; }
    var count := lump.size / BspModelSize;
    var models := new Model[count](_ => Model(Vec3(Float32(0), Float32(0), Float32(0)),
                                              Vec3(Float32(0), Float32(0), Float32(0)),
                                              Vec3(Float32(0), Float32(0), Float32(0)), 0, 0));
    for k := 0 to count
      invariant reader.Valid() && reader.pos == ModelPos(lump, k)
      invariant forall j | 0 <= j < k ::
                  ModelOk(reader.data, lump, faceCount, j) && models[j] == ModelAt(reader.data, lump, faceCount, j)
    {
      var model := ReadModel(reader, lump, faceCount, k);
      if model.None? { return None; }
      models[k] := model.value;
    }
    assert models[..] == ModelsSpec(reader.data, lump, faceCount).value;
    return Some(models[..]);
  }

  /** The version and the lump directory at the start of the file. */
  method ReadBspHeader(reader: Reader) returns (r: Option<seq<Lump>>)
    requires reader.Valid() && reader.pos == 0
    modifies reader
    ensures reader.Valid()
    ensures r == LumpsSpec(reader.data)
  {
    var version :- reader.ReadInt32();
    if version != BspVersion { return None; }
    var lumps := new Lump[BspLumpCount](_ => Lump(0, 0));
    for k := 0 to BspLumpCount
      invariant reader.Valid() && reader.pos == 4 + LumpEntrySize * k
      invariant forall j | 0 <= j < k :: LumpOk(reader.data, j) && lumps[j] == LumpAt(reader.data, j)
    {
      var offset := reader.ReadInt32();
      if offset.None? {
        assert !LumpOk(reader.data, k);
        return None;
      }
      var size := reader.ReadInt32();
      if size.None? || offset.value < 0 || size.value < 0 {
        assert !LumpOk(reader.data, k);
        return None;
      }
      lumps[k] := Lump(offset.value, size.value);
    }
    assert lumps[..] == LumpsSpec(reader.data).value;
    return Some(lumps[..]);
  }

  /** `TryLoadBspFile(FILE*)` after the file has been read into `data`. */
  method TryLoadBspFile(data: seq<byte>) returns (r: Option<BspFile>)
    ensures r == BspSpec(data)
  {
    var reader := new Reader(data);
    var lumps :- ReadBspHeader(reader);
    var entities :- TryLoadEntities(reader, lumps[EntitiesLump]);
    var textures :- TryLoadTextures(reader, lumps[TexturesLump]);
    var textureInfos :- TryLoadTextureInfos(reader, lumps[TexInfoLump], |textures|);
    var faces :- TryLoadFaces(reader, lumps, |textureInfos|);
    var models :- TryLoadModels(reader, lumps[ModelsLump], |faces|);
    return Some(BspFile(entities, textures, textureInfos, faces, models));
  }
}
