/** What a successful BSP decode guarantees about the decoded level. */
module BspProperties {
  import opened Wrappers
  import opened Bytes
  import opened BinaryReader
  import opened Colormap
  import opened Miptex
  import opened Bsp

  /** Every index in a decoded file names an existing element: a texture info's texture, a
      face's texture info, and a model's face range. This is what lets the source keep raw
      pointers and spans into the decoded tables. */
  predicate ReferencesInRange(f: BspFile) {
    (forall i | 0 <= i < |f.textureInfos| :: f.textureInfos[i].texture < |f.textures|)
    && (forall i | 0 <= i < |f.faces| :: f.faces[i].textureInfo < |f.textureInfos|)
    && (forall i | 0 <= i < |f.models| ::
          f.models[i].firstFace < |f.faces| && f.models[i].firstFace + f.models[i].faceCount <= |f.faces|)
  }

  /** The faces of a model, which ReferencesInRange makes well-defined. */
  function ModelFaces(f: BspFile, m: nat): (faces: seq<Face>)
    requires ReferencesInRange(f) && m < |f.models|
    ensures |faces| == f.models[m].faceCount
    ensures forall i | 0 <= i < |faces| :: faces[i] == f.faces[f.models[m].firstFace + i]
  {
    f.faces[f.models[m].firstFace..f.models[m].firstFace + f.models[m].faceCount]
  }

  /** A decoded file is the result of its stages, run in order, each of them successful. */
  lemma DecodedFileIsStageResults(data: seq<byte>)
    requires BspSpec(data).Some?
    ensures LumpsSpec(data).Some?
    ensures var lumps := LumpsSpec(data).value;
            var f := BspSpec(data).value;
            EntitiesSpec(data, lumps[EntitiesLump]) == Some(f.entities)
            && TexturesSpec(data, lumps[TexturesLump]) == Some(f.textures)
            && TextureInfosSpec(data, lumps[TexInfoLump], |f.textures|) == Some(f.textureInfos)
            && FacesSpec(data, lumps, |f.textureInfos|) == Some(f.faces)
            && ModelsSpec(data, lumps[ModelsLump], |f.faces|) == Some(f.models)
  {
  }

  /** A stage that fails fails the whole file, whatever the other stages would have yielded. */
  lemma FailedStageFailsFile(data: seq<byte>)
    requires LumpsSpec(data).Some?
    requires var lumps := LumpsSpec(data).value;
             EntitiesSpec(data, lumps[EntitiesLump]).None? || TexturesSpec(data, lumps[TexturesLump]).None?
    ensures BspSpec(data).None?
  {
  }

  lemma TextureInfoReferencesInRange(data: seq<byte>, lump: Lump, textureCount: nat)
    requires TextureInfosSpec(data, lump, textureCount).Some?
    ensures var infos := TextureInfosSpec(data, lump, textureCount).value;
            |infos| == lump.size / TextureInfoSize
            && forall i | 0 <= i < |infos| :: infos[i].texture < textureCount
  {
    var infos := TextureInfosSpec(data, lump, textureCount).value;
    forall i | 0 <= i < |infos|
      ensures infos[i].texture < textureCount
    {
      assert infos[i] == TextureInfoAt(data, lump, textureCount, i);
    }
  }

  lemma FaceReferencesInRange(data: seq<byte>, lumps: seq<Lump>, textureInfoCount: nat)
    requires |lumps| == BspLumpCount
    requires FacesSpec(data, lumps, textureInfoCount).Some?
    ensures var faces := FacesSpec(data, lumps, textureInfoCount).value;
            |faces| == lumps[FacesLump].size / BspFaceSize
            && forall i | 0 <= i < |faces| :: faces[i].textureInfo < textureInfoCount
  {
    var vertexes := VertexesSpec(data, lumps[VertexesLump]).value;
    var edges := EdgesSpec(data, lumps[EdgesLump]).value;
    var surfEdges := SurfEdgesSpec(data, lumps[SurfEdgesLump]).value;
    var faces := FacesSpec(data, lumps, textureInfoCount).value;
    forall i | 0 <= i < |faces|
      ensures faces[i].textureInfo < textureInfoCount
    {
      assert FaceOk(data, lumps[FacesLump], i, vertexes, edges, surfEdges, textureInfoCount);
      assert faces[i] == FaceAt(data, lumps[FacesLump], i, vertexes, edges, surfEdges, textureInfoCount);
    }
  }

  lemma ModelReferencesInRange(data: seq<byte>, lump: Lump, faceCount: nat)
    requires ModelsSpec(data, lump, faceCount).Some?
    ensures var models := ModelsSpec(data, lump, faceCount).value;
            |models| == lump.size / BspModelSize
            && forall i | 0 <= i < |models| ::
                 models[i].firstFace < faceCount && models[i].firstFace + models[i].faceCount <= faceCount
  {
    var models := ModelsSpec(data, lump, faceCount).value;
    forall i | 0 <= i < |models|
      ensures models[i].firstFace < faceCount && models[i].firstFace + models[i].faceCount <= faceCount
    {
      assert models[i] == ModelAt(data, lump, faceCount, i);
    }
  }

  /** The headline property: every reference in a decoded file is in range. */
  lemma {:induction false} DecodedReferencesInRange(data: seq<byte>)
    requires BspSpec(data).Some?
    ensures ReferencesInRange(BspSpec(data).value)
  {
    DecodedFileIsStageResults(data);
    var lumps := LumpsSpec(data).value;
    var f := BspSpec(data).value;
    TextureInfoReferencesInRange(data, lumps[TexInfoLump], |f.textures|);
    FaceReferencesInRange(data, lumps, |f.textureInfos|);
    ModelReferencesInRange(data, lumps[ModelsLump], |f.faces|);
  }

  /** Table sizes follow from the directory: the entity text is the lump without its final
      byte, the texture count is stored, and the fixed-size tables have size / record-size
      entries (a partial record at the end is ignored). */
  lemma {:induction false} DecodedCounts(data: seq<byte>)
    requires BspSpec(data).Some?
    ensures LumpsSpec(data).Some?
    ensures var lumps := LumpsSpec(data).value;
            var f := BspSpec(data).value;
            |f.entities| == (if lumps[EntitiesLump].size > 0 then lumps[EntitiesLump].size - 1 else 0)
            && lumps[TexturesLump].offset + 4 <= |data|
            && |f.textures| == IntAt(data, lumps[TexturesLump].offset, 4)
            && |f.textureInfos| == lumps[TexInfoLump].size / TextureInfoSize
            && |f.faces| == lumps[FacesLump].size / BspFaceSize
            && |f.models| == lumps[ModelsLump].size / BspModelSize
  {
    DecodedFileIsStageResults(data);
    var lumps := LumpsSpec(data).value;
    var f := BspSpec(data).value;
    TextureInfoReferencesInRange(data, lumps[TexInfoLump], |f.textures|);
    FaceReferencesInRange(data, lumps, |f.textureInfos|);
    ModelReferencesInRange(data, lumps[ModelsLump], |f.faces|);
  }

  /** A texture has four mip levels. Either it has no pixel data (it lives in a WAD file) and
      every level and the colormap are empty, or level l holds (width / 2^l) * (height / 2^l)
      pixels and the colormap has 256 colours. */
  predicate TextureShapeOk(t: Texture) {
    |t.mips| == MipLevelCount
    && (((forall l | 0 <= l < MipLevelCount :: t.mips[l] == []) && t.colormap == [])
        || ((forall l | 0 <= l < MipLevelCount :: |t.mips[l]| == MipPixels(t.width, t.height, l))
            && |t.colormap| == ColormapColorCount))
  }

  lemma DecodedTextureShape(data: seq<byte>, lump: Lump, i: nat)
    requires TextureOk(data, lump, i)
    ensures TextureShapeOk(TextureAt(data, lump, i))
    ensures TextureAt(data, lump, i).width == TexWidth(data, TexturePos(data, lump, i))
    ensures TextureAt(data, lump, i).height == TexHeight(data, TexturePos(data, lump, i))
    ensures |TextureAt(data, lump, i).name| <= 16
  {
    var t := TexturePos(data, lump, i);
    var texture := TextureAt(data, lump, i);
    if MipOffset(data, t, 0) == 0 {
      assert texture.mips == [[], [], [], []];
    } else {
      assert texture.width == TexWidth(data, t) && texture.height == TexHeight(data, t);
      forall l | 0 <= l < MipLevelCount
        ensures |texture.mips[l]| == MipPixels(texture.width, texture.height, l)
      {
        assert texture.mips[l] == MipData(data, t, l);
      }
    }
  }

  lemma {:induction false} DecodedTexturesShape(data: seq<byte>, lump: Lump)
    requires TexturesSpec(data, lump).Some?
    ensures forall i | 0 <= i < |TexturesSpec(data, lump).value| :: TextureShapeOk(TexturesSpec(data, lump).value[i])
  {
    var textures := TexturesSpec(data, lump).value;
    forall i | 0 <= i < |textures|
      ensures TextureShapeOk(textures[i])
    {
      DecodedTextureShape(data, lump, i);
    }
  }

  /** A face has one vertex per surf-edge, in surf-edge order: a surf-edge traversed forwards
      (non-negative) contributes its edge's first vertex, one traversed backwards its second. */
  lemma FaceWinding(data: seq<byte>, lump: Lump, k: nat, vertexes: seq<Vec3>, edges: seq<Edge>,
                    surfEdges: seq<int>, textureInfoCount: nat, i: nat)
    requires FaceOk(data, lump, k, vertexes, edges, surfEdges, textureInfoCount)
    requires i < NumEdgesAt(data, lump, k)
    ensures var face := FaceAt(data, lump, k, vertexes, edges, surfEdges, textureInfoCount);
            var surfEdge := surfEdges[FirstEdgeAt(data, lump, k) + i];
            |face.vertexes| == NumEdgesAt(data, lump, k)
            && (surfEdge >= 0 ==> surfEdge < |edges| && edges[surfEdge].v0 < |vertexes|
                                  && face.vertexes[i] == vertexes[edges[surfEdge].v0])
            && (surfEdge < 0 ==> -surfEdge < |edges| && edges[-surfEdge].v1 < |vertexes|
                                 && face.vertexes[i] == vertexes[edges[-surfEdge].v1])
  {
  }
}
