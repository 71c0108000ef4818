/** The mesh records of Mesh.h: the POD Vertex the codec copies byte for
    byte, the Texture record, the Mesh object and the VAO cache. */
module MeshData {
  import opened Bytes
  import opened Text
  import opened Glm
  import opened Codec

  const MAX_BONE_INFLUENCE: nat := 4

  type BoneIds = s: seq<Int32> | |s| == 4 witness [0, 0, 0, 0]

  type BoneWeights = s: seq<Float> | |s| == 4 witness [ZERO, ZERO, ZERO, ZERO]

  datatype Vertex = Vertex(
    position: Vec3,
    normal: Vec3,
    texCoords: Vec2,
    tangent: Vec3,
    bitangent: Vec3,
    boneIds: BoneIds,
    weights: BoneWeights)

  const ZERO_VERTEX: Vertex :=
    Vertex(Vec3(ZERO, ZERO, ZERO), Vec3(ZERO, ZERO, ZERO), Vec2(ZERO, ZERO),
           Vec3(ZERO, ZERO, ZERO), Vec3(ZERO, ZERO, ZERO), [0, 0, 0, 0], [ZERO, ZERO, ZERO, ZERO])

  /** 3+3+2+3+3 float components. */
  const FLOAT_COMPONENTS: nat := 14

  /** Every member is 4 bytes wide, so sizeof(Vertex) has no padding. */
  const VERTEX_WORDS: nat := FLOAT_COMPONENTS + 2 * MAX_BONE_INFLUENCE
  const VERTEX_SIZE: nat := WORD_BYTES * VERTEX_WORDS

  /** sizeof(glm::vec3) and sizeof(glm::vec2). */
  const VEC3_BYTES: nat := 3 * WORD_BYTES
  const VEC2_BYTES: nat := 2 * WORD_BYTES

  /** The 4-byte words of a Vertex in declaration order. */
  function VertexWords(v: Vertex): (w: seq<U32>)
    ensures |w| == VERTEX_WORDS
  {
    [v.position.x.bits, v.position.y.bits, v.position.z.bits,
     v.normal.x.bits, v.normal.y.bits, v.normal.z.bits,
     v.texCoords.x.bits, v.texCoords.y.bits,
     v.tangent.x.bits, v.tangent.y.bits, v.tangent.z.bits,
     v.bitangent.x.bits, v.bitangent.y.bits, v.bitangent.z.bits]
    + [Int32Bits(v.boneIds[0]), Int32Bits(v.boneIds[1]), Int32Bits(v.boneIds[2]), Int32Bits(v.boneIds[3])]
    + [v.weights[0].bits, v.weights[1].bits, v.weights[2].bits, v.weights[3].bits]
  }

  function VertexOfWords(w: seq<U32>): Vertex
    requires |w| == VERTEX_WORDS
  {
    var ids := [Int32OfBits(w[14]), Int32OfBits(w[15]), Int32OfBits(w[16]), Int32OfBits(w[17])];
    var weights := [F32(w[18]), F32(w[19]), F32(w[20]), F32(w[21])];
    Vertex(Vec3(F32(w[0]), F32(w[1]), F32(w[2])),
           Vec3(F32(w[3]), F32(w[4]), F32(w[5])),
           Vec2(F32(w[6]), F32(w[7])),
           Vec3(F32(w[8]), F32(w[9]), F32(w[10])),
           Vec3(F32(w[11]), F32(w[12]), F32(w[13])),
           ids, weights)
  }

  lemma VertexWordsRoundTrip(v: Vertex)
    ensures VertexOfWords(VertexWords(v)) == v
  {
    var w := VertexWords(v);
    forall i | 0 <= i < 4 ensures Int32OfBits(Int32Bits(v.boneIds[i])) == v.boneIds[i] {
      Int32BitsRoundTrip(v.boneIds[i]);
    }
    assert VertexOfWords(w).boneIds == v.boneIds;
  }

  /** The sizeof(Vertex) bytes `os.write(&vertex, sizeof(Vertex))` emits. */
  function EncodeVertex(v: Vertex): (b: seq<byte>)
    ensures |b| == VERTEX_SIZE
  {
    EncodeWords(VertexWords(v))
  }

  /** The Vertex `is.read(&vertex, sizeof(Vertex))` fills from a block. */
  function DecodeVertex(b: seq<byte>): Vertex {
    if |b| == VERTEX_SIZE then VertexOfWords(DecodeWords(b, VERTEX_WORDS)) else ZERO_VERTEX
  }

  /** A Vertex is a fixed block of 88 bytes: 14 float components, 4 bone
      ints and 4 bone weights, copied out and back in unchanged. */
  lemma VertexCodec(v: Vertex)
    ensures |EncodeVertex(v)| == VERTEX_SIZE == 88
    ensures DecodeVertex(EncodeVertex(v)) == v
  {
    WordsRoundTrip(VertexWords(v));
    VertexWordsRoundTrip(v);
  }

  lemma WordsVertexRoundTrip(w: seq<U32>)
    requires |w| == VERTEX_WORDS
    ensures VertexWords(VertexOfWords(w)) == w
  {
    var ws := VertexWords(VertexOfWords(w));
    forall i | 14 <= i < 18 ensures ws[i] == w[i] {
      Int32BitsOfBits(w[i]);
    }
  }

  /** Every 88-byte block is the image of the Vertex read from it. */
  lemma VertexCanonical(b: seq<byte>)
    requires |b| == VERTEX_SIZE
    ensures EncodeVertex(DecodeVertex(b)) == b
  {
    WordsVertexRoundTrip(DecodeWords(b, VERTEX_WORDS));
    WordsCanonical(b, VERTEX_WORDS);
  }

  /** sizeof(Texture) on a 64-bit libstdc++ host: a 4-byte id, 4 bytes of
      padding and two 32-byte std::string objects. */
  const TEXTURE_SIZE: nat := 72

  /** The memory image of a Texture object. Its strings live behind pointers
      inside the image, so the image is opaque to the codec. */
  type TextureImage = s: seq<byte> | |s| == TEXTURE_SIZE witness seq(TEXTURE_SIZE, _ => 0)

  /** An all-zero image. */
  function ZeroImage(): TextureImage {
    seq(TEXTURE_SIZE, _ => 0)
  }

  function EncodeTextureImage(t: TextureImage): seq<byte> {
    t
  }

  function DecodeTextureImage(b: seq<byte>): TextureImage {
    if |b| == TEXTURE_SIZE then b else ZeroImage()
  }

  /** A texture as the model-level list holds it: GPU handle, sampler role
      such as "texture_diffuse", and file path. */
  datatype Texture = Texture(id: U32, kind: CppString, path: CppString)

  /** A value-initialised Texture (what vector::resize appends). */
  const DEFAULT_TEXTURE: Texture := Texture(0, [], [])

  class Mesh {
    var vertices: seq<Vertex>
    var indices: seq<U32>
    /** The textures, as the raw images the mesh codec copies. */
    var textures: seq<TextureImage>
    /** How many times setupMesh, the GPU upload, has run. */
    var setupCalls: nat

    /** Mesh(): no data and no GPU upload. */
    constructor Empty()
      ensures vertices == [] && indices == [] && textures == [] && setupCalls == 0
    {
      vertices, indices, textures := [], [], [];
      setupCalls := 0;
    }

    /** Mesh(vertices, indices, textures): copies the data, then uploads it. */
    constructor (vertices: seq<Vertex>, indices: seq<U32>, textures: seq<TextureImage>)
      ensures this.vertices == vertices && this.indices == indices && this.textures == textures
      ensures setupCalls == 1
    {
      this.vertices := vertices;
      this.indices := indices;
      this.textures := textures;
      setupCalls := 0;
      new;
      SetupMesh();
    }

    /** setupMesh: builds the GPU buffers (not modelled) from the data. */
    method SetupMesh()
      modifies this`setupCalls
      ensures setupCalls == old(setupCalls) + 1
    {
      setupCalls := setupCalls + 1;
    }
  }

  /** The key getLayoutKey builds. */
  const LAYOUT_KEY: CppString := "P:12N:12T:8"

  /** VAOManager: one vertex array object per vertex layout. */
  class VaoManager {
    var vaoMap: map<CppString, U32>
    /** How many times createVAO has run. */
    var creations: nat

    constructor ()
      ensures vaoMap == map[] && creations == 0
    {
      vaoMap := map[];
      creations := 0;
    }

    /** getLayoutKey: built from the sizes of the Position, Normal and
        TexCoords members only (sizeof does not evaluate mesh.vertices[0],
        so an empty mesh is fine), hence the same for every mesh. */
    method GetLayoutKey(mesh: Mesh) returns (key: CppString)
      ensures key == LAYOUT_KEY
    {
      key := [];
      key := key + "P:" + DecimalString(VEC3_BYTES);
      key := key + "N:" + DecimalString(VEC3_BYTES);
      key := key + "T:" + DecimalString(VEC2_BYTES);
      assert DecimalString(12) == DecimalString(1) + [Digit(2)] == "12";
      assert DecimalString(8) == "8";
    }

    /** getVAO: the cached handle for the mesh's layout, or, on a miss, the
        handle createVAO returns (`created`; the GL work is not modelled),
        which is stored under the key even when it is 0. */
    method GetVao(mesh: Mesh, created: U32) returns (vao: U32)
      modifies this
      ensures LAYOUT_KEY in old(vaoMap) ==>
        vao == old(vaoMap)[LAYOUT_KEY] && vaoMap == old(vaoMap) && creations == old(creations)
      ensures LAYOUT_KEY !in old(vaoMap) ==>
        vao == created && vaoMap == old(vaoMap)[LAYOUT_KEY := created] && creations == old(creations) + 1
    {
      var layoutKey := GetLayoutKey(mesh);
      if layoutKey in vaoMap {
        return vaoMap[layoutKey];
      }
      var v := CreateVao(mesh, created);
      vaoMap := vaoMap[layoutKey := v];
      if v != 0 {
        vaoMap := vaoMap[layoutKey := v];
        return v;
      } else {
        return 0;
      }
    }

    /** createVAO: allocates and configures a vertex array (not modelled)
        and yields its handle. */
    method CreateVao(mesh: Mesh, created: U32) returns (vao: U32)
      modifies this`creations
      ensures vao == created && creations == old(creations) + 1
    {
      creations := creations + 1;
      vao := created;
    }
  }
}
