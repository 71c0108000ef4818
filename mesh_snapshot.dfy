/** MeshSnapshot: a copy of a mesh's vertex, index and texture lists, and
    its binary form: each list as a size_t count followed by the items'
    memory images (88-byte vertices, 4-byte indices, 72-byte textures). */
module MeshSnapshots {
  import opened Wrappers
  import opened Bytes
  import opened Codec
  import opened MeshData
  import opened Streams

  datatype MeshSnapshot = MeshSnapshot(vertices: seq<Vertex>, indices: seq<U32>, textures: seq<TextureImage>)

  /** MeshSnapshot() = default. */
  const EMPTY_MESH_SNAPSHOT: MeshSnapshot := MeshSnapshot([], [], [])

  /** MeshSnapshot(const Mesh&): copies of the three lists. */
  function CaptureMesh(mesh: Mesh): (s: MeshSnapshot)
    reads mesh
    ensures s.vertices == mesh.vertices && s.indices == mesh.indices && s.textures == mesh.textures
  {
    MeshSnapshot(mesh.vertices, mesh.indices, mesh.textures)
  }

  /** applyToMesh: the mesh takes the snapshot's lists (so capturing it
      again yields the snapshot) and is uploaded once more. */
  method ApplyToMesh(s: MeshSnapshot, mesh: Mesh)
    modifies mesh
    ensures CaptureMesh(mesh) == s
    ensures mesh.setupCalls == old(mesh.setupCalls) + 1
  {
    mesh.vertices := s.vertices;
    mesh.indices := s.indices;
    mesh.textures := s.textures;
    mesh.SetupMesh();
  }

  /** The counts fit the size_t fields they are written to. */
  predicate Encodable(s: MeshSnapshot) {
    |s.vertices| <= MAX_SIZE_T && |s.indices| <= MAX_SIZE_T && |s.textures| <= MAX_SIZE_T
  }

  /** The three lists as serialize writes them and deserialize reads them. */
  function EncodeVertices(xs: seq<Vertex>): seq<byte> {
    EncodeList(xs, EncodeVertex)
  }

  function DecodeVertices(d: seq<byte>, p: nat): (r: Decoded<seq<Vertex>>)
    ensures r.Ok? ==> p + SIZE_T_BYTES <= r.value.1 <= |d|
    ensures r.Err? ==> r.error == ReadFailed
  {
    DecodeList(d, p, VERTEX_SIZE, DecodeVertex)
  }

  function EncodeIndices(xs: seq<U32>): seq<byte> {
    EncodeList(xs, EncodeU32)
  }

  function DecodeIndices(d: seq<byte>, p: nat): (r: Decoded<seq<U32>>)
    ensures r.Ok? ==> p + SIZE_T_BYTES <= r.value.1 <= |d|
    ensures r.Err? ==> r.error == ReadFailed
  {
    DecodeList(d, p, WORD_BYTES, DecodeU32)
  }

  function EncodeTextures(xs: seq<TextureImage>): seq<byte> {
    EncodeList(xs, EncodeTextureImage)
  }

  function DecodeTextures(d: seq<byte>, p: nat): (r: Decoded<seq<TextureImage>>)
    ensures r.Ok? ==> p + SIZE_T_BYTES <= r.value.1 <= |d|
    ensures r.Err? ==> r.error == ReadFailed
  {
    DecodeList(d, p, TEXTURE_SIZE, DecodeTextureImage)
  }

  /** The bytes serialize writes. */
  function EncodeMesh(s: MeshSnapshot): seq<byte> {
    EncodeVertices(s.vertices) + EncodeIndices(s.indices) + EncodeTextures(s.textures)
  }

  /** The snapshot deserialize reads at p, with the position after it; any
      short read is an error, since the source then goes on with counts or
      items it has not read. */
  function DecodeMesh(d: seq<byte>, p: nat): (r: Decoded<MeshSnapshot>)
    ensures r.Ok? ==> p + 3 * SIZE_T_BYTES <= r.value.1 <= |d|
    ensures r.Err? ==> r.error == ReadFailed
  {
    var vs :- DecodeVertices(d, p);
    var xs :- DecodeIndices(d, vs.1);
    var ts :- DecodeTextures(d, xs.1);
    Ok((MeshSnapshot(vs.0, xs.0, ts.0), ts.1))
  }

  /** serialize. */
  method SerializeMesh(s: MeshSnapshot, os: OutStream)
    modifies os
    ensures os.bytes == old(os.bytes) + EncodeMesh(s)
  {
    WriteList(os, s.vertices, EncodeVertex);
    WriteList(os, s.indices, EncodeU32);
    WriteList(os, s.textures, EncodeTextureImage);
  }

  /** deserialize: each list is resized to the count read and then filled
      item by item. The result is DecodeMesh's unless a read fails. */
  method DeserializeMesh(input: InStream) returns (s: MeshSnapshot)
    requires input.Valid()
    modifies input
    ensures input.Valid()
    ensures var r := DecodeMesh(input.data, old(input.pos));
      if old(input.failed) || r.Err? then input.failed
      else !input.failed && s == r.value.0 && input.pos == r.value.1
  {
    var vertices := ReadList(input, VERTEX_SIZE, DecodeVertex, ZERO_VERTEX);
    var indices := ReadList(input, WORD_BYTES, DecodeU32, 0);
    var textures := ReadList(input, TEXTURE_SIZE, DecodeTextureImage, ZeroImage());
    s := MeshSnapshot(vertices, indices, textures);
  }

  /** The layout: three 8-byte counts and 88, 4 and 72 bytes per item. */
  lemma EncodeMeshLength(s: MeshSnapshot)
    ensures |EncodeMesh(s)| == 3 * SIZE_T_BYTES + VERTEX_SIZE * |s.vertices|
                               + WORD_BYTES * |s.indices| + TEXTURE_SIZE * |s.textures|
  {
    forall v ensures |EncodeVertex(v)| == VERTEX_SIZE {
      VertexCodec(v);
    }
    ListLength(s.vertices, EncodeVertex, VERTEX_SIZE);
    ListLength(s.indices, EncodeU32, WORD_BYTES);
    ListLength(s.textures, EncodeTextureImage, TEXTURE_SIZE);
  }

  lemma VerticesRoundTrip(xs: seq<Vertex>, d: seq<byte>, p: nat, q: nat)
    requires |xs| <= MAX_SIZE_T
    requires p <= q <= |d| && d[p..q] == EncodeVertices(xs)
    ensures DecodeVertices(d, p) == Ok((xs, q))
  {
    forall v ensures |EncodeVertex(v)| == VERTEX_SIZE && DecodeVertex(EncodeVertex(v)) == v {
      VertexCodec(v);
    }
    ListRoundTrip(xs, EncodeVertex, DecodeVertex, VERTEX_SIZE, d, p, q);
  }

  lemma IndicesRoundTrip(xs: seq<U32>, d: seq<byte>, p: nat, q: nat)
    requires |xs| <= MAX_SIZE_T
    requires p <= q <= |d| && d[p..q] == EncodeIndices(xs)
    ensures DecodeIndices(d, p) == Ok((xs, q))
  {
    forall x: U32 ensures DecodeU32(EncodeU32(x)) == x {
      U32RoundTrip(x);
    }
    ListRoundTrip(xs, EncodeU32, DecodeU32, WORD_BYTES, d, p, q);
  }

  lemma TexturesRoundTrip(xs: seq<TextureImage>, d: seq<byte>, p: nat, q: nat)
    requires |xs| <= MAX_SIZE_T
    requires p <= q <= |d| && d[p..q] == EncodeTextures(xs)
    ensures DecodeTextures(d, p) == Ok((xs, q))
  {
    ListRoundTrip(xs, EncodeTextureImage, DecodeTextureImage, TEXTURE_SIZE, d, p, q);
  }

  lemma VerticesCanonical(d: seq<byte>, p: nat)
    requires DecodeVertices(d, p).Ok?
    ensures var r := DecodeVertices(d, p).value;
      |r.0| <= MAX_SIZE_T && EncodeVertices(r.0) == d[p..r.1]
  {
    forall b: seq<byte> | |b| == VERTEX_SIZE ensures EncodeVertex(DecodeVertex(b)) == b {
      VertexCanonical(b);
    }
    ListCanonical(d, p, VERTEX_SIZE, EncodeVertex, DecodeVertex);
  }

  lemma IndicesCanonical(d: seq<byte>, p: nat)
    requires DecodeIndices(d, p).Ok?
    ensures var r := DecodeIndices(d, p).value;
      |r.0| <= MAX_SIZE_T && EncodeIndices(r.0) == d[p..r.1]
  {
    forall b: seq<byte> | |b| == WORD_BYTES ensures EncodeU32(DecodeU32(b)) == b {
      U32Canonical(b);
    }
    ListCanonical(d, p, WORD_BYTES, EncodeU32, DecodeU32);
  }

  lemma TexturesCanonical(d: seq<byte>, p: nat)
    requires DecodeTextures(d, p).Ok?
    ensures var r := DecodeTextures(d, p).value;
      |r.0| <= MAX_SIZE_T && EncodeTextures(r.0) == d[p..r.1]
  {
    ListCanonical(d, p, TEXTURE_SIZE, EncodeTextureImage, DecodeTextureImage);
  }

  /** DecodeMesh in terms of its three lists. */
  lemma DecodeMeshSteps(d: seq<byte>, p0: nat, s: MeshSnapshot, p1: nat, p2: nat, p3: nat)
    requires DecodeVertices(d, p0) == Ok((s.vertices, p1))
    requires DecodeIndices(d, p1) == Ok((s.indices, p2))
    requires DecodeTextures(d, p2) == Ok((s.textures, p3))
    ensures DecodeMesh(d, p0) == Ok((s, p3))
  {
  }

  /** A mesh captured and written reads back as the mesh's own vertices,
      indices and textures, consuming exactly the bytes written. */
  lemma CapturedMeshRoundTrip(mesh: Mesh)
    requires |mesh.vertices| <= MAX_SIZE_T && |mesh.indices| <= MAX_SIZE_T && |mesh.textures| <= MAX_SIZE_T
    ensures var e := EncodeMesh(CaptureMesh(mesh));
      DecodeMesh(e, 0) == Ok((MeshSnapshot(mesh.vertices, mesh.indices, mesh.textures), |e|))
  {
    var s := CaptureMesh(mesh);
    var e := EncodeMesh(s);
    assert e[0..|e|] == e;
    MeshRoundTrip(s, e, 0, |e|);
  }

  /** Reading back what serialize wrote, from wherever it sits in the
      stream (d[p..q]), gives the snapshot and stops right after its bytes. */
  lemma MeshRoundTrip(s: MeshSnapshot, d: seq<byte>, p: nat, q: nat)
    requires Encodable(s)
    requires p <= q <= |d| && d[p..q] == EncodeMesh(s)
    ensures DecodeMesh(d, p) == Ok((s, q))
  {
    var ev, ei, et := EncodeVertices(s.vertices), EncodeIndices(s.indices), EncodeTextures(s.textures);
    Split3(d, p, q, ev, ei, et);
    var p1 := p + |ev|;
    var p2 := p1 + |ei|;
    VerticesRoundTrip(s.vertices, d, p, p1);
    IndicesRoundTrip(s.indices, d, p1, p2);
    TexturesRoundTrip(s.textures, d, p2, q);
    DecodeMeshSteps(d, p, s, p1, p2, q);
  }

  /** Conversely, a snapshot read from the stream re-encodes to exactly the
      bytes it was read from: the format has no slack. */
  lemma MeshCanonical(d: seq<byte>, p: nat, s: MeshSnapshot, q: nat)
    requires DecodeMesh(d, p) == Ok((s, q))
    ensures Encodable(s) && EncodeMesh(s) == d[p..q]
  {
    var vs := DecodeVertices(d, p).value;
    var xs := DecodeIndices(d, vs.1).value;
    var ts := DecodeTextures(d, xs.1).value;
    VerticesCanonical(d, p);
    IndicesCanonical(d, vs.1);
    TexturesCanonical(d, xs.1);
    Join3(d, p, vs.1, xs.1, ts.1);
  }
}
