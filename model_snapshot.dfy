/** ModelSnapshot: a model's transform, its two names, its meshes and its
    textures, and their binary form. serialize writes, in this order, the
    position, rotation and scale (three floats each), the object name and
    the texture name (each a size_t length and its characters), the mesh
    count and each mesh, and the texture count and each texture's path. The
    shader is captured but never written. deserialize reads the same order
    and throws on a name whose length is 0 or above 300, on a name cut
    short, and on more than 100 meshes or textures. */
module ModelSnapshots {
  import opened Wrappers
  import opened Bytes
  import opened Text
  import opened Glm
  import opened Codec
  import opened Streams
  import opened Seqs
  import opened MeshData
  import opened MeshSnapshots
  import opened ShaderSnapshots
  import opened Models

  datatype ModelSnapshot = ModelSnapshot(
    position: Vec3,
    rotation: Vec3,
    scale: Vec3,
    objectName: CppString,
    textureName: CppString,
    meshes: seq<MeshSnapshot>,
    textures: seq<Texture>,
    shader: ShaderSnapshot)

  /** The limits deserialize enforces. */
  const MAX_NAME_LENGTH: nat := 300
  const MAX_MESHES: nat := 100
  const MAX_TEXTURES: nat := 100

  /** The three transform vectors. */
  const TRANSFORM_BYTES: nat := 3 * VEC3_BYTES

  /** The snapshots of the meshes, in order. */
  ghost function CapturedMeshes(meshes: seq<Mesh>): (r: seq<MeshSnapshot>)
    reads set m | m in meshes
    ensures |r| == |meshes|
  {
    seq(|meshes|, i requires 0 <= i < |meshes| reads set m | m in meshes => CaptureMesh(meshes[i]))
  }

  /** ModelSnapshot(const Model&): the transform, a snapshot of every mesh,
      the loaded textures and a snapshot of the shader. The names are left
      empty. */
  method CaptureModel(model: Model) returns (s: ModelSnapshot)
    ensures s.position == model.position && s.rotation == model.rotation && s.scale == model.scale
    ensures s.objectName == [] && s.textureName == []
    ensures s.meshes == CapturedMeshes(model.meshes)
    ensures s.textures == model.texturesLoaded && s.shader == CaptureShader(model.shader)
  {
    var meshes: seq<MeshSnapshot> := [];
    for i := 0 to |model.meshes|
      invariant meshes == CapturedMeshes(model.meshes[..i])
    {
      meshes := meshes + [CaptureMesh(model.meshes[i])];
    }
    assert model.meshes[..|model.meshes|] == model.meshes;
    s := ModelSnapshot(model.position, model.rotation, model.scale, [], [], meshes,
                       model.texturesLoaded, CaptureShader(model.shader));
  }

  /** applyToModel: the transform only; meshes, textures and shader are
      left as they were. */
  method ApplyToModel(s: ModelSnapshot, model: Model)
    modifies model`position, model`rotation, model`scale
    ensures model.position == s.position && model.rotation == s.rotation && model.scale == s.scale
  {
    model.SetPosition(s.position);
    model.SetRotation(s.rotation);
    model.SetScale(s.scale);
  }

  // ---------------------------------------------------------------------
  // The format

  /** `os.write(&v, sizeof(v))` for a glm::vec3: its three float bit
      patterns. */
  function EncodeVec3(v: Vec3): (r: seq<byte>)
    ensures |r| == VEC3_BYTES
  {
    EncodeWords([v.x.bits, v.y.bits, v.z.bits])
  }

  /** deserializeVec3 on a complete 12-byte read. */
  function DecodeVec3(b: seq<byte>): Vec3
    requires |b| == VEC3_BYTES
  {
    var w := DecodeWords(b, 3);
    Vec3(F32(w[0]), F32(w[1]), F32(w[2]))
  }

  lemma Vec3RoundTrip(v: Vec3)
    ensures DecodeVec3(EncodeVec3(v)) == v
  {
    WordsRoundTrip([v.x.bits, v.y.bits, v.z.bits]);
  }

  lemma Vec3Canonical(b: seq<byte>)
    requires |b| == VEC3_BYTES
    ensures EncodeVec3(DecodeVec3(b)) == b
  {
    var w := DecodeWords(b, 3);
    assert [w[0], w[1], w[2]] == w;
    WordsCanonical(b, 3);
  }

  /** A name deserializeString accepts. */
  predicate ValidName(x: CppString) {
    1 <= |x| <= MAX_NAME_LENGTH
  }

  /** A snapshot whose bytes deserialize reads back without throwing. */
  predicate ModelEncodable(s: ModelSnapshot) {
    ValidName(s.objectName) && ValidName(s.textureName) &&
    |s.meshes| <= MAX_MESHES && (forall i :: 0 <= i < |s.meshes| ==> Encodable(s.meshes[i])) &&
    |s.textures| <= MAX_TEXTURES && (forall i :: 0 <= i < |s.textures| ==> ValidName(s.textures[i].path))
  }

  function EncodeTransform(s: ModelSnapshot): (r: seq<byte>)
    ensures |r| == TRANSFORM_BYTES
  {
    EncodeVec3(s.position) + EncodeVec3(s.rotation) + EncodeVec3(s.scale)
  }

  function EncodeNames(s: ModelSnapshot): seq<byte> {
    EncodeString(s.objectName) + EncodeString(s.textureName)
  }

  function EncodeMeshes(ms: seq<MeshSnapshot>): seq<byte> {
    EncodeBlocks(ms, EncodeMesh)
  }

  /** The texture paths, in order. */
  function Paths(ts: seq<Texture>): (r: seq<CppString>)
    ensures |r| == |ts| && forall i :: 0 <= i < |ts| ==> r[i] == ts[i].path
  {
    seq(|ts|, i requires 0 <= i < |ts| => ts[i].path)
  }

  /** Strings written one after the other, each behind its length. */
  function EncodeNameList(xs: seq<CppString>): seq<byte> {
    EncodeBlocks(xs, EncodeString)
  }

  function EncodeLists(ms: seq<MeshSnapshot>, ts: seq<Texture>): seq<byte> {
    EncodeSizeT(|ms|) + EncodeMeshes(ms) + EncodeSizeT(|ts|) + EncodeNameList(Paths(ts))
  }

  /** The bytes serialize writes. */
  function EncodeModel(s: ModelSnapshot): seq<byte> {
    EncodeTransform(s) + EncodeNames(s) + EncodeLists(s.meshes, s.textures)
  }

  /** deserializeString at p: a length of 0 or above 300, or a length that
      could not be read (the stream has failed), is InvalidStringLength; a
      body cut short is StringReadFailed. The characters are kept as read,
      NULs included. */
  function DecodeName(d: seq<byte>, p: nat): (r: Decoded<CppString>)
    ensures var n := DecodeSizeT(d, p);
      r == Err(InvalidStringLength) <==> n.Err? || n.value.0 == 0 || n.value.0 > MAX_NAME_LENGTH
    ensures r.Ok? ==> ValidName(r.value.0) && r.value.1 == p + SIZE_T_BYTES + |r.value.0| <= |d|
    ensures r.Err? ==> r.error == InvalidStringLength || r.error == StringReadFailed
  {
    var n := DecodeSizeT(d, p);
    if n.Err? || n.value.0 == 0 || n.value.0 > MAX_NAME_LENGTH then Err(InvalidStringLength)
    else
      var q := n.value.1 + n.value.0;
      if q > |d| then Err(StringReadFailed)
      else Ok((BytesString(d[n.value.1..q]), q))
  }

  /** `meshes.resize(n)` and `mesh.deserialize(is)` for each: every mesh is
      read whole, so the earlier contents of the vector do not matter. */
  function DecodeMeshes(d: seq<byte>, p: nat, n: nat): (r: Decoded<seq<MeshSnapshot>>)
    requires p <= |d|
    ensures r.Ok? ==> |r.value.0| == n && p <= r.value.1 <= |d|
    ensures r.Err? ==> r.error == ReadFailed
  {
    if n == 0 then Ok(([], p))
    else
      var init :- DecodeMeshes(d, p, n - 1);
      var m :- DecodeMesh(d, init.1);
      Ok((init.0 + [m.0], m.1))
  }

  /** A texture after `texture.path = deserializeString(is)` and
      `texture.id = TextureFromFile(texture.path.c_str(), ...)`: the file
      lookup is the parameter `resolve`, and it sees the path as a C string,
      up to its first NUL. The texture's type is left as it was. */
  function LoadedTexture(t: Texture, path: CppString, resolve: CppString -> U32): Texture {
    Texture(resolve(UntilNul(path)), t.kind, path)
  }

  /** n strings read one after the other as deserializeString reads them. */
  function DecodeNames(d: seq<byte>, p: nat, n: nat): (r: Decoded<seq<CppString>>)
    requires p <= |d|
    ensures r.Ok? ==> |r.value.0| == n && p <= r.value.1 <= |d|
    ensures r.Ok? ==> forall i :: 0 <= i < n ==> ValidName(r.value.0[i])
    ensures r.Err? ==> r.error == InvalidStringLength || r.error == StringReadFailed
  {
    if n == 0 then Ok(([], p))
    else
      var init :- DecodeNames(d, p, n - 1);
      var x :- DecodeName(d, init.1);
      Ok((init.0 + [x.0], x.1))
  }

  /** The resized texture vector olds after the loop over it has given
      each texture its path. */
  function LoadedTextures(olds: seq<Texture>, paths: seq<CppString>, resolve: CppString -> U32): (r: seq<Texture>)
    requires |olds| == |paths|
    ensures |r| == |paths|
  {
    seq(|paths|, i requires 0 <= i < |paths| => LoadedTexture(olds[i], paths[i], resolve))
  }

  /** The mesh and texture lists, each behind its count and checked against
      its limit before the vector is resized. The prior textures are those
      of the snapshot being read into. */
  function DecodeLists(d: seq<byte>, p: nat, prior: seq<Texture>, resolve: CppString -> U32): (r: Decoded<(seq<MeshSnapshot>, seq<Texture>)>)
    ensures r.Ok? ==> |r.value.0.0| <= MAX_MESHES && |r.value.0.1| <= MAX_TEXTURES
    ensures r.Ok? ==> forall i :: 0 <= i < |r.value.0.1| ==> ValidName(r.value.0.1[i].path)
    ensures r.Ok? ==> p <= r.value.1 <= |d|
  {
    var mc :- DecodeSizeT(d, p);
    if mc.0 > MAX_MESHES then Err(TooManyMeshes)
    else
      var ms :- DecodeMeshes(d, mc.1, mc.0);
      var tc :- DecodeSizeT(d, ms.1);
      if tc.0 > MAX_TEXTURES then Err(TooManyTextures)
      else
        var names :- DecodeNames(d, tc.1, tc.0);
        Ok(((ms.0, LoadedTextures(Resized(prior, tc.0, DEFAULT_TEXTURE), names.0, resolve)), names.1))
  }

  /** deserialize on the snapshot prior, at p. A short read of the
      transform fails the stream, so the object name's length check throws
      InvalidStringLength. The shader is not read and stays as it was. */
  function DecodeModel(d: seq<byte>, p: nat, prior: ModelSnapshot, resolve: CppString -> U32): (r: Decoded<ModelSnapshot>)
    ensures r.Ok? ==> p + TRANSFORM_BYTES <= r.value.1 <= |d|
    ensures r.Ok? ==> r.value.0.shader == prior.shader
  {
    if p + TRANSFORM_BYTES > |d| then Err(InvalidStringLength)
    else
      var position := DecodeVec3(d[p..p + VEC3_BYTES]);
      var rotation := DecodeVec3(d[p + VEC3_BYTES..p + 2 * VEC3_BYTES]);
      var scale := DecodeVec3(d[p + 2 * VEC3_BYTES..p + TRANSFORM_BYTES]);
      var on :- DecodeName(d, p + TRANSFORM_BYTES);
      var tn :- DecodeName(d, on.1);
      var lists :- DecodeLists(d, tn.1, prior.textures, resolve);
      Ok((ModelSnapshot(position, rotation, scale, on.0, tn.0, lists.0.0, lists.0.1, prior.shader), lists.1))
  }

  /** What deserialize makes of the bytes of s when reading into prior:
      s itself, except that each texture's id is looked up from its path
      and its type is the one at its place in the prior vector (empty past
      its end), and the shader is the prior one. */
  function Restored(s: ModelSnapshot, prior: ModelSnapshot, resolve: CppString -> U32): (r: ModelSnapshot)
    ensures r.position == s.position && r.rotation == s.rotation && r.scale == s.scale
    ensures r.objectName == s.objectName && r.textureName == s.textureName && r.meshes == s.meshes
    ensures |r.textures| == |s.textures|
    ensures forall i :: 0 <= i < |s.textures| ==>
      r.textures[i].path == s.textures[i].path &&
      r.textures[i].id == resolve(UntilNul(s.textures[i].path)) &&
      r.textures[i].kind == (if i < |prior.textures| then prior.textures[i].kind else [])
    ensures r.shader == prior.shader
  {
    s.(textures := LoadedTextures(Resized(prior.textures, |s.textures|, DEFAULT_TEXTURE), Paths(s.textures), resolve),
       shader := prior.shader)
  }

  // ---------------------------------------------------------------------
  // Reading back what was written

  lemma DecodeNameOf(d: seq<byte>, p: nat, q: nat, x: CppString)
    requires ValidName(x) && p + SIZE_T_BYTES + |x| == q <= |d|
    requires DecodeSizeT(d, p) == Ok((|x|, p + SIZE_T_BYTES))
    requires d[p + SIZE_T_BYTES..q] == StringBytes(x)
    ensures DecodeName(d, p) == Ok((x, q))
  {
    BytesStringRoundTrip(x);
  }

  /** A name of 1 to 300 characters is read back exactly, NULs included. */
  lemma NameRoundTrip(x: CppString, d: seq<byte>, p: nat, q: nat)
    requires ValidName(x)
    requires p <= q <= |d| && d[p..q] == EncodeString(x)
    ensures DecodeName(d, p) == Ok((x, q))
  {
    Split2(d, p, q, EncodeSizeT(|x|), StringBytes(x));
    SizeTAt(d, p, p + SIZE_T_BYTES, |x|);
    assert q == p + SIZE_T_BYTES + |x|;
    DecodeNameOf(d, p, q, x);
  }

  /** Any other name is rejected: a written empty name cannot be read back. */
  lemma NameRejected(x: CppString, d: seq<byte>, p: nat, q: nat)
    requires !ValidName(x) && |x| <= MAX_SIZE_T
    requires p <= q <= |d| && d[p..q] == EncodeString(x)
    ensures DecodeName(d, p) == Err(InvalidStringLength)
  {
    Split2(d, p, q, EncodeSizeT(|x|), StringBytes(x));
    SizeTAt(d, p, p + SIZE_T_BYTES, |x|);
  }

  /** DecodeMeshes one mesh further. */
  lemma DecodeMeshesSnoc(d: seq<byte>, p: nat, k: nat, init: seq<MeshSnapshot>, m: nat, x: MeshSnapshot, q: nat)
    requires p <= |d|
    requires DecodeMeshes(d, p, k) == Ok((init, m)) && DecodeMesh(d, m) == Ok((x, q))
    ensures DecodeMeshes(d, p, k + 1) == Ok((init + [x], q))
  {
  }

  /** The encoding of a list of meshes, one mesh shorter. */
  lemma EncodeMeshesSnoc(init: seq<MeshSnapshot>, x: MeshSnapshot)
    ensures EncodeMeshes(init + [x]) == EncodeMeshes(init) + EncodeMesh(x)
  {
    SnocInit(init, x);
  }

  /** The encoding of a non-empty list of meshes held in d[p..q], split
      before its last mesh at m. */
  lemma SplitMeshes(ms: seq<MeshSnapshot>, d: seq<byte>, p: nat, q: nat) returns (init: seq<MeshSnapshot>, x: MeshSnapshot, m: nat)
    requires ms != [] && forall i :: 0 <= i < |ms| ==> Encodable(ms[i])
    requires p <= q <= |d| && d[p..q] == EncodeMeshes(ms)
    ensures ms == init + [x] && Encodable(x)
    ensures forall i :: 0 <= i < |init| ==> Encodable(init[i])
    ensures p <= m <= q && d[p..m] == EncodeMeshes(init) && d[m..q] == EncodeMesh(x)
  {
    init, x := ms[..|ms| - 1], ms[|ms| - 1];
    InitLast(ms);
    var a := EncodeMeshes(init);
    EncodeMeshesSnoc(init, x);
    Split2(d, p, q, a, EncodeMesh(x));
    m := p + |a|;
  }

  lemma {:induction false} MeshesRoundTrip(ms: seq<MeshSnapshot>, d: seq<byte>, p: nat, q: nat)
    requires forall i :: 0 <= i < |ms| ==> Encodable(ms[i])
    requires p <= q <= |d| && d[p..q] == EncodeMeshes(ms)
    ensures DecodeMeshes(d, p, |ms|) == Ok((ms, q))
  {
    if ms != [] {
      var init, x, m := SplitMeshes(ms, d, p, q);
      MeshesRoundTrip(init, d, p, m);
      MeshRoundTrip(x, d, m, q);
      DecodeMeshesSnoc(d, p, |init|, init, m, x, q);
    }
  }

  /** The same for a non-empty list of paths. */
  lemma SplitNames(xs: seq<CppString>, d: seq<byte>, p: nat, q: nat) returns (init: seq<CppString>, x: CppString, m: nat)
    requires xs != [] && forall i :: 0 <= i < |xs| ==> ValidName(xs[i])
    requires p <= q <= |d| && d[p..q] == EncodeNameList(xs)
    ensures xs == init + [x] && ValidName(x)
    ensures forall i :: 0 <= i < |init| ==> ValidName(init[i])
    ensures p <= m <= q && d[p..m] == EncodeNameList(init) && d[m..q] == EncodeString(x)
  {
    init, x := xs[..|xs| - 1], xs[|xs| - 1];
    InitLast(xs);
    var a := EncodeNameList(init);
    Split2(d, p, q, a, EncodeString(x));
    m := p + |a|;
  }

  lemma {:induction false} NamesRoundTrip(xs: seq<CppString>, d: seq<byte>, p: nat, q: nat)
    requires forall i :: 0 <= i < |xs| ==> ValidName(xs[i])
    requires p <= q <= |d| && d[p..q] == EncodeNameList(xs)
    ensures DecodeNames(d, p, |xs|) == Ok((xs, q))
  {
    if xs != [] {
      var init, x, m := SplitNames(xs, d, p, q);
      NamesRoundTrip(init, d, p, m);
      NameRoundTrip(x, d, m, q);
    }
  }

  /** DecodeLists in terms of its parts. */
  lemma DecodeListsSteps(d: seq<byte>, p: nat, prior: seq<Texture>, resolve: CppString -> U32,
                         ms: seq<MeshSnapshot>, names: seq<CppString>, p1: nat, p2: nat, p3: nat, q: nat)
    requires |ms| <= MAX_MESHES && |names| <= MAX_TEXTURES && p1 <= |d|
    requires DecodeSizeT(d, p) == Ok((|ms|, p1))
    requires DecodeMeshes(d, p1, |ms|) == Ok((ms, p2))
    requires DecodeSizeT(d, p2) == Ok((|names|, p3)) && p3 <= |d|
    requires DecodeNames(d, p3, |names|) == Ok((names, q))
    ensures DecodeLists(d, p, prior, resolve) ==
      Ok(((ms, LoadedTextures(Resized(prior, |names|, DEFAULT_TEXTURE), names, resolve)), q))
  {
  }

  lemma ListsRoundTrip(ms: seq<MeshSnapshot>, ts: seq<Texture>, prior: seq<Texture>, resolve: CppString -> U32, d: seq<byte>, p: nat, q: nat)
    requires |ms| <= MAX_MESHES && forall i :: 0 <= i < |ms| ==> Encodable(ms[i])
    requires |ts| <= MAX_TEXTURES && forall i :: 0 <= i < |ts| ==> ValidName(ts[i].path)
    requires p <= q <= |d| && d[p..q] == EncodeLists(ms, ts)
    ensures DecodeLists(d, p, prior, resolve) ==
      Ok(((ms, LoadedTextures(Resized(prior, |ts|, DEFAULT_TEXTURE), Paths(ts), resolve)), q))
  {
    var names := Paths(ts);
    var a, b, c, e := EncodeSizeT(|ms|), EncodeMeshes(ms), EncodeSizeT(|names|), EncodeNameList(names);
    Split4(d, p, q, a, b, c, e);
    var p1 := p + |a|;
    var p2 := p1 + |b|;
    var p3 := p2 + |c|;
    SizeTAt(d, p, p1, |ms|);
    MeshesRoundTrip(ms, d, p1, p2);
    SizeTAt(d, p2, p3, |names|);
    assert forall i :: 0 <= i < |names| ==> ValidName(names[i]);
    NamesRoundTrip(names, d, p3, q);
    DecodeListsSteps(d, p, prior, resolve, ms, names, p1, p2, p3, q);
  }

  /** The transform read back from its 36 bytes. */
  lemma TransformRoundTrip(s: ModelSnapshot, d: seq<byte>, p: nat)
    requires p + TRANSFORM_BYTES <= |d| && d[p..p + TRANSFORM_BYTES] == EncodeTransform(s)
    ensures DecodeVec3(d[p..p + VEC3_BYTES]) == s.position
    ensures DecodeVec3(d[p + VEC3_BYTES..p + 2 * VEC3_BYTES]) == s.rotation
    ensures DecodeVec3(d[p + 2 * VEC3_BYTES..p + TRANSFORM_BYTES]) == s.scale
  {
    Split3(d, p, p + TRANSFORM_BYTES, EncodeVec3(s.position), EncodeVec3(s.rotation), EncodeVec3(s.scale));
    Vec3RoundTrip(s.position);
    Vec3RoundTrip(s.rotation);
    Vec3RoundTrip(s.scale);
  }

  /** DecodeModel in terms of its parts. */
  lemma DecodeModelSteps(d: seq<byte>, p: nat, prior: ModelSnapshot, resolve: CppString -> U32, s: ModelSnapshot, p1: nat, p2: nat, q: nat)
    requires p + TRANSFORM_BYTES <= |d|
    requires DecodeVec3(d[p..p + VEC3_BYTES]) == s.position
    requires DecodeVec3(d[p + VEC3_BYTES..p + 2 * VEC3_BYTES]) == s.rotation
    requires DecodeVec3(d[p + 2 * VEC3_BYTES..p + TRANSFORM_BYTES]) == s.scale
    requires DecodeName(d, p + TRANSFORM_BYTES) == Ok((s.objectName, p1))
    requires DecodeName(d, p1) == Ok((s.textureName, p2))
    requires DecodeLists(d, p2, prior.textures, resolve) == Ok(((s.meshes, s.textures), q))
    requires s.shader == prior.shader
    ensures DecodeModel(d, p, prior, resolve) == Ok((s, q))
  {
  }

  /** The bytes of a snapshot held in d[p..q], cut into the transform, the
      two names (the texture name from p1) and the lists (from p2). */
  lemma SplitModel(s: ModelSnapshot, d: seq<byte>, p: nat, q: nat) returns (p1: nat, p2: nat)
    requires p <= q <= |d| && d[p..q] == EncodeModel(s)
    ensures p + TRANSFORM_BYTES <= p1 <= p2 <= q
    ensures p1 == p + TRANSFORM_BYTES + SIZE_T_BYTES + |s.objectName|
    ensures d[p..p + TRANSFORM_BYTES] == EncodeTransform(s)
    ensures d[p + TRANSFORM_BYTES..p1] == EncodeString(s.objectName)
    ensures d[p1..p2] == EncodeString(s.textureName)
    ensures d[p2..q] == EncodeLists(s.meshes, s.textures)
  {
    var et, en := EncodeTransform(s), EncodeNames(s);
    Split3(d, p, q, et, en, EncodeLists(s.meshes, s.textures));
    var p0 := p + |et|;
    var eo := EncodeString(s.objectName);
    Split2(d, p0, p0 + |en|, eo, EncodeString(s.textureName));
    p1, p2 := p0 + |eo|, p0 + |en|;
  }

  /** Reading back what serialize wrote, from wherever it sits in the
      stream, gives the snapshot (up to the texture ids and types and the
      shader, which are not written) and stops right after its bytes. */
  lemma ModelRoundTrip(s: ModelSnapshot, prior: ModelSnapshot, resolve: CppString -> U32, d: seq<byte>, p: nat, q: nat)
    requires ModelEncodable(s)
    requires p <= q <= |d| && d[p..q] == EncodeModel(s)
    ensures DecodeModel(d, p, prior, resolve) == Ok((Restored(s, prior, resolve), q))
  {
    var p1, p2 := SplitModel(s, d, p, q);
    var p0 := p + TRANSFORM_BYTES;
    TransformRoundTrip(s, d, p);
    NameRoundTrip(s.objectName, d, p0, p1);
    NameRoundTrip(s.textureName, d, p1, p2);
    ListsRoundTrip(s.meshes, s.textures, prior.textures, resolve, d, p2, q);
    DecodeModelSteps(d, p, prior, resolve, Restored(s, prior, resolve), p1, p2, q);
  }


  /** A header (transform and two names) as deserialize reads it; p1 is
      where the texture name starts. */
  lemma HeaderRoundTrip(s: ModelSnapshot, d: seq<byte>, p: nat, q: nat) returns (p1: nat)
    requires ValidName(s.objectName) && ValidName(s.textureName)
    requires p <= q <= |d| && d[p..q] == EncodeTransform(s) + EncodeNames(s)
    ensures p + TRANSFORM_BYTES <= |d|
    ensures DecodeName(d, p + TRANSFORM_BYTES) == Ok((s.objectName, p1))
    ensures DecodeName(d, p1) == Ok((s.textureName, q))
  {
    var en := EncodeNames(s);
    Split2(d, p, q, EncodeTransform(s), en);
    var p0 := p + TRANSFORM_BYTES;
    var eo := EncodeString(s.objectName);
    Split2(d, p0, q, eo, EncodeString(s.textureName));
    p1 := p0 + |eo|;
    NameRoundTrip(s.objectName, d, p0, p1);
    NameRoundTrip(s.textureName, d, p1, q);
  }

  /** A snapshot whose object name is empty or longer than 300 characters is
      written but cannot be read back. */
  lemma ObjectNameRejected(s: ModelSnapshot, prior: ModelSnapshot, resolve: CppString -> U32)
    requires !ValidName(s.objectName) && |s.objectName| <= MAX_SIZE_T
    ensures DecodeModel(EncodeModel(s), 0, prior, resolve) == Err(InvalidStringLength)
  {
    var d := EncodeModel(s);
    assert d[0..|d|] == d;
    var p1, p2 := SplitModel(s, d, 0, |d|);
    NameRejected(s.objectName, d, TRANSFORM_BYTES, p1);
  }


  /** The same for the texture name. */
  lemma TextureNameRejected(s: ModelSnapshot, prior: ModelSnapshot, resolve: CppString -> U32)
    requires ValidName(s.objectName) && !ValidName(s.textureName) && |s.textureName| <= MAX_SIZE_T
    ensures DecodeModel(EncodeModel(s), 0, prior, resolve) == Err(InvalidStringLength)
  {
    var d := EncodeModel(s);
    assert d[0..|d|] == d;
    var p1, p2 := SplitModel(s, d, 0, |d|);
    NameRoundTrip(s.objectName, d, TRANSFORM_BYTES, p1);
    NameRejected(s.textureName, d, p1, p2);
  }


  /** A fresh snapshot of any model has empty names, so its bytes can never
      be read back. */
  lemma CapturedNotReadable(s: ModelSnapshot, prior: ModelSnapshot, resolve: CppString -> U32)
    requires s.objectName == [] && s.textureName == []
    ensures DecodeModel(EncodeModel(s), 0, prior, resolve) == Err(InvalidStringLength)
  {
    ObjectNameRejected(s, prior, resolve);
  }

  /** DecodeModel when the lists after a readable header fail. */
  lemma ListsErrorIsModelError(d: seq<byte>, p: nat, prior: ModelSnapshot, resolve: CppString -> U32, p1: nat, q: nat)
    requires p + TRANSFORM_BYTES <= |d|
    requires DecodeName(d, p + TRANSFORM_BYTES).Ok? && DecodeName(d, p + TRANSFORM_BYTES).value.1 == p1
    requires DecodeName(d, p1).Ok? && DecodeName(d, p1).value.1 == q
    requires DecodeLists(d, q, prior.textures, resolve).Err?
    ensures DecodeModel(d, p, prior, resolve) == Err(DecodeLists(d, q, prior.textures, resolve).error)
  {
  }

  /** A mesh count above 100 after a valid header is rejected before any
      mesh is read: whatever follows the count does not matter. */
  lemma TooManyMeshesRejected(s: ModelSnapshot, d: seq<byte>, p: nat, q: nat, prior: ModelSnapshot, resolve: CppString -> U32)
    requires ValidName(s.objectName) && ValidName(s.textureName)
    requires p <= q <= |d| && d[p..q] == EncodeTransform(s) + EncodeNames(s)
    requires DecodeSizeT(d, q).Ok? && DecodeSizeT(d, q).value.0 > MAX_MESHES
    ensures DecodeModel(d, p, prior, resolve) == Err(TooManyMeshes)
  {
    var p1 := HeaderRoundTrip(s, d, p, q);
    ListsErrorIsModelError(d, p, prior, resolve, p1, q);
  }

  /** A texture count above 100 after a valid header and valid meshes is
      rejected before any texture path is read. */
  lemma TooManyTexturesRejected(s: ModelSnapshot, d: seq<byte>, p: nat, q: nat, prior: ModelSnapshot, resolve: CppString -> U32)
    requires ValidName(s.objectName) && ValidName(s.textureName)
    requires |s.meshes| <= MAX_MESHES && forall i :: 0 <= i < |s.meshes| ==> Encodable(s.meshes[i])
    requires p <= q <= |d| && d[p..q] == EncodeTransform(s) + EncodeNames(s) + EncodeSizeT(|s.meshes|) + EncodeMeshes(s.meshes)
    requires DecodeSizeT(d, q).Ok? && DecodeSizeT(d, q).value.0 > MAX_TEXTURES
    ensures DecodeModel(d, p, prior, resolve) == Err(TooManyTextures)
  {
    var h := EncodeTransform(s) + EncodeNames(s);
    Split3(d, p, q, h, EncodeSizeT(|s.meshes|), EncodeMeshes(s.meshes));
    var m := p + |h|;
    var p1 := HeaderRoundTrip(s, d, p, m);
    SizeTAt(d, m, m + SIZE_T_BYTES, |s.meshes|);
    MeshesRoundTrip(s.meshes, d, m + SIZE_T_BYTES, q);
    TexturesCountRejected(d, m, q, s.meshes, prior.textures, resolve);
    ListsErrorIsModelError(d, p, prior, resolve, p1, m);
  }

  lemma TexturesCountRejected(d: seq<byte>, p: nat, q: nat, ms: seq<MeshSnapshot>, prior: seq<Texture>, resolve: CppString -> U32)
    requires |ms| <= MAX_MESHES && p + SIZE_T_BYTES <= |d|
    requires DecodeSizeT(d, p) == Ok((|ms|, p + SIZE_T_BYTES))
    requires DecodeMeshes(d, p + SIZE_T_BYTES, |ms|) == Ok((ms, q))
    requires DecodeSizeT(d, q).Ok? && DecodeSizeT(d, q).value.0 > MAX_TEXTURES
    ensures DecodeLists(d, p, prior, resolve) == Err(TooManyTextures)
  {
  }

  /** serialize writes no shader data. */
  lemma ShaderNotWritten(s: ModelSnapshot, shader: ShaderSnapshot)
    ensures EncodeModel(s.(shader := shader)) == EncodeModel(s)
  {
  }

  // ---------------------------------------------------------------------
  // Every accepted stream is written back as the same bytes

  lemma NameCanonical(d: seq<byte>, p: nat)
    requires DecodeName(d, p).Ok?
    ensures var r := DecodeName(d, p).value;
      ValidName(r.0) && EncodeString(r.0) == d[p..r.1]
  {
    var r := DecodeName(d, p).value;
    var m := p + SIZE_T_BYTES;
    SizeTCanonical(d[p..m]);
    assert StringBytes(r.0) == d[m..r.1];
    assert d[p..r.1] == d[p..m] + d[m..r.1];
  }

  /** The encoding of meshes read one after the other is the bytes they
      were read from, one mesh further. */
  lemma MeshesCanonicalStep(d: seq<byte>, p: nat, m: nat, q: nat, init: seq<MeshSnapshot>, x: MeshSnapshot)
    requires p <= m <= q <= |d|
    requires forall i :: 0 <= i < |init| ==> Encodable(init[i])
    requires EncodeMeshes(init) == d[p..m]
    requires Encodable(x) && EncodeMesh(x) == d[m..q]
    ensures forall i :: 0 <= i < |init + [x]| ==> Encodable((init + [x])[i])
    ensures EncodeMeshes(init + [x]) == d[p..q]
  {
    EncodeMeshesSnoc(init, x);
    Join2(d, p, m, q);
    forall i | 0 <= i < |init + [x]| ensures Encodable((init + [x])[i]) {
      if i < |init| {
        assert (init + [x])[i] == init[i];
      }
    }
  }

  /** A successful read of n > 0 meshes is a read of n - 1 meshes and then
      one more. */
  lemma DecodeMeshesLast(d: seq<byte>, p: nat, n: nat, ms: seq<MeshSnapshot>, q: nat) returns (init: seq<MeshSnapshot>, m: nat, x: MeshSnapshot)
    requires 0 < n && p <= |d| && DecodeMeshes(d, p, n) == Ok((ms, q))
    ensures DecodeMeshes(d, p, n - 1) == Ok((init, m)) && DecodeMesh(d, m) == Ok((x, q))
    ensures ms == init + [x]
  {
    var r := DecodeMeshes(d, p, n - 1).value;
    init, m := r.0, r.1;
    x := DecodeMesh(d, m).value.0;
  }

  /** The n meshes read at p are encodable, and their encoding is exactly
      the bytes they were read from. */
  lemma {:induction false} MeshesCanonical(d: seq<byte>, p: nat, n: nat, ms: seq<MeshSnapshot>, q: nat)
    requires p <= |d| && DecodeMeshes(d, p, n) == Ok((ms, q))
    ensures forall i :: 0 <= i < |ms| ==> Encodable(ms[i])
    ensures EncodeMeshes(ms) == d[p..q]
  {
    if n > 0 {
      var init, m, x := DecodeMeshesLast(d, p, n, ms, q);
      MeshesCanonical(d, p, n - 1, init, m);
      MeshCanonical(d, m, x, q);
      MeshesCanonicalStep(d, p, m, q, init, x);
    }
  }

  /** The encoding of the n paths read at p is exactly the bytes they were
      read from. */
  lemma {:induction false} NamesCanonical(d: seq<byte>, p: nat, n: nat, xs: seq<CppString>, q: nat)
    requires p <= |d| && DecodeNames(d, p, n) == Ok((xs, q))
    ensures EncodeNameList(xs) == d[p..q]
  {
    if n > 0 {
      var init := DecodeNames(d, p, n - 1).value;
      var x := DecodeName(d, init.1).value;
      NamesCanonical(d, p, n - 1, init.0, init.1);
      NameCanonical(d, init.1);
      SnocInit(init.0, x.0);
      Join2(d, p, init.1, x.1);
    }
  }

  lemma PathsOfLoaded(olds: seq<Texture>, paths: seq<CppString>, resolve: CppString -> U32)
    requires |olds| == |paths|
    ensures Paths(LoadedTextures(olds, paths, resolve)) == paths
  {
  }

  lemma ListsCanonical(d: seq<byte>, p: nat, prior: seq<Texture>, resolve: CppString -> U32)
    requires DecodeLists(d, p, prior, resolve).Ok?
    ensures var r := DecodeLists(d, p, prior, resolve).value;
      (forall i :: 0 <= i < |r.0.0| ==> Encodable(r.0.0[i])) &&
      EncodeLists(r.0.0, r.0.1) == d[p..r.1]
  {
    var mc := DecodeSizeT(d, p).value;
    var ms := DecodeMeshes(d, mc.1, mc.0).value;
    var tc := DecodeSizeT(d, ms.1).value;
    var olds := Resized(prior, tc.0, DEFAULT_TEXTURE);
    var names := DecodeNames(d, tc.1, tc.0).value;
    SizeTSliceCanonical(d, p);
    MeshesCanonical(d, mc.1, mc.0, ms.0, ms.1);
    SizeTSliceCanonical(d, ms.1);
    NamesCanonical(d, tc.1, tc.0, names.0, names.1);
    PathsOfLoaded(olds, names.0, resolve);
    Join4(d, p, mc.1, ms.1, tc.1, names.1);
  }

  /** The transform bytes are the encodings of the vectors read from them. */
  lemma TransformCanonical(d: seq<byte>, p: nat)
    requires p + TRANSFORM_BYTES <= |d|
    ensures var i, j, k := p + VEC3_BYTES, p + 2 * VEC3_BYTES, p + TRANSFORM_BYTES;
      EncodeVec3(DecodeVec3(d[p..i])) + EncodeVec3(DecodeVec3(d[i..j])) + EncodeVec3(DecodeVec3(d[j..k])) == d[p..k]
  {
    var i, j, k := p + VEC3_BYTES, p + 2 * VEC3_BYTES, p + TRANSFORM_BYTES;
    Vec3Canonical(d[p..i]);
    Vec3Canonical(d[i..j]);
    Vec3Canonical(d[j..k]);
    Join3(d, p, i, j, k);
  }

  /** Conversely, a snapshot read from the stream is one serialize can
      write, and it is written back as exactly the bytes it was read from. */
  lemma ModelCanonical(d: seq<byte>, p: nat, prior: ModelSnapshot, resolve: CppString -> U32)
    requires DecodeModel(d, p, prior, resolve).Ok?
    ensures var r := DecodeModel(d, p, prior, resolve).value;
      ModelEncodable(r.0) && EncodeModel(r.0) == d[p..r.1]
  {
    var p0 := p + TRANSFORM_BYTES;
    var on := DecodeName(d, p0).value;
    var tn := DecodeName(d, on.1).value;
    var lists := DecodeLists(d, tn.1, prior.textures, resolve).value;
    var x := ModelSnapshot(DecodeVec3(d[p..p + VEC3_BYTES]), DecodeVec3(d[p + VEC3_BYTES..p + 2 * VEC3_BYTES]),
                           DecodeVec3(d[p + 2 * VEC3_BYTES..p0]), on.0, tn.0, lists.0.0, lists.0.1, prior.shader);
    assert DecodeModel(d, p, prior, resolve).value == (x, lists.1);
    TransformCanonical(d, p);
    assert EncodeTransform(x) == d[p..p0];
    NameCanonical(d, p0);
    NameCanonical(d, on.1);
    Join2(d, p0, on.1, tn.1);
    assert EncodeNames(x) == d[p0..tn.1];
    ListsCanonical(d, tn.1, prior.textures, resolve);
    assert EncodeLists(x.meshes, x.textures) == d[tn.1..lists.1];
    Join3(d, p, p0, tn.1, lists.1);
    assert ModelEncodable(x);
  }

  // ---------------------------------------------------------------------
  // The stream operations

  /** serialize. */
  method SerializeModel(s: ModelSnapshot, os: OutStream)
    modifies os
    ensures os.bytes == old(os.bytes) + EncodeModel(s)
  {
    ghost var h0 := os.bytes;
    ghost var v1, v2, v3 := EncodeVec3(s.position), EncodeVec3(s.rotation), EncodeVec3(s.scale);
    os.Write(EncodeVec3(s.position));
    os.Write(EncodeVec3(s.rotation));
    os.Write(EncodeVec3(s.scale));
    AppendAssoc(h0, v1, v2);
    AppendAssoc(h0, v1 + v2, v3);
    ghost var t := EncodeTransform(s);
    WriteString(os, s.objectName);
    WriteString(os, s.textureName);
    AppendAssoc(h0 + t, EncodeString(s.objectName), EncodeString(s.textureName));
    ghost var h, n := os.bytes, EncodeNames(s);
    ghost var a, b, c, e := EncodeSizeT(|s.meshes|), EncodeMeshes(s.meshes), EncodeSizeT(|s.textures|), EncodeNameList(Paths(s.textures));
    os.Write(EncodeSizeT(|s.meshes|));
    SerializeMeshes(s.meshes, os);
    os.Write(EncodeSizeT(|s.textures|));
    SerializeTexturePaths(s.textures, os);
    AppendAssoc(h, a, b);
    AppendAssoc(h, a + b, c);
    AppendAssoc(h, a + b + c, e);
    AppendAssoc(h0, t, n);
    AppendAssoc(h0, t + n, a + b + c + e);
  }

  /** The loop `for (const auto& mesh : meshes) mesh.serialize(os)`. */
  method SerializeMeshes(ms: seq<MeshSnapshot>, os: OutStream)
    modifies os
    ensures os.bytes == old(os.bytes) + EncodeMeshes(ms)
  {
    for i := 0 to |ms|
      invariant os.bytes == old(os.bytes) + EncodeMeshes(ms[..i])
    {
      ghost var h := os.bytes;
      SerializeMesh(ms[i], os);
      EncodeBlocksSnoc(ms, EncodeMesh, i);
      AppendAssoc(old(os.bytes), EncodeMeshes(ms[..i]), EncodeMesh(ms[i]));
    }
    assert ms[..|ms|] == ms;
  }

  /** The loop over the textures, writing each path as a string. */
  method SerializeTexturePaths(ts: seq<Texture>, os: OutStream)
    modifies os
    ensures os.bytes == old(os.bytes) + EncodeNameList(Paths(ts))
  {
    ghost var paths := Paths(ts);
    for i := 0 to |ts|
      invariant os.bytes == old(os.bytes) + EncodeNameList(paths[..i])
    {
      WriteString(os, ts[i].path);
      EncodeBlocksSnoc(paths, EncodeString, i);
      AppendAssoc(old(os.bytes), EncodeNameList(paths[..i]), EncodeString(paths[i]));
    }
    assert paths[..|ts|] == paths;
  }

  /** deserializeVec3: an unchecked 12-byte read. */
  method DeserializeVec3(input: InStream) returns (v: Vec3)
    requires input.Valid()
    modifies input
    ensures input.Valid()
    ensures var p := old(input.pos);
      if old(input.failed) || p + VEC3_BYTES > |input.data| then input.failed
      else !input.failed && input.pos == p + VEC3_BYTES && v == DecodeVec3(input.data[p..input.pos])
  {
    var b := input.Read(VEC3_BYTES);
    v := DecodeVec3(b);
  }

  /** deserializeString. A failed stream leaves the position at the end,
      where the length cannot be read. */
  method DeserializeString(input: InStream) returns (r: Result<CppString, DecodeError>)
    requires input.Valid()
    modifies input
    ensures input.Valid()
    ensures var e := DecodeName(input.data, old(input.pos));
      (e.Ok? ==> !input.failed && r == Ok(e.value.0) && input.pos == e.value.1) &&
      (e.Err? ==> r == Err(e.error))
  {
    var length := ReadSizeT(input);
    if length > MAX_NAME_LENGTH || length == 0 || input.failed {
      return Err(InvalidStringLength);
    }
    var b := input.Read(length);
    if input.failed {
      return Err(StringReadFailed);
    }
    return Ok(BytesString(b));
  }

  /** `meshes.resize(n)` and `mesh.deserialize(is)` for each mesh. */
  method DeserializeMeshes(input: InStream, prior: seq<MeshSnapshot>, n: nat) returns (ms: seq<MeshSnapshot>)
    requires input.Valid()
    modifies input
    ensures input.Valid()
    ensures var e := DecodeMeshes(input.data, old(input.pos), n);
      if old(input.failed) || e.Err? then input.failed
      else !input.failed && ms == e.value.0 && input.pos == e.value.1
  {
    ghost var p0 := input.pos;
    ghost var failed0 := input.failed;
    var a := new MeshSnapshot[n](i requires 0 <= i < n => if i < |prior| then prior[i] else EMPTY_MESH_SNAPSHOT);
    for i := 0 to n
      invariant input.Valid()
      invariant var e := DecodeMeshes(input.data, p0, i);
        if failed0 || e.Err? then input.failed
        else !input.failed && a[..i] == e.value.0 && input.pos == e.value.1
    {
      var m := DeserializeMesh(input);
      a[i] := m;
      assert a[..i + 1] == a[..i] + [m];
    }
    assert a[..] == a[..n];
    ms := a[..];
  }

  /** `textures.resize(n)` (earlier, into olds), then for each texture its
      path and the id found for it, in place. */
  method DeserializeTexturePaths(input: InStream, olds: seq<Texture>, resolve: CppString -> U32) returns (r: Result<seq<Texture>, DecodeError>)
    requires input.Valid()
    modifies input
    ensures input.Valid()
    ensures var e := DecodeNames(input.data, old(input.pos), |olds|);
      (e.Ok? ==> r == Ok(LoadedTextures(olds, e.value.0, resolve)) && input.pos == e.value.1 && input.failed == old(input.failed)) &&
      (e.Err? ==> r == Err(e.error))
  {
    ghost var p0 := input.pos;
    var a := new Texture[|olds|](i requires 0 <= i < |olds| => olds[i]);
    for i := 0 to |olds|
      invariant input.Valid() && input.failed == old(input.failed)
      invariant a[i..] == olds[i..]
      invariant var e := DecodeNames(input.data, p0, i);
        e.Ok? && a[..i] == LoadedTextures(olds[..i], e.value.0, resolve) && input.pos == e.value.1
    {
      ghost var init := DecodeNames(input.data, p0, i).value.0;
      var path := DeserializeString(input);
      if path.Err? {
        DecodeNamesStops(input.data, p0, |olds|, i);
        return Err(path.error);
      }
      assert a[i] == olds[i];
      a[i] := LoadedTexture(a[i], path.value, resolve);
      LoadedTexturesSnoc(olds, init, path.value, resolve);
      assert a[..i + 1] == a[..i] + [a[i]];
    }
    assert a[..] == a[..|olds|] && olds[..|olds|] == olds;
    r := Ok(a[..]);
  }

  lemma LoadedTexturesSnoc(olds: seq<Texture>, init: seq<CppString>, x: CppString, resolve: CppString -> U32)
    requires |init| < |olds|
    ensures var i := |init|;
      LoadedTextures(olds[..i + 1], init + [x], resolve) == LoadedTextures(olds[..i], init, resolve) + [LoadedTexture(olds[i], x, resolve)]
  {
  }

  /** A string that fails to read at item i is the error of the whole loop. */
  lemma {:induction false} DecodeNamesStops(d: seq<byte>, p: nat, n: nat, i: nat)
    requires i < n && p <= |d|
    requires DecodeNames(d, p, i).Ok?
    requires DecodeName(d, DecodeNames(d, p, i).value.1).Err?
    ensures DecodeNames(d, p, n) == Err(DecodeName(d, DecodeNames(d, p, i).value.1).error)
  {
    if i < n - 1 {
      DecodeNamesStops(d, p, n - 1, i);
    }
  }

  /** The two lists, each behind its checked count. */
  method DeserializeLists(input: InStream, prior: ModelSnapshot, resolve: CppString -> U32) returns (r: Result<(seq<MeshSnapshot>, seq<Texture>), DecodeError>)
    requires input.Valid() && !input.failed
    modifies input
    ensures input.Valid()
    ensures var e := DecodeLists(input.data, old(input.pos), prior.textures, resolve);
      (e.Ok? ==> r == Ok(e.value.0) && !input.failed && input.pos == e.value.1) &&
      (e.Err? && e.error != ReadFailed ==> r == Err(e.error))
  {
    var numMeshes := ReadSizeT(input);
    if numMeshes > MAX_MESHES {
      return Err(TooManyMeshes);
    }
    var meshes := DeserializeMeshes(input, prior.meshes, numMeshes);
    var sizeTextures := ReadSizeT(input);
    if sizeTextures > MAX_TEXTURES {
      return Err(TooManyTextures);
    }
    var textures := DeserializeTexturePaths(input, Resized(prior.textures, sizeTextures, DEFAULT_TEXTURE), resolve);
    if textures.Err? {
      return Err(textures.error);
    }
    r := Ok((meshes, textures.value));
  }

  /** deserialize into the snapshot prior: the new snapshot, or the
      exception it throws. ReadFailed marks the reads whose outcome the
      source leaves undetermined; for those nothing is promised. */
  method DeserializeModel(input: InStream, prior: ModelSnapshot, resolve: CppString -> U32) returns (r: Result<ModelSnapshot, DecodeError>)
    requires input.Valid()
    modifies input
    ensures input.Valid()
    ensures var e := DecodeModel(input.data, old(input.pos), prior, resolve);
      (e.Ok? ==> r == Ok(e.value.0) && !input.failed && input.pos == e.value.1) &&
      (e.Err? && e.error != ReadFailed ==> r == Err(e.error))
  {
    ghost var p := input.pos;
    var position := DeserializeVec3(input);
    var rotation := DeserializeVec3(input);
    var scale := DeserializeVec3(input);
    var objectName := DeserializeString(input);
    if objectName.Err? {
      return Err(objectName.error);
    }
    var textureName := DeserializeString(input);
    if textureName.Err? {
      return Err(textureName.error);
    }
    var lists := DeserializeLists(input, prior, resolve);
    if lists.Err? {
      return Err(lists.error);
    }
    r := Ok(ModelSnapshot(position, rotation, scale, objectName.value, textureName.value,
                          lists.value.0, lists.value.1, prior.shader));
  }
}
