# 3DInteriorDesigner: a Dafny model of its scene core

3DInteriorDesigner is an OpenGL room editor. The user places models (a cube,
a chair) in a room, names them in a menu, moves and deletes them, and saves
snapshots of them. This project models the parts of that program that
compute rather than draw:

- **The snapshot codec** (`Snapshot.h`). `MeshSnapshot`, `ShaderSnapshot`
  and `ModelSnapshot` copy the state of a mesh, a shader and a model, write
  it to a byte stream and read it back. The model covers the raw
  little-endian layout, the length and count checks, and the stream's
  failure flag.
- **The shader's state** (`Shader.h`). This is the uniform values that the
  setters store, plus the JSON form written by `serialize` and read by
  `deserialize`.
- **The mesh** (`Mesh.h`). This is the vertex layout, the mesh constructors
  and the VAO cache keyed by the vertex layout.
- **The mat4 JSON helpers** (`glm_json.cpp`).
- **The editor state** (`main.cpp`). This covers the model list and the
  list of menu names, the unique naming of a new object, deleting the
  selected object and the selection that follows, and the JSON form of a
  model's transform.

Files, each one module:

- `wrappers.dfy` (Option, Result), `seqs.dfy` (erase and resize on
  sequences), `bytes.dfy` (little-endian words, size_t), `text.dfy`
  (std::string as characters, to_string), `glm.dfy` (floats as 32-bit
  patterns, vectors, column-major matrices).
- `json.dfy` (the nlohmann::json values and accessors the core uses),
  `codec.dfy` (byte-level decoding functions), `streams.dfy` (`std::ostream`
  and `std::istream` as classes).
- `mesh.dfy`, `mesh_snapshot.dfy`, `shader_json.dfy`, `shader.dfy`,
  `shader_snapshot.dfy`, `model.dfy`, `model_snapshot.dfy`, `glm_json.dfy`
  and `editor.dfy` follow the source files.

Binary readers are specified twice:

- as a pure decoding function over the bytes and a position, returning the
  value and the next position or an error;
- as a method over an `InStream` that does what the C++ code does, proved
  against that function.

Round-trip lemmas show that decoding what the encoder wrote gives the value
back. Canonical lemmas show that every accepted input is exactly the
encoding of what was read.

The code sets these limits, and the model keeps them as written:

- names are limited to 300 characters;
- an empty name is rejected;
- only the model-level mesh and texture counts are bounded (by 100), and the
  per-mesh vertex, index and texture counts are not;
- the shader snapshot reads paths without any length check.

## Model

| member | source | states |
|---|---|---|
| Streams.OutStream.Write | Snapshot.h:27-46 | `os.write` appends exactly the given bytes to what was written |
| Streams.InStream.Read | Snapshot.h:48-74 | `is.read` of n bytes yields the next n bytes and advances; a short read, or any read after a failure, leaves the stream failed |
| Streams.ReadSizeT | Snapshot.h:249-253 | reading a size_t yields the 8-byte little-endian value at the position, or leaves the stream failed |
| Streams.WriteString | Snapshot.h:163-170 | a string goes out as its size_t length followed by its characters, with no NUL |
| Streams.WriteBlocks | Snapshot.h:30-33 | writing each element in turn appends the concatenation of their encodings |
| Streams.WriteList | Snapshot.h:29-45 | a vector goes out as its size_t count followed by its elements |
| Streams.FillBlocks | Snapshot.h:51-53 | reading each element of a resized vector in place gives the fixed-width blocks that follow, or leaves the stream failed |
| Streams.ReadList | Snapshot.h:49-73 | count, resize, then in-place reads agree with the list decoder |
| MeshData.VertexCodec | Mesh.h:19-29 | a Vertex is 88 bytes, and reading its bytes back restores it |
| MeshData.VertexCanonical | Mesh.h:19-29 | every 88-byte block is the encoding of the vertex read from it |
| MeshData.Mesh.Empty | Mesh.h:45 | the default mesh has no vertices, indices or textures |
| MeshData.Mesh.constructor | Mesh.h:47-55 | the mesh keeps the given data and sets up its buffers once |
| MeshData.Mesh.SetupMesh | Mesh.h:60 | each setup is counted |
| MeshData.VaoManager.constructor | Mesh.h:99-100 | the cache starts empty |
| MeshData.VaoManager.GetLayoutKey | Mesh.h:103-111 | the layout key is "P:12N:12T:8" for every mesh |
| MeshData.VaoManager.GetVao | Mesh.h:74-97 | a cached layout returns its VAO and creates nothing; otherwise it creates one VAO, caches it (0 included) and returns it |
| MeshData.VaoManager.CreateVao | Mesh.h:112-140 | one VAO is created and its handle returned |
| MeshSnapshots.CaptureMesh | Snapshot.h:18-19 | the snapshot holds copies of the mesh's vertices, indices and textures; ApplyToMesh proves that capturing an applied mesh gives the snapshot back |
| MeshSnapshots.CapturedMeshRoundTrip | Snapshot.h:18-74 | a captured mesh, serialized and deserialized, gives the mesh's own three lists and consumes exactly the bytes written |
| MeshSnapshots.ApplyToMesh | Snapshot.h:21-26 | the mesh then holds exactly the snapshot's data, and its buffers are set up once more |
| MeshSnapshots.SerializeMesh | Snapshot.h:27-46 | appends the vertices, indices and textures, each with its count |
| MeshSnapshots.DeserializeMesh | Snapshot.h:48-74 | reads what the mesh decoder reads, or leaves the stream failed when the data runs out |
| MeshSnapshots.DecodeVertices | Snapshot.h:49-54 | the vertex list read fails only by running out of data and consumes at least its count |
| MeshSnapshots.DecodeIndices | Snapshot.h:55-59 | the same for the index list |
| MeshSnapshots.DecodeTextures | Snapshot.h:61-66 | the same for the texture list |
| MeshSnapshots.DecodeMesh | Snapshot.h:48-74 | the only failure of a mesh read is running out of data, and it consumes at least the three counts |
| MeshSnapshots.EncodeMeshLength | Snapshot.h:27-46 | the byte size is 24 + 88 per vertex + 4 per index + sizeof(Texture) per texture |
| MeshSnapshots.VerticesRoundTrip | Snapshot.h:28-33 | reading back the written vertices gives them exactly and stops at their end |
| MeshSnapshots.IndicesRoundTrip | Snapshot.h:34-39 | the same for the indices |
| MeshSnapshots.TexturesRoundTrip | Snapshot.h:40-45 | the same for the raw texture records |
| MeshSnapshots.VerticesCanonical | Snapshot.h:49-54 | whatever the vertex reader accepts is exactly the encoding of what it read |
| MeshSnapshots.IndicesCanonical | Snapshot.h:55-59 | the same for the indices |
| MeshSnapshots.TexturesCanonical | Snapshot.h:61-66 | the same for the textures |
| MeshSnapshots.MeshRoundTrip | Snapshot.h:27-74 | deserialize(serialize(s)) == s for every mesh snapshot |
| MeshSnapshots.MeshCanonical | Snapshot.h:48-74 | every accepted byte range is the serialization of the snapshot read from it |
| ShaderSnapshots.CaptureShader | Snapshot.h:80-81 | the snapshot holds the shader's vertex and fragment paths; ApplyToShader proves that capturing an applied shader gives the snapshot back |
| ShaderSnapshots.CapturedShaderRoundTrip | Snapshot.h:80-121 | a captured shader, serialized and deserialized, gives its two paths cut at their first NUL and consumes exactly the bytes written |
| ShaderSnapshots.ApplyToShader | Snapshot.h:83-87 | the shader takes both paths (capturing it again yields the snapshot) and is relinked exactly once |
| ShaderSnapshots.EncodeShader | Snapshot.h:88-100 | the layout is an 8-byte length, the vertex path, an 8-byte length, then the fragment path |
| ShaderSnapshots.DecodePath | Snapshot.h:106-112 | a path reads successfully iff its length and characters are present and the length is not SIZE_MAX; the path is cut at its first NUL |
| ShaderSnapshots.DecodeShader | Snapshot.h:102-121 | neither decoded path holds a NUL, and both length fields are consumed |
| ShaderSnapshots.SerializeShader | Snapshot.h:88-100 | appends exactly the shader encoding |
| ShaderSnapshots.ReadPath | Snapshot.h:106-112 | reads what the path decoder reads; a short read leaves the stream failed |
| ShaderSnapshots.DeserializeShader | Snapshot.h:102-121 | reads what the shader decoder reads |
| ShaderSnapshots.PathRoundTrip | Snapshot.h:92-112 | reading back a written path gives the path up to its first NUL |
| ShaderSnapshots.ShaderRoundTrip | Snapshot.h:88-121 | the round trip gives both paths cut at their first NUL |
| ShaderSnapshots.ShaderRoundTripExact | Snapshot.h:88-121 | the round trip restores the snapshot iff neither path holds a NUL |
| ShaderSnapshots.PathTruncatedAtNul | Snapshot.h:110-111 | the vertex path "a\0b" comes back as "a" |
| ModelSnapshots.CaptureModel | Snapshot.h:137-146 | copies the transform, one mesh snapshot per mesh, textures_loaded and the shader paths; both names stay empty |
| ModelSnapshots.ApplyToModel | Snapshot.h:150-154 | the model takes the snapshot's position, rotation and scale, and nothing else |
| ModelSnapshots.Vec3RoundTrip | Snapshot.h:158-160 | a vec3's 12 raw bytes read back as the same vec3 |
| ModelSnapshots.Vec3Canonical | Snapshot.h:222-226 | any 12 bytes are the encoding of the vec3 read from them |
| ModelSnapshots.DecodeName | Snapshot.h:227-246 | InvalidStringLength iff the length is unreadable, 0 or above 300; otherwise the characters are read or StringReadFailed |
| ModelSnapshots.DecodeMeshes | Snapshot.h:205-208 | n meshes are read in order, failing only when the data runs out |
| ModelSnapshots.DecodeNames | Snapshot.h:214-217 | n texture paths are read in order, each a valid name, or the first name error |
| ModelSnapshots.DecodeLists | Snapshot.h:200-218 | over 100 meshes or over 100 textures is rejected; the accepted paths are valid names |
| ModelSnapshots.DecodeModel | Snapshot.h:190-219 | a successful read consumes at least the transform and keeps the prior shader |
| ModelSnapshots.Restored | Snapshot.h:210-218 | the read-back snapshot has the written fields; each texture has its path, the id of that path and the old kind |
| ModelSnapshots.NameRoundTrip | Snapshot.h:163-170 | a name of 1 to 300 characters reads back exactly |
| ModelSnapshots.NameRejected | Snapshot.h:231-235 | a written name that is empty or longer than 300 is rejected with InvalidStringLength |
| ModelSnapshots.MeshesRoundTrip | Snapshot.h:173-177 | the written meshes read back exactly |
| ModelSnapshots.NamesRoundTrip | Snapshot.h:180-187 | the written texture paths read back exactly |
| ModelSnapshots.ListsRoundTrip | Snapshot.h:173-218 | the mesh and texture lists read back, the textures resized from the prior list and resolved |
| ModelSnapshots.TransformRoundTrip | Snapshot.h:158-160 | the three vec3s read back in order |
| ModelSnapshots.ModelRoundTrip | Snapshot.h:157-219 | deserialize(serialize(s)) is s with each texture's id resolved from its path, old kinds kept, and the prior shader |
| ModelSnapshots.HeaderRoundTrip | Snapshot.h:157-170 | both names read back after the transform |
| ModelSnapshots.ObjectNameRejected | Snapshot.h:194 | a snapshot whose object name is empty or too long cannot be read back |
| ModelSnapshots.TextureNameRejected | Snapshot.h:196 | the same for the texture name |
| ModelSnapshots.CapturedNotReadable | Snapshot.h:137-146 | a snapshot fresh from its constructor has empty names, so its serialization is rejected |
| ModelSnapshots.ListsErrorIsModelError | Snapshot.h:198-218 | an error in the lists is the error of the whole read |
| ModelSnapshots.TooManyMeshesRejected | Snapshot.h:200-203 | a mesh count above 100 after a valid header is rejected with TooManyMeshes |
| ModelSnapshots.TooManyTexturesRejected | Snapshot.h:210-213 | a texture count above 100 after valid meshes is rejected with TooManyTextures |
| ModelSnapshots.TexturesCountRejected | Snapshot.h:210-213 | the same, stated for the lists |
| ModelSnapshots.ShaderNotWritten | Snapshot.h:157-188 | the bytes do not depend on the shader snapshot |
| ModelSnapshots.NameCanonical | Snapshot.h:227-246 | an accepted name is exactly the encoding of what was read |
| ModelSnapshots.MeshesCanonical | Snapshot.h:205-208 | accepted mesh bytes are exactly the encoding of the meshes read |
| ModelSnapshots.NamesCanonical | Snapshot.h:214-217 | accepted path bytes are exactly the encoding of the paths read |
| ModelSnapshots.PathsOfLoaded | Snapshot.h:214-217 | loading keeps each texture's path as read |
| ModelSnapshots.ListsCanonical | Snapshot.h:200-218 | accepted list bytes are exactly the encoding of the lists read |
| ModelSnapshots.TransformCanonical | Snapshot.h:191-193 | any 36 bytes are the encoding of the transform read from them |
| ModelSnapshots.ModelCanonical | Snapshot.h:190-219 | every accepted input is exactly the serialization of an encodable snapshot: serialize(deserialize(d)) == d |
| ModelSnapshots.SerializeModel | Snapshot.h:157-188 | appends exactly the model encoding |
| ModelSnapshots.SerializeMeshes | Snapshot.h:173-177 | appends the meshes one after another |
| ModelSnapshots.SerializeTexturePaths | Snapshot.h:182-187 | appends each texture path with its length |
| ModelSnapshots.DeserializeVec3 | Snapshot.h:222-226 | reads the next 12 bytes as a vec3, or leaves the stream failed |
| ModelSnapshots.DeserializeString | Snapshot.h:227-246 | returns the name the name decoder reads, or the very error it names |
| ModelSnapshots.DeserializeMeshes | Snapshot.h:205-208 | fills the resized mesh list in place with what the mesh decoder reads |
| ModelSnapshots.DeserializeTexturePaths | Snapshot.h:214-217 | fills the resized texture list in place: each entry takes the path read and the id resolved from it |
| ModelSnapshots.DeserializeLists | Snapshot.h:200-218 | agrees with the list decoder on success and on every error except a short read |
| ModelSnapshots.DeserializeModel | Snapshot.h:190-219 | agrees with the model decoder on success and on every error except a short read |
| ModelSnapshots.DecodeNamesStops | Snapshot.h:214-217 | the texture loop stops at the first failing path, with its error |
| Shaders.Shader.constructor | Shader.h:30 | the default shader has ID 0 and empty paths |
| Shaders.Shader.RecompileAndRelink | Snapshot.h:86 | each relink is counted |
| Shaders.Shader.SetBool | Shader.h:92-96 | the bool uniform takes the value |
| Shaders.Shader.SetInt | Shader.h:97-101 | the int uniform takes the value |
| Shaders.Shader.SetFloat | Shader.h:102-106 | the float uniform takes the value |
| Shaders.Shader.SetVec2 | Shader.h:107-111 | the vec2 uniform takes the value |
| Shaders.Shader.SetVec2Parts | Shader.h:112-116 | the vec2 uniform takes (x, y) |
| Shaders.Shader.SetVec3 | Shader.h:117-121 | the vec3 uniform takes the value |
| Shaders.Shader.SetVec3Parts | Shader.h:122-126 | the vec3 uniform takes (x, y, z) |
| Shaders.Shader.SetVec4 | Shader.h:127-131 | the vec4 uniform takes the value |
| Shaders.Shader.SetVec4Parts | Shader.h:132-136 | the vec4 uniform takes (x, y, z, w) |
| Shaders.Shader.SetMat2 | Shader.h:137-141 | the mat2 uniform takes the matrix |
| Shaders.Shader.SetMat3 | Shader.h:142-146 | the mat3 uniform takes the matrix |
| Shaders.Shader.SetMat4 | Shader.h:147-151 | the mat4 uniform takes the matrix |
| Shaders.Shader.Serialize | Shader.h:153-220 | builds the JSON the shader format defines for the paths and the current uniforms; fails with the type_error of `dump(4)` exactly when a path is not valid UTF-8 |
| Text.AsciiIsUtf8 | Shader.h:218 | a path of plain ASCII characters passes the UTF-8 check of `dump` |
| Text.StrayByteNotUtf8 | Shader.h:218 | a path holding a byte 0xC0, 0xC1 or 0xF5 and above fails that check wherever the byte sits |
| Text.Latin1NotUtf8 | Shader.h:218 | the Latin-1 path "caf\xE9" fails that check, so serialize throws on it |
| Shaders.Shader.Deserialize | Shader.h:222-285 | the new state is the shader format's reading of the JSON: paths, then each uniform in the object's order, stopping at the first error |
| Shaders.Shader.ApplyEntries | Shader.h:228-284 | the loop over the uniforms applies them in order and stops at the first thrown error |
| Shaders.Shader.ApplyEntry | Shader.h:229-283 | one uniform is applied by the setter its type names; an unknown type changes nothing |
| Shaders.Shader.ApplyScalar | Shader.h:233-241 | bool, int and float values go to their setters |
| Shaders.Shader.ApplyVector | Shader.h:242-253 | vec2, vec3 and vec4 entries are read element by element |
| Shaders.Shader.ApplyMatrix | Shader.h:254-283 | matrices are filled column by column from the flat list |
| Shaders.BuildShaderJson | Shader.h:153-216 | assigning the keys in the source's order yields the members in ascending key order, as std::map keeps them |
| Shaders.FillScalars | Shader.h:162-181 | the three scalar uniforms land in key order |
| Shaders.FillVectors | Shader.h:183-199 | the three vector uniforms land after them in key order |
| Shaders.FillMatrices | Shader.h:201-216 | the matrices land between the scalars and vectors in key order |
| ShaderFormat.TopKeysAscending | Shader.h:156-160 | "fragmentCode" < "uniforms" < "vertexCode" |
| ShaderFormat.UniformKeysAscending | Shader.h:163-215 | the nine uniform keys are ascending |
| ShaderFormat.ApplyAllAppend | Shader.h:228-284 | applying a list is applying its parts in turn, stopping at an error |
| ShaderFormat.ApplyAllStops | Shader.h:228-284 | after the first failing entry no later entry is applied |
| ShaderFormat.UnknownTypeIgnored | Shader.h:233-283 | an entry of an unknown type changes nothing |
| ShaderFormat.Mat2Restored | Shader.h:254-263 | a mat2 comes back unchanged (written at Shader.h:212-216) |
| ShaderFormat.Mat3Permuted | Shader.h:264-273 | a mat3 comes back with its entries permuted, since the write order is not column-major (written at Shader.h:207-211) |
| ShaderFormat.Mat4Permuted | Shader.h:274-283 | the same for a mat4 (written at Shader.h:202-206) |
| ShaderFormat.Mat3ReadBackFixed | Shader.h:264-273 | a mat3 survives iff five of its entries are equal (written at Shader.h:207-211) |
| ShaderFormat.IdentityNotRestored | Shader.h:264-283 | even the identity mat3 and mat4 do not survive (written at Shader.h:202-211) |
| ShaderFormat.ApplyBool | Shader.h:233-235 | the written bool entry sets the bool uniform and nothing else (written at Shader.h:163-167) |
| ShaderFormat.ApplyInt | Shader.h:236-238 | the written int entry sets the int uniform and nothing else (written at Shader.h:170-174) |
| ShaderFormat.ApplyFloat | Shader.h:239-241 | the written float entry sets the float uniform and nothing else (written at Shader.h:177-181) |
| ShaderFormat.ApplyVec2 | Shader.h:242-245 | the written vec2 entry sets the vec2 uniform and nothing else (written at Shader.h:184-188) |
| ShaderFormat.ApplyVec3 | Shader.h:246-249 | the written vec3 entry sets the vec3 uniform and nothing else (written at Shader.h:189-193) |
| ShaderFormat.ApplyVec4 | Shader.h:250-253 | the written vec4 entry sets the vec4 uniform and nothing else (written at Shader.h:195-199) |
| ShaderFormat.ApplyMat2 | Shader.h:254-263 | the written mat2 entry sets the mat2 uniform and nothing else (written at Shader.h:212-216) |
| ShaderFormat.ApplyMat3 | Shader.h:264-273 | the written mat3 entry sets the mat3 uniform to the permuted matrix (written at Shader.h:207-211) |
| ShaderFormat.ApplyMat4 | Shader.h:274-283 | the written mat4 entry sets the mat4 uniform to the permuted matrix (written at Shader.h:202-206) |
| ShaderFormat.ApplyUniformEntries | Shader.h:228-284 | reading the nine written entries sets every uniform, with mat3 and mat4 permuted |
| ShaderFormat.ShaderRoundTrip | Shader.h:153-285 | deserialize of the JSON serialize builds restores the paths and all uniforms except the mat3/mat4 permutation; serialize returns that JSON only when both paths are valid UTF-8 |
| GlmJson.Mat4ToJson | glm_json.cpp:5-13 | mat4_to_json yields 16 floats, entry i*4+k being mat[i][k] |
| GlmJson.Mat4FromJson | glm_json.cpp:15-21 | mat4_from_json reads the 16 floats column by column into the caller's matrix; on the first bad entry it fails with that entry's error, the entries before it already overwritten and the rest left as they were |
| GlmJson.Mat4ToJsonArray | glm_json.cpp:27-35 | the same array as mat4_to_json |
| GlmJson.Mat4FromJsonArray | glm_json.cpp:38-51 | anything but 16 entries gives the identity; otherwise the matrix read, or the first error with the caller's matrix partly overwritten up to that entry |
| GlmJson.ReadMatrix | glm_json.cpp:16-20 | the nested loop reads the entries in order into their columns; a failing read ends it with the earlier entries written and the later ones untouched |
| GlmJson.ReadColumn | glm_json.cpp:17-19 | the inner loop reads one column; on a failing entry it returns the matrix as written so far with the error |
| GlmJson.MatrixJsonRoundTrip | glm_json.cpp:5-21 | mat4_from_json(mat4_to_json(m)) == m |
| Editor.MaxSuffix | main.cpp:47-55 | every taken numbered variant of the name lies below this bound, so only finitely many are taken |
| Editor.TakenBelowMax | main.cpp:50-53 | a taken variant's number is below the bound, which is why the loop ends |
| Editor.CandidateInjective | main.cpp:51 | different counters give different names |
| Editor.FirstFree | main.cpp:50-53 | the first free numbered variant from c on: every one before it is taken |
| Editor.UniqueName | main.cpp:47-55 | the name is not in the list; it is the default name if that is free, and otherwise the default name followed by the least k whose name is free |
| Editor.Scene.GenerateUniqueName | main.cpp:47-55 | the loop returns exactly that name |
| Editor.UniqueNameKeepsDistinct | main.cpp:62-63 | appending the generated name keeps the menu names distinct |
| Editor.RemovedKeepsDistinct | main.cpp:76 | erasing an entry keeps them distinct |
| Editor.ClampSelection | main.cpp:281-286 | -1 iff nothing is left; otherwise a valid index no larger than the old one, and the old one when it is still in range |
| Editor.SelectionAfterDelete | main.cpp:279-286 | after a delete the selection is the entry that followed, or the new last entry, and -1 only when the list is empty |
| Editor.Scene.constructor | main.cpp:36-39 | no models, no names, nothing selected |
| Editor.Scene.GenerateObject | main.cpp:57-63 | the model and its unique name are appended, so the two lists keep equal lengths and distinct names |
| Editor.Scene.DeleteObject | main.cpp:74-77 | entry id is erased from both lists, the rest keeping their order |
| Editor.Scene.Select | main.cpp:258-262 | choosing entry i selects it |
| Editor.Scene.DeleteSelected | main.cpp:271-287 | when the selection is a model, that model and its name are erased and the selection is clamped into range |
| Editor.TransformJson | main.cpp:79-85 | the JSON is an object holding the position, rotation and scale arrays under "position", "rotation" and "scale", and no other key |
| Editor.SerializeModel | main.cpp:79-85 | reading the three vectors back from serializeModel(m) gives m's position, rotation and scale |
| Editor.TransformRoundTrip | main.cpp:79-93 | deserializeModel(serializeModel(m)) has m's position, rotation and scale, and the JSON holds no other key |
| Editor.Assigned3Members | main.cpp:79-85 | three assignments under distinct keys each read back, and no other key exists |
| Editor.ReadVec3 | main.cpp:89-91 | a vec3 is read as entries 0, 1, 2 of the member, a missing member being its error |
| Editor.ReadTransform | main.cpp:86-93 | the read succeeds iff all three vec3s read, and gives them |
| Editor.MissingPositionRejected | main.cpp:89 | an object without "position" fails with a missing key |
| Editor.DeserializeModel | main.cpp:86-93 | the model takes the transform read, or the first failure is returned with only the earlier setters applied |

## Left out

- OpenGL, GLFW and ImGui calls are not modelled: drawing, buffer uploads,
  shader compilation and the UI. The model counts `setupMesh` and
  `recompileAndRelink` calls and takes VAO handles as parameters.
- Model.h is not part of this model. Loading a model from a file, its
  constructors and `Draw` are left out. Models are built from their parts,
  and `deserializeModel` fills a default-constructed model passed in.
- `TextureFromFile` is the function parameter `resolve` from path to
  texture id. Its second argument and its file I/O are left out. The call
  in `GenerateObject` is left out too, because its result is discarded.
- File I/O is left out: `saveScene`, `loadScene` and the shader source
  files. So are the Camera and the main loop.
- Log output to `std::cout` and `std::cerr` is left out. The one effect of
  printing that is modelled is the exception that `dump(4)` throws in
  `Shader::serialize` on a path that is not valid UTF-8.
- Floating point is left out. Floats are opaque 32-bit patterns. The JSON
  conversions between integers and floats therefore give `NotModelled`.
- Editor.Scene.GenerateUniqueName: the model does not capture the overflow
  of the `int` counter. It takes more than 2^31 taken names to reach it.
- Editor.ClampSelection: the model does not capture the `int` cast of the
  list size. It assumes fewer than 2^31 models.
- C++ leaves the evaluation order of the arguments to `glm::vec3(...)` and
  `setVec2(...)` unspecified. The model reads them left to right. This only
  matters for which error is reported.
- The uninitialised `glm::mat2`, `mat3` and `mat4` built in
  `Shader::deserialize` are modelled as the identity. Only their read
  entries matter.
- Undefined behaviour is modelled as an error result. This covers a const
  `operator[]` on a missing key or a short array, and a path length of
  SIZE_MAX in `ShaderSnapshot::deserialize`.
- ModelSnapshots.DeserializeModel: it promises nothing about the snapshot
  after a short read of a size_t count. The source then uses an
  indeterminate value.
- ModelSnapshots.DeserializeLists: the same for a short read of a size_t
  count.
- Codec.ReadFailed: an allocation failure is reported as this error too.
  This covers a per-mesh vertex, index or texture count (Snapshot.h:50-65)
  or a shader path length (Snapshot.h:108, 116) too large to allocate. The
  source then throws `std::bad_alloc` or `std::length_error` from `resize`
  or `new char[]` before reading any element. The model does not tell that
  exception apart from running out of data, and it does not model memory
  limits.
- When a deserializer throws, the model returns the error and does not
  state the snapshot fields assigned before the throw.
- `std::vector<Model>` copies each model; the model's sequence holds
  references to Model objects.
- The host is assumed to be little-endian with a 64-bit `size_t`.
  `sizeof(Texture)` is assumed to be 72 bytes, as in 64-bit libstdc++.
  A texture's raw bytes, which include its `std::string` internals, are
  kept as opaque bytes.
