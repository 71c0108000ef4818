/** The JSON form of a shader (Shader.h serialize and deserialize): the
    two source paths and the nine cached uniforms, each under its own name
    with its type and value. */
module ShaderFormat {
  import opened Wrappers
  import opened Bytes
  import opened Text
  import opened Glm
  import opened Json
  import opened GlmJson

  type Mat2 = m: Matrix | IsMatrix(m, 2) witness Identity(2)
  type Mat3 = m: Matrix | IsMatrix(m, 3) witness Identity(3)
  type Mat4 = m: Matrix | IsMatrix(m, 4) witness Identity(4)

  /** The cached uniform values: bVal, iVal, fVal, vec2Value, vec3Value,
      vec4Value, mat2Value, mat3Value and mat4Value. */
  datatype Uniforms = Uniforms(b: bool, i: Int32, f: Float, v2: Vec2, v3: Vec3, v4: Vec4, m2: Mat2, m3: Mat3, m4: Mat4)

  /** The floats serialize lists for each matrix, in its order. */
  function Mat2Listed(m: Mat2): seq<Float> {
    [m[0][0], m[0][1], m[1][0], m[1][1]]
  }

  function Mat3Listed(m: Mat3): seq<Float> {
    [m[0][0], m[0][1], m[1][0], m[1][1], m[1][2], m[2][1], m[2][0], m[0][2], m[2][2]]
  }

  function Mat4Listed(m: Mat4): seq<Float> {
    [m[0][0], m[0][1], m[1][0], m[1][1], m[1][2], m[2][1], m[2][0], m[0][2],
     m[2][2], m[3][0], m[3][1], m[3][2], m[0][3], m[1][3], m[2][3], m[3][3]]
  }

  /** The keys of serialize's top-level object, in ascending order. */
  const FRAGMENT_KEY: CppString := "fragmentCode"
  const UNIFORMS_KEY: CppString := "uniforms"
  const VERTEX_KEY: CppString := "vertexCode"
  const TOP_KEYS: seq<CppString> := [FRAGMENT_KEY, UNIFORMS_KEY, VERTEX_KEY]

  /** The names of the nine uniforms, which are also their keys under
      "uniforms", in ascending order. */
  const BOOL_KEY: CppString := "boolUniform"
  const FLOAT_KEY: CppString := "floatUniform"
  const INT_KEY: CppString := "intUniform"
  const MAT2_KEY: CppString := "mat2Uniform"
  const MAT3_KEY: CppString := "mat3Uniform"
  const MAT4_KEY: CppString := "mat4Uniform"
  const VEC2_KEY: CppString := "vec2Uniform"
  const VEC3_KEY: CppString := "vec3Uniform"
  const VEC4_KEY: CppString := "vec4Uniform"
  const UNIFORM_KEYS: seq<CppString> := [BOOL_KEY, FLOAT_KEY, INT_KEY, MAT2_KEY, MAT3_KEY, MAT4_KEY, VEC2_KEY, VEC3_KEY, VEC4_KEY]

  /** One entry of the "uniforms" object. */
  function Entry(name: CppString, kind: CppString, value: Json): Json {
    JObject([("name", JString(name)), ("type", JString(kind)), ("value", value)])
  }

  function BoolEntry(u: Uniforms): Json { Entry(BOOL_KEY, "bool", JBool(u.b)) }
  function IntEntry(u: Uniforms): Json { Entry(INT_KEY, "int", JInt(u.i)) }
  function FloatEntry(u: Uniforms): Json { Entry(FLOAT_KEY, "float", JFloat(u.f)) }
  function Vec2Entry(u: Uniforms): Json { Entry(VEC2_KEY, "vec2", FloatArray([u.v2.x, u.v2.y])) }
  function Vec3Entry(u: Uniforms): Json { Entry(VEC3_KEY, "vec3", FloatArray([u.v3.x, u.v3.y, u.v3.z])) }
  function Vec4Entry(u: Uniforms): Json { Entry(VEC4_KEY, "vec4", FloatArray([u.v4.x, u.v4.y, u.v4.z, u.v4.w])) }
  function Mat2Entry(u: Uniforms): Json { Entry(MAT2_KEY, "mat2", FloatArray(Mat2Listed(u.m2))) }
  function Mat3Entry(u: Uniforms): Json { Entry(MAT3_KEY, "mat3", FloatArray(Mat3Listed(u.m3))) }
  function Mat4Entry(u: Uniforms): Json { Entry(MAT4_KEY, "mat4", FloatArray(Mat4Listed(u.m4))) }

  /** Nine entries under the keys ks, in the order of ks. */
  function UniformsOf(ks: seq<CppString>, bj: Json, fj: Json, ij: Json, m2j: Json, m3j: Json, m4j: Json,
                      v2j: Json, v3j: Json, v4j: Json): seq<(CppString, Json)>
    requires |ks| == 9
  {
    [(ks[0], bj), (ks[1], fj), (ks[2], ij), (ks[3], m2j), (ks[4], m3j), (ks[5], m4j), (ks[6], v2j), (ks[7], v3j), (ks[8], v4j)]
  }

  /** The "uniforms" object serialize builds, in std::map's key order. */
  function UniformsMembers(u: Uniforms): seq<(CppString, Json)> {
    UniformsOf(UNIFORM_KEYS, BoolEntry(u), FloatEntry(u), IntEntry(u), Mat2Entry(u), Mat3Entry(u), Mat4Entry(u),
               Vec2Entry(u), Vec3Entry(u), Vec4Entry(u))
  }

  /** A top-level object with keys top around a given "uniforms" value. */
  function Framed(top: seq<CppString>, fp: Json, us: Json, vp: Json): Json
    requires |top| == 3
  {
    JObject([(top[0], fp), (top[1], us), (top[2], vp)])
  }

  /** The json serialize returns. */
  function ShaderJson(vertexPath: CppString, fragmentPath: CppString, u: Uniforms): Json {
    Framed(TOP_KEYS, JString(fragmentPath), JObject(UniformsMembers(u)), JString(vertexPath))
  }

  /** The two paths and the cached uniforms: what deserialize can change. */
  datatype ShaderState = ShaderState(vertexPath: CppString, fragmentPath: CppString, uniforms: Uniforms)

  /** Each key of TOP_KEYS is smaller than the next one's. */
  lemma TopKeysAscending()
    ensures |TOP_KEYS| == 3 && Ascending(TOP_KEYS)
  {
    forall t | 0 <= t < |TOP_KEYS| - 1 ensures KeyLess(TOP_KEYS[t], TOP_KEYS[t + 1]) {
      if t == 0 {
        KeyLessAt(FRAGMENT_KEY, UNIFORMS_KEY, 0);
      } else {
        KeyLessAt(UNIFORMS_KEY, VERTEX_KEY, 0);
      }
    }
    AscendingByNeighbours(TOP_KEYS);
  }

  /** Each uniform's key is smaller than the next one's. */
  lemma UniformKeyNeighbour(t: nat)
    requires t < |UNIFORM_KEYS| - 1
    ensures KeyLess(UNIFORM_KEYS[t], UNIFORM_KEYS[t + 1])
  {
    if t == 0 {
      KeyLessAt(BOOL_KEY, FLOAT_KEY, 0);
    } else if t == 1 {
      KeyLessAt(FLOAT_KEY, INT_KEY, 0);
    } else if t == 2 {
      KeyLessAt(INT_KEY, MAT2_KEY, 0);
    } else if t == 3 {
      KeyLessAt(MAT2_KEY, MAT3_KEY, 3);
    } else if t == 4 {
      KeyLessAt(MAT3_KEY, MAT4_KEY, 3);
    } else if t == 5 {
      KeyLessAt(MAT4_KEY, VEC2_KEY, 0);
    } else if t == 6 {
      KeyLessAt(VEC2_KEY, VEC3_KEY, 3);
    } else {
      KeyLessAt(VEC3_KEY, VEC4_KEY, 3);
    }
  }

  lemma UniformKeysAscending()
    ensures |UNIFORM_KEYS| == 9 && Ascending(UNIFORM_KEYS)
  {
    forall t | 0 <= t < |UNIFORM_KEYS| - 1 ensures KeyLess(UNIFORM_KEYS[t], UNIFORM_KEYS[t + 1]) {
      UniformKeyNeighbour(t);
    }
    AscendingByNeighbours(UNIFORM_KEYS);
  }

  /** The type names serialize writes, in the order of UNIFORM_KEYS. */
  const KINDS: seq<CppString> := ["bool", "float", "int", "mat2", "mat3", "mat4", "vec2", "vec3", "vec4"]

  /** `std::string s = j[key]` on a const json. */
  function StringMember(j: Json, key: CppString): (r: Result<CppString, JsonError>)
    ensures r.Ok? <==> Member(j, key).Ok? && Member(j, key).value.JString?
    ensures r.Ok? ==> Member(j, key) == Ok(JString(r.value))
  {
    var v :- Member(j, key);
    GetString(v)
  }

  /** The body of deserialize's loop for one entry: read "type", then
      "name", then convert "value" for the setter of that type. An entry of
      any other type changes nothing. */
  function ApplyUniform(u: Uniforms, entry: Json): (r: Result<Uniforms, JsonError>) {
    var kind :- StringMember(entry, "type");
    var name :- StringMember(entry, "name");
    if kind == "bool" || kind == "int" || kind == "float" then SetScalar(u, kind, entry)
    else if kind == "vec2" || kind == "vec3" || kind == "vec4" then SetVector(u, kind, entry)
    else if kind == "mat2" || kind == "mat3" || kind == "mat4" then SetMatrix(u, kind, entry)
    else Ok(u)
  }

  /** The bool, int and float branches: "value" converted to the setter's
      parameter type. */
  function SetScalar(u: Uniforms, kind: CppString, entry: Json): (r: Result<Uniforms, JsonError>) {
    var v :- Member(entry, "value");
    if kind == "bool" then
      var b :- GetBool(v); Ok(u.(b := b))
    else if kind == "int" then
      var i :- GetInt(v); Ok(u.(i := i))
    else
      var f :- GetFloat(v); Ok(u.(f := f))
  }

  /** The vec2, vec3 and vec4 branches: the components read in order from
      a copy of "value" with the writing operator[]. */
  function SetVector(u: Uniforms, kind: CppString, entry: Json): (r: Result<Uniforms, JsonError>) {
    var v :- Member(entry, "value");
    var x :- ReadFloat(v, 0, true);
    var y :- ReadFloat(v, 1, true);
    if kind == "vec2" then Ok(u.(v2 := Vec2(x, y)))
    else
      var z :- ReadFloat(v, 2, true);
      if kind == "vec3" then Ok(u.(v3 := Vec3(x, y, z)))
      else
        var w :- ReadFloat(v, 3, true);
        Ok(u.(v4 := Vec4(x, y, z, w)))
  }

  /** The order of a matrix type. */
  function MatrixOrder(kind: CppString): (n: nat)
    ensures 2 <= n <= 4
  {
    if kind == "mat2" then 2 else if kind == "mat3" then 3 else 4
  }

  /** The mat2, mat3 and mat4 branches: entry [i][j] read from
      value[i * n + j] of a copy of "value". */
  function SetMatrix(u: Uniforms, kind: CppString, entry: Json): (r: Result<Uniforms, JsonError>) {
    var v :- Member(entry, "value");
    var n := MatrixOrder(kind);
    var xs :- ReadFloats(v, Offset(n, n), true);
    if n == 2 then Ok(u.(m2 := Unflatten(xs, 2)))
    else if n == 3 then Ok(u.(m3 := Unflatten(xs, 3)))
    else Ok(u.(m4 := Unflatten(xs, 4)))
  }

  /** The loop over the entries: the uniforms after the entries applied so
      far, and the error of the first entry that fails, after which the loop
      stops (the setters already called keep their values). */
  function ApplyAll(u: Uniforms, entries: seq<Json>): (r: (Uniforms, Option<JsonError>))
    decreases |entries|
  {
    if entries == [] then (u, None)
    else
      var (v, e) := ApplyAll(u, entries[..|entries| - 1]);
      if e.Some? then (v, e)
      else match ApplyUniform(v, entries[|entries| - 1])
        case Ok(w) => (w, None)
        case Err(x) => (v, Some(x))
  }

  /** What deserialize leaves behind, and the error it stops with, if any. */
  datatype Loaded = Loaded(state: ShaderState, error: Option<JsonError>)

  /** deserialize: "vertexCode", then "fragmentCode", each assigned as soon
      as it is read, then the loop over the values of "uniforms". */
  function Deserialized(j: Json, s: ShaderState): (r: Loaded) {
    match StringMember(j, VERTEX_KEY)
    case Err(e) => Loaded(s, Some(e))
    case Ok(vp) =>
      match StringMember(j, FRAGMENT_KEY)
      case Err(e) => Loaded(s.(vertexPath := vp), Some(e))
      case Ok(fp) =>
        match Member(j, UNIFORMS_KEY)
        case Err(e) => Loaded(ShaderState(vp, fp, s.uniforms), Some(e))
        case Ok(us) =>
          var (u, e) := ApplyAll(s.uniforms, Items(us));
          Loaded(ShaderState(vp, fp, u), e)
  }

  /** Applying a list of entries is applying its two halves in turn. */
  lemma {:induction false} ApplyAllAppend(u: Uniforms, xs: seq<Json>, ys: seq<Json>)
    ensures ApplyAll(u, xs + ys) ==
      var (v, e) := ApplyAll(u, xs); if e.Some? then (v, e) else ApplyAll(v, ys)
    decreases |ys|
  {
    if ys == [] {
      assert xs + ys == xs;
    } else {
      var init := ys[..|ys| - 1];
      assert (xs + ys)[..|xs + ys| - 1] == xs + init;
      assert (xs + ys)[|xs + ys| - 1] == ys[|ys| - 1];
      ApplyAllAppend(u, xs, init);
    }
  }

  /** One more entry after entries that all applied. */
  lemma ApplyAllStep(u: Uniforms, xs: seq<Json>, x: Json, v: Uniforms, w: Uniforms)
    requires ApplyAll(u, xs) == (v, None) && ApplyUniform(v, x) == Ok(w)
    ensures ApplyAll(u, xs + [x]) == (w, None)
  {
    assert (xs + [x])[..|xs|] == xs;
  }

  /** An entry that fails after entries that all applied: the loop stops
      there, whatever follows. */
  lemma ApplyAllStops(u: Uniforms, xs: seq<Json>, x: Json, ys: seq<Json>, v: Uniforms)
    requires ApplyAll(u, xs) == (v, None) && ApplyUniform(v, x).Err?
    ensures ApplyAll(u, xs + [x] + ys) == (v, Some(ApplyUniform(v, x).error))
  {
    assert (xs + [x])[..|xs|] == xs;
    ApplyAllAppend(u, xs + [x], ys);
  }

  /** An entry whose type is none of the nine is skipped. */
  lemma UnknownTypeIgnored(u: Uniforms, entry: Json)
    requires StringMember(entry, "type").Ok? && StringMember(entry, "type").value !in KINDS
    requires StringMember(entry, "name").Ok?
    ensures ApplyUniform(u, entry) == Ok(u)
  {
  }

  /** The entries of mat2, mat3 and mat4 read back in column-major order:
      a mat2 comes back as written, a mat3 and a mat4 with the entries of
      serialize's listing order moved around. */
  function Mat3ReadBack(m: Mat3): (r: Mat3) {
    [[m[0][0], m[0][1], m[1][0]], [m[1][1], m[1][2], m[2][1]], [m[2][0], m[0][2], m[2][2]]]
  }

  function Mat4ReadBack(m: Mat4): (r: Mat4) {
    [[m[0][0], m[0][1], m[1][0], m[1][1]], [m[1][2], m[2][1], m[2][0], m[0][2]],
     [m[2][2], m[3][0], m[3][1], m[3][2]], [m[0][3], m[1][3], m[2][3], m[3][3]]]
  }

  lemma Mat2Restored(m: Mat2)
    ensures Unflatten(Mat2Listed(m), 2) == m
  {
    var xs, r := Mat2Listed(m), Unflatten(Mat2Listed(m), 2);
    assert r[0] == xs[0..2] == [xs[0], xs[1]] == m[0];
    assert r[1] == xs[2..4] == [xs[2], xs[3]] == m[1];
  }

  lemma Mat3Permuted(m: Mat3)
    ensures Unflatten(Mat3Listed(m), 3) == Mat3ReadBack(m)
  {
    var xs, r, e := Mat3Listed(m), Unflatten(Mat3Listed(m), 3), Mat3ReadBack(m);
    assert r[0] == xs[0..3] == [xs[0], xs[1], xs[2]] == e[0];
    assert r[1] == xs[3..6] == [xs[3], xs[4], xs[5]] == e[1];
    assert r[2] == xs[6..9] == [xs[6], xs[7], xs[8]] == e[2];
  }

  lemma Mat4Permuted(m: Mat4)
    ensures Unflatten(Mat4Listed(m), 4) == Mat4ReadBack(m)
  {
    var xs, r, e := Mat4Listed(m), Unflatten(Mat4Listed(m), 4), Mat4ReadBack(m);
    OffsetIsProduct(4, 4);
    assert r[0] == xs[0..4] == [xs[0], xs[1], xs[2], xs[3]] == e[0];
    assert r[1] == xs[4..8] == [xs[4], xs[5], xs[6], xs[7]] == e[1];
    assert r[2] == xs[8..12] == [xs[8], xs[9], xs[10], xs[11]] == e[2];
    assert r[3] == xs[12..16] == [xs[12], xs[13], xs[14], xs[15]] == e[3];
  }
  /** Only a mat3 whose entries [0][2], [1][0], [1][1], [1][2] and [2][1]
      are all equal survives the trip. */
  lemma Mat3ReadBackFixed(m: Mat3)
    ensures Mat3ReadBack(m) == m <==>
      m[0][2] == m[1][0] && m[1][0] == m[1][1] && m[1][1] == m[1][2] && m[1][2] == m[2][1]
  {
    var e := Mat3ReadBack(m);
    if e == m {
      assert e[0][2] == m[0][2] && e[1][0] == m[1][0] && e[1][1] == m[1][1] && e[1][2] == m[1][2];
    }
    if m[0][2] == m[1][0] && m[1][0] == m[1][1] && m[1][1] == m[1][2] && m[1][2] == m[2][1] {
      assert e[0] == m[0] && e[1] == m[1] && e[2] == m[2];
    }
  }

  /** Neither a mat3 nor a mat4 identity (the usual value of a transform)
      comes back as itself. */
  lemma IdentityNotRestored()
    ensures Mat3ReadBack(Identity(3)) != Identity(3)
    ensures Mat4ReadBack(Identity(4)) != Identity(4)
  {
    assert Mat3ReadBack(Identity(3))[1][0] == ONE != ZERO == Identity(3)[1][0];
    assert Mat4ReadBack(Identity(4))[0][3] == ONE != ZERO == Identity(4)[0][3];
  }

  /** What a round trip through serialize and deserialize leaves in the
      cache: everything as it was but the mat3 and the mat4. */
  function ReadBack(u: Uniforms): (r: Uniforms) {
    u.(m3 := Mat3ReadBack(u.m3), m4 := Mat4ReadBack(u.m4))
  }

  /** The three members of an entry. */
  lemma EntryMembers(name: CppString, kind: CppString, value: Json)
    ensures StringMember(Entry(name, kind, value), "type") == Ok(kind)
    ensures StringMember(Entry(name, kind, value), "name") == Ok(name)
    ensures Member(Entry(name, kind, value), "value") == Ok(value)
  {
    assert "name"[0] != "type"[0];
    LookupThree("name", "type", "value", JString(name), JString(kind), value);
  }

  /** Looking up each key of a three-member object with distinct keys. */
  lemma LookupThree(ka: CppString, kb: CppString, kc: CppString, a: Json, b: Json, c: Json)
    requires ka != kb && ka != kc && kb != kc
    ensures var ms := [(ka, a), (kb, b), (kc, c)];
      Lookup(ms, ka) == Some(a) && Lookup(ms, kb) == Some(b) && Lookup(ms, kc) == Some(c)
  {
    var ms := [(ka, a), (kb, b), (kc, c)];
    var tail := [(kb, b), (kc, c)];
    assert ms[1..] == tail && tail[1..] == [(kc, c)];
    assert Lookup(tail[1..], kc) == Some(c);
    assert Lookup(tail, kc) == Some(c);
  }

  lemma ApplyBool(w: Uniforms, u: Uniforms)
    ensures ApplyUniform(w, BoolEntry(u)) == Ok(w.(b := u.b))
  {
    EntryMembers(BOOL_KEY, "bool", JBool(u.b));
  }

  lemma ApplyMat4(w: Uniforms, u: Uniforms)
    ensures ApplyUniform(w, Mat4Entry(u)) == Ok(w.(m4 := Mat4ReadBack(u.m4)))
  {
    var xs := Mat4Listed(u.m4);
    EntryMembers(MAT4_KEY, "mat4", FloatArray(xs));
    OffsetIsProduct(4, 4);
    FloatArrayRoundTrip(xs, 16, true);
    assert xs[..16] == xs;
    Mat4Permuted(u.m4);
  }
  lemma ApplyInt(w: Uniforms, u: Uniforms)
    ensures ApplyUniform(w, IntEntry(u)) == Ok(w.(i := u.i))
  {
    EntryMembers(INT_KEY, "int", JInt(u.i));
  }

  lemma ApplyFloat(w: Uniforms, u: Uniforms)
    ensures ApplyUniform(w, FloatEntry(u)) == Ok(w.(f := u.f))
  {
    EntryMembers(FLOAT_KEY, "float", JFloat(u.f));
  }

  lemma ApplyVec2(w: Uniforms, u: Uniforms)
    ensures ApplyUniform(w, Vec2Entry(u)) == Ok(w.(v2 := u.v2))
  {
    EntryMembers(VEC2_KEY, "vec2", FloatArray([u.v2.x, u.v2.y]));
  }

  lemma ApplyVec3(w: Uniforms, u: Uniforms)
    ensures ApplyUniform(w, Vec3Entry(u)) == Ok(w.(v3 := u.v3))
  {
    EntryMembers(VEC3_KEY, "vec3", FloatArray([u.v3.x, u.v3.y, u.v3.z]));
  }

  lemma ApplyVec4(w: Uniforms, u: Uniforms)
    ensures ApplyUniform(w, Vec4Entry(u)) == Ok(w.(v4 := u.v4))
  {
    EntryMembers(VEC4_KEY, "vec4", FloatArray([u.v4.x, u.v4.y, u.v4.z, u.v4.w]));
  }

  lemma ApplyMat2(w: Uniforms, u: Uniforms)
    ensures ApplyUniform(w, Mat2Entry(u)) == Ok(w.(m2 := u.m2))
  {
    var xs := Mat2Listed(u.m2);
    EntryMembers(MAT2_KEY, "mat2", FloatArray(xs));
    FloatArrayRoundTrip(xs, 4, true);
    assert xs[..4] == xs;
    Mat2Restored(u.m2);
  }

  lemma ApplyMat3(w: Uniforms, u: Uniforms)
    ensures ApplyUniform(w, Mat3Entry(u)) == Ok(w.(m3 := Mat3ReadBack(u.m3)))
  {
    var xs := Mat3Listed(u.m3);
    EntryMembers(MAT3_KEY, "mat3", FloatArray(xs));
    FloatArrayRoundTrip(xs, 9, true);
    assert xs[..9] == xs;
    Mat3Permuted(u.m3);
  }
  /** The t-th entry serialize writes, in the order deserialize visits them. */
  function UniformEntry(u: Uniforms, t: nat): Json {
    if t == 0 then BoolEntry(u) else if t == 1 then FloatEntry(u) else if t == 2 then IntEntry(u)
    else if t == 3 then Mat2Entry(u) else if t == 4 then Mat3Entry(u) else if t == 5 then Mat4Entry(u)
    else if t == 6 then Vec2Entry(u) else if t == 7 then Vec3Entry(u) else Vec4Entry(u)
  }

  /** The cache after the first t of those entries: the values read back
      for the uniforms visited, those of w for the others. */
  function Taken(w: Uniforms, u: Uniforms, t: nat): Uniforms {
    Uniforms(if t > 0 then u.b else w.b, if t > 2 then u.i else w.i, if t > 1 then u.f else w.f,
             if t > 6 then u.v2 else w.v2, if t > 7 then u.v3 else w.v3, if t > 8 then u.v4 else w.v4,
             if t > 3 then u.m2 else w.m2, if t > 4 then Mat3ReadBack(u.m3) else w.m3,
             if t > 5 then Mat4ReadBack(u.m4) else w.m4)
  }

  lemma TakenStep(w: Uniforms, u: Uniforms, t: nat)
    requires t < 9
    ensures ApplyUniform(Taken(w, u, t), UniformEntry(u, t)) == Ok(Taken(w, u, t + 1))
  {
    var c := Taken(w, u, t);
    if t == 0 {
      ApplyBool(c, u);
    } else if t == 1 {
      ApplyFloat(c, u);
    } else if t == 2 {
      ApplyInt(c, u);
    } else if t == 3 {
      ApplyMat2(c, u);
    } else if t == 4 {
      ApplyMat3(c, u);
    } else if t == 5 {
      ApplyMat4(c, u);
    } else if t == 6 {
      ApplyVec2(c, u);
    } else if t == 7 {
      ApplyVec3(c, u);
    } else {
      ApplyVec4(c, u);
    }
  }

  /** Entries each of which applies to the cache the one before it left:
      the first t of them take ws[0] to ws[t] without an error. */
  lemma {:induction false} ApplyChain(ws: seq<Uniforms>, es: seq<Json>, t: nat)
    requires |ws| == |es| + 1 && t <= |es|
    requires forall k :: 0 <= k < |es| ==> ApplyUniform(ws[k], es[k]) == Ok(ws[k + 1])
    ensures ApplyAll(ws[0], es[..t]) == (ws[t], None)
  {
    if t == 0 {
      assert es[..0] == [];
    } else {
      ApplyChain(ws, es, t - 1);
      ApplyAllStep(ws[0], es[..t - 1], es[t - 1], ws[t - 1], ws[t]);
      assert es[..t - 1] + [es[t - 1]] == es[..t];
    }
  }

  /** Applying the nine entries sets every cached value, the mat3 and mat4
      permuted. */
  lemma ApplyUniformEntries(w: Uniforms, u: Uniforms, es: seq<Json>)
    requires |es| == 9 && forall t :: 0 <= t < 9 ==> es[t] == UniformEntry(u, t)
    ensures ApplyAll(w, es) == (ReadBack(u), None)
  {
    var ws := seq(10, t requires 0 <= t < 10 => Taken(w, u, t));
    forall k | 0 <= k < 9 ensures ApplyUniform(ws[k], es[k]) == Ok(ws[k + 1]) {
      TakenStep(w, u, k);
    }
    ApplyChain(ws, es, 9);
    assert es[..9] == es;
  }

  /** deserialize on an object with serialize's three top-level members. */
  lemma DeserializeFramed(vertexPath: CppString, fragmentPath: CppString, us: Json, s: ShaderState)
    ensures Deserialized(Framed(TOP_KEYS, JString(fragmentPath), us, JString(vertexPath)), s)
         == var (u, e) := ApplyAll(s.uniforms, Items(us)); Loaded(ShaderState(vertexPath, fragmentPath, u), e)
  {
    assert FRAGMENT_KEY[0] != UNIFORMS_KEY[0] && FRAGMENT_KEY[0] != VERTEX_KEY[0] && UNIFORMS_KEY[0] != VERTEX_KEY[0];
    LookupThree(FRAGMENT_KEY, UNIFORMS_KEY, VERTEX_KEY, JString(fragmentPath), us, JString(vertexPath));
  }

  /** The values of the "uniforms" object, in order. */
  lemma UniformsItems(u: Uniforms)
    ensures |Items(JObject(UniformsMembers(u)))| == 9
    ensures forall t :: 0 <= t < 9 ==> Items(JObject(UniformsMembers(u)))[t] == UniformEntry(u, t)
  {
  }

  /** Reading back what serialize wrote restores both paths and every
      cached uniform except the mat3 and the mat4, which come back with
      their entries permuted (Mat3ReadBack, Mat4ReadBack), whatever the
      shader held before. */
  lemma ShaderRoundTrip(vertexPath: CppString, fragmentPath: CppString, u: Uniforms, s: ShaderState)
    ensures Deserialized(ShaderJson(vertexPath, fragmentPath, u), s)
         == Loaded(ShaderState(vertexPath, fragmentPath, ReadBack(u)), None)
  {
    var us := JObject(UniformsMembers(u));
    DeserializeFramed(vertexPath, fragmentPath, us, s);
    UniformsItems(u);
    ApplyUniformEntries(s.uniforms, u, Items(us));
  }
}
