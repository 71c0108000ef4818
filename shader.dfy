/** Shader.h: the shader program object as far as the editor's state goes:
    the two source paths, the cache of the last value given to each kind of
    uniform setter, and the JSON form of both. The OpenGL calls the setters
    make are not modelled; the program handle is kept as a number. */
module Shaders {
  import opened Wrappers
  import opened Bytes
  import opened Text
  import opened Glm
  import opened Json
  import opened GlmJson
  import opened ShaderFormat
  import opened Seqs

  class Shader {
    /** The program handle (ID). */
    var id: U32
    var vertexShaderPath: CppString
    var fragmentShaderPath: CppString
    var vec4Value: Vec4
    var vec3Value: Vec3
    var vec2Value: Vec2
    var fVal: Float
    var iVal: Int32
    var bVal: bool
    var mat4Value: Mat4
    var mat3Value: Mat3
    var mat2Value: Mat2
    /** How many times recompileAndRelink has run. */
    var relinkCalls: nat

    /** Shader(): ID 0, empty paths; the caches are left uninitialised by
        the source, so their initial contents are a parameter here. */
    constructor (initial: Uniforms)
      ensures id == 0 && vertexShaderPath == [] && fragmentShaderPath == []
      ensures UniformValues() == initial && relinkCalls == 0
    {
      id := 0;
      vertexShaderPath, fragmentShaderPath := [], [];
      bVal, iVal, fVal := initial.b, initial.i, initial.f;
      vec2Value, vec3Value, vec4Value := initial.v2, initial.v3, initial.v4;
      mat2Value, mat3Value, mat4Value := initial.m2, initial.m3, initial.m4;
      relinkCalls := 0;
    }

    function UniformValues(): Uniforms
      reads this
    {
      Uniforms(bVal, iVal, fVal, vec2Value, vec3Value, vec4Value, mat2Value, mat3Value, mat4Value)
    }

    function State(): ShaderState
      reads this
    {
      ShaderState(vertexShaderPath, fragmentShaderPath, UniformValues())
    }

    /** recompileAndRelink: rebuilds the program from the paths (not
        modelled beyond the count). */
    method RecompileAndRelink()
      modifies this`relinkCalls
      ensures relinkCalls == old(relinkCalls) + 1
    {
      relinkCalls := relinkCalls + 1;
    }

    /** The setters pass the value to OpenGL (not modelled) and keep it in
        their cache field; the uniform's name only matters to OpenGL. */
    method SetBool(name: CppString, value: bool)
      modifies this`bVal
      ensures bVal == value
    {
      bVal := value;
    }

    method SetInt(name: CppString, value: Int32)
      modifies this`iVal
      ensures iVal == value
    {
      iVal := value;
    }

    method SetFloat(name: CppString, value: Float)
      modifies this`fVal
      ensures fVal == value
    {
      fVal := value;
    }

    method SetVec2(name: CppString, value: Vec2)
      modifies this`vec2Value
      ensures vec2Value == value
    {
      vec2Value := value;
    }

    /** setVec2(name, x, y). */
    method SetVec2Parts(name: CppString, x: Float, y: Float)
      modifies this`vec2Value
      ensures vec2Value == Vec2(x, y)
    {
      vec2Value := Vec2(x, y);
    }

    method SetVec3(name: CppString, value: Vec3)
      modifies this`vec3Value
      ensures vec3Value == value
    {
      vec3Value := value;
    }

    /** setVec3(name, x, y, z). */
    method SetVec3Parts(name: CppString, x: Float, y: Float, z: Float)
      modifies this`vec3Value
      ensures vec3Value == Vec3(x, y, z)
    {
      vec3Value := Vec3(x, y, z);
    }

    method SetVec4(name: CppString, value: Vec4)
      modifies this`vec4Value
      ensures vec4Value == value
    {
      vec4Value := value;
    }

    /** setVec4(name, x, y, z, w). */
    method SetVec4Parts(name: CppString, x: Float, y: Float, z: Float, w: Float)
      modifies this`vec4Value
      ensures vec4Value == Vec4(x, y, z, w)
    {
      vec4Value := Vec4(x, y, z, w);
    }

    method SetMat2(name: CppString, mat: Mat2)
      modifies this`mat2Value
      ensures mat2Value == mat
    {
      mat2Value := mat;
    }

    method SetMat3(name: CppString, mat: Mat3)
      modifies this`mat3Value
      ensures mat3Value == mat
    {
      mat3Value := mat;
    }

    method SetMat4(name: CppString, mat: Mat4)
      modifies this`mat4Value
      ensures mat4Value == mat
    {
      mat4Value := mat;
    }

    /** serialize: the paths under "vertexCode" and "fragmentCode", then an
        object "uniforms" filled one assignment at a time. Before returning,
        the object is printed with `dump(4)`, whose strict error handler
        throws a type_error on a string that is not valid UTF-8; of all the
        strings in the object only the two paths are not literals. */
    method Serialize() returns (r: Result<Json, JsonError>)
      ensures r.Ok? <==> ValidUtf8(vertexShaderPath) && ValidUtf8(fragmentShaderPath)
      ensures r.Ok? ==> r.value == ShaderJson(vertexShaderPath, fragmentShaderPath, UniformValues())
      ensures r.Err? ==> r.error == TypeError
    {
      var u := UniformValues();
      TopKeysAscending();
      UniformKeysAscending();
      var j := BuildShaderJson(TOP_KEYS, UNIFORM_KEYS, JString(vertexShaderPath), JString(fragmentShaderPath),
                               BoolEntry(u), FloatEntry(u), IntEntry(u), Mat2Entry(u), Mat3Entry(u), Mat4Entry(u),
                               Vec2Entry(u), Vec3Entry(u), Vec4Entry(u));
      if !ValidUtf8(vertexShaderPath) || !ValidUtf8(fragmentShaderPath) {
        return Err(TypeError);
      }
      r := Ok(j);
    }

    /** deserialize: the two paths, then each entry of "uniforms" through
        its setter. The result is the error the source would throw, if any;
        what was assigned before it keeps its new value. */
    method Deserialize(j: Json) returns (err: Option<JsonError>)
      modifies this
      ensures Loaded(State(), err) == Deserialized(j, old(State()))
      ensures id == old(id) && relinkCalls == old(relinkCalls)
    {
      var vp := StringMember(j, VERTEX_KEY);
      if vp.Err? {
        return Some(vp.error);
      }
      vertexShaderPath := vp.value;
      var fp := StringMember(j, FRAGMENT_KEY);
      if fp.Err? {
        return Some(fp.error);
      }
      fragmentShaderPath := fp.value;
      var us := Member(j, UNIFORMS_KEY);
      if us.Err? {
        return Some(us.error);
      }
      err := ApplyEntries(Items(us.value));
    }

    /** deserialize's loop over the values of "uniforms": it stops at the
        first entry that throws. */
    method ApplyEntries(entries: seq<Json>) returns (err: Option<JsonError>)
      modifies this`bVal, this`iVal, this`fVal, this`vec2Value, this`vec3Value, this`vec4Value
      modifies this`mat2Value, this`mat3Value, this`mat4Value
      ensures (UniformValues(), err) == ApplyAll(old(UniformValues()), entries)
    {
      ghost var u0 := UniformValues();
      var i := 0;
      while i < |entries|
        invariant 0 <= i <= |entries|
        invariant ApplyAll(u0, entries[..i]) == (UniformValues(), None)
      {
        ghost var before := UniformValues();
        err := ApplyEntry(entries[i]);
        if err.Some? {
          SplitAround(entries, i);
          ApplyAllStops(u0, entries[..i], entries[i], entries[i + 1..], before);
          return;
        }
        SplitAround(entries, i);
        ApplyAllStep(u0, entries[..i], entries[i], before, UniformValues());
        i := i + 1;
      }
      assert entries[..i] == entries;
      err := None;
    }

    /** The body of deserialize's loop for one entry. */
    method ApplyEntry(uniform: Json) returns (err: Option<JsonError>)
      modifies this`bVal, this`iVal, this`fVal, this`vec2Value, this`vec3Value, this`vec4Value
      modifies this`mat2Value, this`mat3Value, this`mat4Value
      ensures var r := ApplyUniform(old(UniformValues()), uniform);
        if r.Ok? then err == None && UniformValues() == r.value
        else err == Some(r.error) && UniformValues() == old(UniformValues())
    {
      var kind := StringMember(uniform, "type");
      if kind.Err? {
        return Some(kind.error);
      }
      var name := StringMember(uniform, "name");
      if name.Err? {
        return Some(name.error);
      }
      var k := kind.value;
      if k == "bool" || k == "int" || k == "float" {
        err := ApplyScalar(k, name.value, uniform);
      } else if k == "vec2" || k == "vec3" || k == "vec4" {
        err := ApplyVector(k, name.value, uniform);
      } else if k == "mat2" || k == "mat3" || k == "mat4" {
        err := ApplyMatrix(k, name.value, uniform);
      } else {
        err := None;
      }
    }

    /** The bool, int and float branches: "value" converted for the setter. */
    method ApplyScalar(k: CppString, name: CppString, uniform: Json) returns (err: Option<JsonError>)
      requires k == "bool" || k == "int" || k == "float"
      modifies this`bVal, this`iVal, this`fVal
      ensures var r := SetScalar(old(UniformValues()), k, uniform);
        if r.Ok? then err == None && UniformValues() == r.value
        else err == Some(r.error) && UniformValues() == old(UniformValues())
    {
      var v := Member(uniform, "value");
      if v.Err? {
        return Some(v.error);
      }
      if k == "bool" {
        var b := GetBool(v.value);
        if b.Err? {
          return Some(b.error);
        }
        SetBool(name, b.value);
      } else if k == "int" {
        var i := GetInt(v.value);
        if i.Err? {
          return Some(i.error);
        }
        SetInt(name, i.value);
      } else {
        var f := GetFloat(v.value);
        if f.Err? {
          return Some(f.error);
        }
        SetFloat(name, f.value);
      }
      err := None;
    }

    /** The vec2, vec3 and vec4 branches: the components read one by one
        from a copy of "value". */
    method ApplyVector(k: CppString, name: CppString, uniform: Json) returns (err: Option<JsonError>)
      requires k == "vec2" || k == "vec3" || k == "vec4"
      modifies this`vec2Value, this`vec3Value, this`vec4Value
      ensures var r := SetVector(old(UniformValues()), k, uniform);
        if r.Ok? then err == None && UniformValues() == r.value
        else err == Some(r.error) && UniformValues() == old(UniformValues())
    {
      var v := Member(uniform, "value");
      if v.Err? {
        return Some(v.error);
      }
      var x := ReadFloat(v.value, 0, true);
      if x.Err? {
        return Some(x.error);
      }
      var y := ReadFloat(v.value, 1, true);
      if y.Err? {
        return Some(y.error);
      }
      if k == "vec2" {
        SetVec2Parts(name, x.value, y.value);
        return None;
      }
      var z := ReadFloat(v.value, 2, true);
      if z.Err? {
        return Some(z.error);
      }
      if k == "vec3" {
        SetVec3Parts(name, x.value, y.value, z.value);
        return None;
      }
      var w := ReadFloat(v.value, 3, true);
      if w.Err? {
        return Some(w.error);
      }
      SetVec4Parts(name, x.value, y.value, z.value, w.value);
      err := None;
    }

    /** The mat2, mat3 and mat4 branches: `mat[i][j] = value[i * n + j]` in
        nested loops over a copy of "value". */
    method ApplyMatrix(k: CppString, name: CppString, uniform: Json) returns (err: Option<JsonError>)
      requires k == "mat2" || k == "mat3" || k == "mat4"
      modifies this`mat2Value, this`mat3Value, this`mat4Value
      ensures var r := SetMatrix(old(UniformValues()), k, uniform);
        if r.Ok? then err == None && UniformValues() == r.value
        else err == Some(r.error) && UniformValues() == old(UniformValues())
    {
      var v := Member(uniform, "value");
      if v.Err? {
        return Some(v.error);
      }
      var n := MatrixOrder(k);
      var m, merr := ReadMatrix(v.value, Identity(n), n, true);
      if merr.Some? {
        return merr;
      }
      if n == 2 {
        SetMat2(name, m);
      } else if n == 3 {
        SetMat3(name, m);
      } else {
        SetMat4(name, m);
      }
      err := None;
    }
  }

  /** The body of serialize for top-level keys top (fragmentCode, uniforms,
      vertexCode) and uniform keys ks, both ascending, and the entries it
      writes: the built object lists both levels in key order. */
  method BuildShaderJson(top: seq<CppString>, ks: seq<CppString>, vp: Json, fp: Json,
                         bj: Json, fj: Json, ij: Json, m2j: Json, m3j: Json, m4j: Json, v2j: Json, v3j: Json, v4j: Json)
    returns (j: Json)
    requires |top| == 3 && Ascending(top) && |ks| == 9 && Ascending(ks)
    ensures j == Framed(top, fp, JObject(UniformsOf(ks, bj, fj, ij, m2j, m3j, m4j, v2j, v3j, v4j)), vp)
  {
    var fk, uk, vk := top[0], top[1], top[2];
    j := Assign(JNull, vk, vp).value;
    var vc: (CppString, Json), fc: (CppString, Json) := (vk, vp), (fk, fp);
    assert j == JObject([vc]);
    InsertAt([], [vc], fk, fp);
    assert [] + [vc] == [vc] && [] + [fc] + [vc] == [fc, vc];
    j := Assign(j, fk, fp).value;
    assert j == JObject([fc, vc]);
    assert [fc, vc] == [fc] + [vc];
    InsertAt([fc], [vc], uk, JObject([]));
    j := Assign(j, uk, JObject([])).value;
    assert j == Framed(top, fp, JObject([]), vp);
    j := FillScalars(j, top, fp, vp, ks, bj, fj, ij);
    j := FillVectors(j, top, fp, vp, ks, bj, fj, ij, v2j, v3j, v4j);
    j := FillMatrices(j, top, fp, vp, ks, bj, fj, ij, m2j, m3j, m4j, v2j, v3j, v4j);
  }

  /** The bool, int and float assignments of serialize. */
  method FillScalars(j0: Json, top: seq<CppString>, fp: Json, vp: Json, ks: seq<CppString>, bj: Json, fj: Json, ij: Json)
    returns (j: Json)
    requires |top| == 3 && Ascending(top) && |ks| == 9 && Ascending(ks)
    requires j0 == Framed(top, fp, JObject([]), vp)
    ensures j == Framed(top, fp, JObject([(ks[0], bj), (ks[1], fj), (ks[2], ij)]), vp)
  {
    var bk, fk, ik := ks[0], ks[1], ks[2];
    j := j0;
    j := AssignUniform(j, top, fp, vp, [], [], [],
      [(bk, bj)], bk, bj);
    j := AssignUniform(j, top, fp, vp, [(bk, bj)], [(bk, bj)], [],
      [(bk, bj), (ik, ij)], ik, ij);
    j := AssignUniform(j, top, fp, vp, [(bk, bj), (ik, ij)], [(bk, bj)], [(ik, ij)],
      [(bk, bj), (fk, fj), (ik, ij)], fk, fj);
  }

  /** The vec2, vec3 and vec4 assignments of serialize. */
  method FillVectors(j0: Json, top: seq<CppString>, fp: Json, vp: Json, ks: seq<CppString>, bj: Json, fj: Json, ij: Json, v2j: Json, v3j: Json, v4j: Json)
    returns (j: Json)
    requires |top| == 3 && Ascending(top) && |ks| == 9 && Ascending(ks)
    requires j0 == Framed(top, fp, JObject([(ks[0], bj), (ks[1], fj), (ks[2], ij)]), vp)
    ensures j == Framed(top, fp, JObject([(ks[0], bj), (ks[1], fj), (ks[2], ij), (ks[6], v2j), (ks[7], v3j), (ks[8], v4j)]), vp)
  {
    var bk, fk, ik, v2k, v3k, v4k := ks[0], ks[1], ks[2], ks[6], ks[7], ks[8];
    j := j0;
    j := AssignUniform(j, top, fp, vp, [(bk, bj), (fk, fj), (ik, ij)], [(bk, bj), (fk, fj), (ik, ij)], [],
      [(bk, bj), (fk, fj), (ik, ij), (v2k, v2j)], v2k, v2j);
    j := AssignUniform(j, top, fp, vp, [(bk, bj), (fk, fj), (ik, ij), (v2k, v2j)], [(bk, bj), (fk, fj), (ik, ij), (v2k, v2j)], [],
      [(bk, bj), (fk, fj), (ik, ij), (v2k, v2j), (v3k, v3j)], v3k, v3j);
    j := AssignUniform(j, top, fp, vp, [(bk, bj), (fk, fj), (ik, ij), (v2k, v2j), (v3k, v3j)], [(bk, bj), (fk, fj), (ik, ij), (v2k, v2j), (v3k, v3j)], [],
      [(bk, bj), (fk, fj), (ik, ij), (v2k, v2j), (v3k, v3j), (v4k, v4j)], v4k, v4j);
  }

  /** The mat4, mat3 and mat2 assignments of serialize. */
  method FillMatrices(j0: Json, top: seq<CppString>, fp: Json, vp: Json, ks: seq<CppString>, bj: Json, fj: Json, ij: Json, m2j: Json, m3j: Json, m4j: Json, v2j: Json, v3j: Json, v4j: Json)
    returns (j: Json)
    requires |top| == 3 && Ascending(top) && |ks| == 9 && Ascending(ks)
    requires j0 == Framed(top, fp, JObject([(ks[0], bj), (ks[1], fj), (ks[2], ij), (ks[6], v2j), (ks[7], v3j), (ks[8], v4j)]), vp)
    ensures j == Framed(top, fp, JObject([(ks[0], bj), (ks[1], fj), (ks[2], ij), (ks[3], m2j), (ks[4], m3j), (ks[5], m4j), (ks[6], v2j), (ks[7], v3j), (ks[8], v4j)]), vp)
  {
    var bk, fk, ik, m2k, m3k, m4k, v2k, v3k, v4k := ks[0], ks[1], ks[2], ks[3], ks[4], ks[5], ks[6], ks[7], ks[8];
    j := j0;
    j := AssignUniform(j, top, fp, vp, [(bk, bj), (fk, fj), (ik, ij), (v2k, v2j), (v3k, v3j), (v4k, v4j)], [(bk, bj), (fk, fj), (ik, ij)], [(v2k, v2j), (v3k, v3j), (v4k, v4j)],
      [(bk, bj), (fk, fj), (ik, ij), (m4k, m4j), (v2k, v2j), (v3k, v3j), (v4k, v4j)], m4k, m4j);
    j := AssignUniform(j, top, fp, vp, [(bk, bj), (fk, fj), (ik, ij), (m4k, m4j), (v2k, v2j), (v3k, v3j), (v4k, v4j)], [(bk, bj), (fk, fj), (ik, ij)], [(m4k, m4j), (v2k, v2j), (v3k, v3j), (v4k, v4j)],
      [(bk, bj), (fk, fj), (ik, ij), (m3k, m3j), (m4k, m4j), (v2k, v2j), (v3k, v3j), (v4k, v4j)], m3k, m3j);
    j := AssignUniform(j, top, fp, vp, [(bk, bj), (fk, fj), (ik, ij), (m3k, m3j), (m4k, m4j), (v2k, v2j), (v3k, v3j), (v4k, v4j)], [(bk, bj), (fk, fj), (ik, ij)], [(m3k, m3j), (m4k, m4j), (v2k, v2j), (v3k, v3j), (v4k, v4j)],
      [(bk, bj), (fk, fj), (ik, ij), (m2k, m2j), (m3k, m3j), (m4k, m4j), (v2k, v2j), (v3k, v3j), (v4k, v4j)], m2k, m2j);
  }

  /** One `j["uniforms"][name] = {...}` of serialize, where the uniforms
      built so far are pre + post and name falls between them. */
  method AssignUniform(j: Json, top: seq<CppString>, fp: Json, vp: Json, ms: seq<(CppString, Json)>,
                       pre: seq<(CppString, Json)>, post: seq<(CppString, Json)>, after: seq<(CppString, Json)>,
                       key: CppString, e: Json)
    returns (r: Json)
    requires |top| == 3 && Ascending(top)
    requires j == Framed(top, fp, JObject(ms), vp) && ms == pre + post && after == pre + [(key, e)] + post
    requires forall t :: 0 <= t < |pre| ==> KeyLess(pre[t].0, key)
    requires post != [] ==> KeyLess(key, post[0].0)
    ensures r == Framed(top, fp, JObject(after), vp)
  {
    PutUniform(top, fp, vp, pre, post, key, e);
    r := AssignIn(j, top[1], key, e).value;
  }

  /** The same assignment on the object built so far: the entry goes in
      between its smaller and larger neighbours. */
  lemma PutUniform(top: seq<CppString>, fp: Json, vp: Json, pre: seq<(CppString, Json)>, post: seq<(CppString, Json)>,
                   key: CppString, e: Json)
    requires |top| == 3 && Ascending(top)
    requires forall t :: 0 <= t < |pre| ==> KeyLess(pre[t].0, key)
    requires post != [] ==> KeyLess(key, post[0].0)
    ensures AssignIn(Framed(top, fp, JObject(pre + post), vp), top[1], key, e)
         == Ok(Framed(top, fp, JObject(pre + [(key, e)] + post), vp))
  {
    var fk, uk, vk := top[0], top[1], top[2];
    assert KeyLess(fk, uk) && KeyLess(uk, vk);
    KeyLessIrreflexive(uk);
    var us := JObject(pre + post);
    var obj := Framed(top, fp, us, vp);
    assert obj.members == [(fk, fp)] + [(uk, us)] + [(vk, vp)];
    assert obj.members[1..] == [(uk, us), (vk, vp)];
    assert Lookup(obj.members, uk) == Some(us);
    assert MemberOfCopy(obj, uk) == Ok(us);
    InsertAt(pre, post, key, e);
    var w := JObject(pre + [(key, e)] + post);
    assert Assign(us, key, e) == Ok(w);
    InsertReplace([(fk, fp)], us, [(vk, vp)], uk, w);
    assert Assign(obj, uk, w) == Ok(JObject([(fk, fp)] + [(uk, w)] + [(vk, vp)]));
    assert [(fk, fp)] + [(uk, w)] + [(vk, vp)] == Framed(top, fp, w, vp).members;
  }
}
