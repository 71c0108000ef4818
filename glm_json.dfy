/** glm_json.cpp: a glm::mat4 as a JSON array of its 16 floats, entry
    mat[i][k] at index i * 4 + k, and back. */
module GlmJson {
  import opened Wrappers
  import opened Bytes
  import opened Glm
  import opened Json

  /** The array both writers build. */
  function MatrixJson(m: Matrix): (j: Json)
    requires IsMatrix(m, 4)
    ensures Size(j) == 16
  {
    OffsetIsProduct(4, 4);
    FloatArray(Flatten(m, 4))
  }

  /** mat[i][k] is entry i * 4 + k of its flattening. */
  lemma FlattenAt4(m: Matrix, i: nat, k: nat)
    requires IsMatrix(m, 4) && i < 4 && k < 4
    ensures i * 4 + k < 16 && Flatten(m, 4)[i * 4 + k] == m[i][k]
  {
    assert FlatAt(Flatten(m, 4), m, 4, i, k);
    OffsetIsProduct(4, i);
  }

  /** What `j` holds after pushing xs into a fresh (null) json. */
  function Pushed(xs: seq<Float>): (j: Json)
    ensures xs != [] ==> j == FloatArray(xs)
  {
    if xs == [] then JNull else FloatArray(xs)
  }

  lemma PushFloat(xs: seq<Float>, x: Float)
    ensures PushBack(Pushed(xs), JFloat(x)) == Ok(Pushed(xs + [x]))
  {
    if xs == [] {
      assert xs + [x] == [x];
      assert FloatArray([x]).items == [JFloat(x)];
    } else {
      assert FloatArray(xs + [x]).items == FloatArray(xs).items + [JFloat(x)];
    }
  }

  /** glm::mat4_to_json: 16 push_backs, row index i outer and k inner. */
  method Mat4ToJson(mat: Matrix) returns (j: Json)
    requires IsMatrix(mat, 4)
    ensures j == MatrixJson(mat)
    ensures j.JArray? && Size(j) == 16
    ensures forall i, k :: 0 <= i < 4 && 0 <= k < 4 ==> Element(j, i * 4 + k) == Ok(JFloat(mat[i][k]))
  {
    OffsetIsProduct(4, 4);
    ghost var xs := Flatten(mat, 4);
    j := JNull;
    for i := 0 to 4
      invariant j == Pushed(xs[..i * 4])
    {
      for k := 0 to 4
        invariant j == Pushed(xs[..i * 4 + k])
      {
        FlattenAt4(mat, i, k);
        PushFloat(xs[..i * 4 + k], mat[i][k]);
        assert xs[..i * 4 + k + 1] == xs[..i * 4 + k] + [mat[i][k]];
        var r := PushBack(j, JFloat(mat[i][k]));
        j := r.value;
      }
    }
    assert xs[..16] == xs;
    forall i, k | 0 <= i < 4 && 0 <= k < 4 ensures Element(j, i * 4 + k) == Ok(JFloat(mat[i][k])) {
      FlattenAt4(mat, i, k);
    }
  }

  /** Entry [c][e] of m holds the float read from index c * n + e of j. */
  ghost predicate EntryRead(j: Json, m: Matrix, n: nat, c: nat, e: nat, viaCopy: bool)
    requires IsMatrix(m, n) && c < n && e < n
  {
    ReadFloat(j, Offset(n, c) + e, viaCopy) == Ok(m[c][e])
  }

  /** Every entry before [i][k], in the reading order, holds the float read
      for it. */
  ghost predicate ReadBefore(j: Json, m: Matrix, n: nat, i: nat, k: nat, viaCopy: bool)
    requires IsMatrix(m, n)
  {
    forall c, e :: 0 <= c < n && 0 <= e < n && Offset(n, c) + e < Offset(n, i) + k ==> EntryRead(j, m, n, c, e, viaCopy)
  }

  /** Every entry from [i][k] on, in the reading order, still holds its
      value in mat. */
  ghost predicate UntouchedFrom(m: Matrix, mat: Matrix, n: nat, i: nat, k: nat)
    requires IsMatrix(m, n) && IsMatrix(mat, n)
  {
    forall c, e :: 0 <= c < n && 0 <= e < n && Offset(n, i) + k <= Offset(n, c) + e ==> m[c][e] == mat[c][e]
  }

  /** What the caller's matrix holds once the reads stop after t entries:
      the entries read, at indices below t, and mat's own entries from t on. */
  ghost predicate PartlyRead(j: Json, m: Matrix, mat: Matrix, n: nat, t: nat, viaCopy: bool)
    requires IsMatrix(m, n) && IsMatrix(mat, n)
  {
    forall c, e :: 0 <= c < n && 0 <= e < n ==>
      if Offset(n, c) + e < t then EntryRead(j, m, n, c, e, viaCopy) else m[c][e] == mat[c][e]
  }

  /** Distinct entries have distinct indices c * n + e. */
  lemma OffsetInjective(n: nat, c: nat, e: nat, i: nat, k: nat)
    requires e < n && k < n && Offset(n, c) + e == Offset(n, i) + k
    ensures c == i && e == k
  {
    if c < i {
      OffsetMono(n, c, i);
    } else if i < c {
      OffsetMono(n, i, c);
    }
  }

  lemma ReadBeforeStep(j: Json, m: Matrix, mat: Matrix, n: nat, i: nat, k: nat, x: Float, viaCopy: bool)
    requires IsMatrix(m, n) && IsMatrix(mat, n) && i < n && k < n
    requires ReadBefore(j, m, n, i, k, viaCopy) && ReadFloat(j, Offset(n, i) + k, viaCopy) == Ok(x)
    requires UntouchedFrom(m, mat, n, i, k)
    ensures ReadBefore(j, SetEntry(m, n, i, k, x), n, i, k + 1, viaCopy)
    ensures UntouchedFrom(SetEntry(m, n, i, k, x), mat, n, i, k + 1)
  {
    var r := SetEntry(m, n, i, k, x);
    forall c, e | 0 <= c < n && 0 <= e < n && Offset(n, c) + e < Offset(n, i) + k + 1
      ensures EntryRead(j, r, n, c, e, viaCopy)
    {
      if c != i || e != k {
        if Offset(n, c) + e == Offset(n, i) + k {
          OffsetInjective(n, c, e, i, k);
        }
        assert EntryRead(j, m, n, c, e, viaCopy);
      }
    }
  }

  /** The inner loop of the matrix reads: entries [i][0 .. n-1] of the
      caller's matrix, which held mat before the reads began. On a failing
      entry the loop ends with the entries written so far kept. */
  method ReadColumn(j: Json, m0: Matrix, ghost mat: Matrix, n: nat, i: nat, viaCopy: bool)
    returns (m: Matrix, err: Option<JsonError>)
    requires IsMatrix(m0, n) && IsMatrix(mat, n) && i < n
    requires ReadFloats(j, Offset(n, i), viaCopy).Ok? && ReadBefore(j, m0, n, i, 0, viaCopy)
    requires UntouchedFrom(m0, mat, n, i, 0)
    ensures IsMatrix(m, n)
    ensures err.None? ==>
      ReadFloats(j, Offset(n, i + 1), viaCopy).Ok? && ReadBefore(j, m, n, i + 1, 0, viaCopy) &&
      UntouchedFrom(m, mat, n, i + 1, 0)
    ensures err.Some? ==>
      ReadFloats(j, Offset(n, n), viaCopy) == Err(err.value) &&
      PartlyRead(j, m, mat, n, ReadCount(j, Offset(n, n), viaCopy), viaCopy)
  {
    m := m0;
    for k := 0 to n
      invariant IsMatrix(m, n)
      invariant ReadFloats(j, Offset(n, i) + k, viaCopy).Ok? && ReadBefore(j, m, n, i, k, viaCopy)
      invariant UntouchedFrom(m, mat, n, i, k)
    {
      var x := ReadFloat(j, Offset(n, i) + k, viaCopy);
      if x.Err? {
        IndexInRange(n, i, k);
        ReadFloatsFirstError(j, Offset(n, i) + k, Offset(n, n), viaCopy);
        ReadCountAt(j, Offset(n, i) + k, Offset(n, n), viaCopy);
        return m, Some(x.error);
      }
      ReadFloatsNext(j, Offset(n, i) + k, viaCopy);
      ReadBeforeStep(j, m, mat, n, i, k, x.value, viaCopy);
      m := SetEntry(m, n, i, k, x.value);
    }
    err := None;
  }

  /** `for i { for k { mat[i][k] = j[i * n + k] } }` with float conversions,
      on the caller's matrix mat: the matrix of the n * n floats; or, at the
      first entry that cannot be read, its error, with the entries before it
      already overwritten and the rest of mat as it was. */
  method ReadMatrix(j: Json, mat: Matrix, n: nat, viaCopy: bool) returns (m: Matrix, err: Option<JsonError>)
    requires IsMatrix(mat, n)
    ensures IsMatrix(m, n)
    ensures var e := ReadFloats(j, Offset(n, n), viaCopy);
      if e.Ok? then err == None && m == Unflatten(e.value, n) else err == Some(e.error)
    ensures PartlyRead(j, m, mat, n, ReadCount(j, Offset(n, n), viaCopy), viaCopy)
  {
    m := mat;
    for i := 0 to n
      invariant IsMatrix(m, n)
      invariant ReadFloats(j, Offset(n, i), viaCopy).Ok? && ReadBefore(j, m, n, i, 0, viaCopy)
      invariant UntouchedFrom(m, mat, n, i, 0)
    {
      var c, cerr := ReadColumn(j, m, mat, n, i, viaCopy);
      if cerr.Some? {
        return c, cerr;
      }
      m := c;
    }
    var e := ReadFloats(j, Offset(n, n), viaCopy);
    var u := Unflatten(e.value, n);
    forall i | 0 <= i < n ensures m[i] == u[i] {
      forall k | 0 <= k < n ensures m[i][k] == u[i][k] {
        IndexInRange(n, i, k);
        UnflattenAt(e.value, n, i, k);
        assert EntryRead(j, m, n, i, k, viaCopy);
      }
    }
    assert m == u;
    forall c, e | 0 <= c < n && 0 <= e < n
      ensures Offset(n, c) + e < ReadCount(j, Offset(n, n), viaCopy) && EntryRead(j, m, n, c, e, viaCopy)
    {
      IndexInRange(n, c, e);
    }
    err := None;
  }

  /** glm::mat4_from_json: mat[i][k] = j[i * 4 + k].get<float>() in that
      order, on a const json, into the caller's matrix mat. */
  method Mat4FromJson(j: Json, mat: Matrix) returns (m: Matrix, err: Option<JsonError>)
    requires IsMatrix(mat, 4)
    ensures IsMatrix(m, 4)
    ensures var e := ReadFloats(j, 16, false);
      if e.Ok? then err == None && m == Unflatten(e.value, 4) else err == Some(e.error)
    ensures PartlyRead(j, m, mat, 4, ReadCount(j, 16, false), false)
  {
    OffsetIsProduct(4, 4);
    m, err := ReadMatrix(j, mat, 4, false);
  }

  /** glm_json::mat4_to_json_array: the same 16 push_backs. */
  method Mat4ToJsonArray(matrix: Matrix) returns (j: Json)
    requires IsMatrix(matrix, 4)
    ensures j == MatrixJson(matrix)
  {
    j := Mat4ToJson(matrix);
  }

  /** glm_json::mat4_from_json_array: the same reads into the caller's
      matrix when the array has 16 entries, the identity matrix otherwise. */
  method Mat4FromJsonArray(j: Json, matrix: Matrix) returns (m: Matrix, err: Option<JsonError>)
    requires IsMatrix(matrix, 4)
    ensures IsMatrix(m, 4)
    ensures Size(j) != 16 ==> err == None && m == Identity(4)
    ensures Size(j) == 16 ==> var e := ReadFloats(j, 16, false);
      (if e.Ok? then err == None && m == Unflatten(e.value, 4) else err == Some(e.error)) &&
      PartlyRead(j, m, matrix, 4, ReadCount(j, 16, false), false)
  {
    if Size(j) == 16 {
      m, err := Mat4FromJson(j, matrix);
    } else {
      m, err := Identity(4), None;
    }
  }

  /** Reading back what either writer built gives the matrix back. */
  lemma MatrixJsonRoundTrip(m: Matrix)
    requires IsMatrix(m, 4)
    ensures Size(MatrixJson(m)) == 16
    ensures var e := ReadFloats(MatrixJson(m), 16, false);
      e.Ok? && Unflatten(e.value, 4) == m
  {
    OffsetIsProduct(4, 4);
    var xs := Flatten(m, 4);
    FloatArrayRoundTrip(xs, 16, false);
    assert xs[..16] == xs;
    UnflattenFlatten(m, 4);
  }
}
