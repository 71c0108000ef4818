/** ShaderSnapshot: the two source paths of a shader, and their binary form:
    each path as a size_t length followed by its characters, with no
    terminating NUL. Reading a path back copies it into a NUL-terminated
    buffer and builds the string from that buffer, so the path stops at its
    first NUL. */
module ShaderSnapshots {
  import opened Wrappers
  import opened Bytes
  import opened Text
  import opened Codec
  import opened Streams
  import opened Shaders
  import opened Seqs

  datatype ShaderSnapshot = ShaderSnapshot(vertexShaderPath: CppString, fragmentShaderPath: CppString)

  /** ShaderSnapshot() = default. */
  const EMPTY_SHADER_SNAPSHOT: ShaderSnapshot := ShaderSnapshot([], [])

  /** ShaderSnapshot(const Shader&): copies of the two paths. */
  function CaptureShader(shader: Shader): (s: ShaderSnapshot)
    reads shader
    ensures s.vertexShaderPath == shader.vertexShaderPath && s.fragmentShaderPath == shader.fragmentShaderPath
  {
    ShaderSnapshot(shader.vertexShaderPath, shader.fragmentShaderPath)
  }

  /** applyToShader: the shader takes the snapshot's paths (so capturing it
      again yields the snapshot) and is rebuilt from them once; its uniform
      values are untouched. */
  method ApplyToShader(s: ShaderSnapshot, shader: Shader)
    modifies shader`vertexShaderPath, shader`fragmentShaderPath, shader`relinkCalls
    ensures CaptureShader(shader) == s
    ensures shader.relinkCalls == old(shader.relinkCalls) + 1
  {
    shader.vertexShaderPath := s.vertexShaderPath;
    shader.fragmentShaderPath := s.fragmentShaderPath;
    shader.RecompileAndRelink();
  }

  /** The paths are shorter than SIZE_MAX, the one length deserialize cannot
      hold in a buffer. */
  predicate PathsEncodable(s: ShaderSnapshot) {
    |s.vertexShaderPath| < MAX_SIZE_T && |s.fragmentShaderPath| < MAX_SIZE_T
  }

  /** The bytes serialize writes: for each path an 8-byte length and then
      exactly that many raw characters. */
  function EncodeShader(s: ShaderSnapshot): (r: seq<byte>)
    ensures var v, f := s.vertexShaderPath, s.fragmentShaderPath;
      |r| == 2 * SIZE_T_BYTES + |v| + |f| &&
      r[..SIZE_T_BYTES] == EncodeSizeT(|v|) &&
      r[SIZE_T_BYTES..SIZE_T_BYTES + |v|] == StringBytes(v) &&
      r[SIZE_T_BYTES + |v|..2 * SIZE_T_BYTES + |v|] == EncodeSizeT(|f|) &&
      r[2 * SIZE_T_BYTES + |v|..] == StringBytes(f)
  {
    EncodeString(s.vertexShaderPath) + EncodeString(s.fragmentShaderPath)
  }

  /** One path as deserialize reads it at p: the length, then that many
      characters, cut at the first NUL. The read of the length or of the
      characters falling short is an error (the source then builds the
      string from indeterminate memory), and so is the length SIZE_MAX. */
  function DecodePath(d: seq<byte>, p: nat): (r: Decoded<CppString>)
    ensures var n := DecodeSizeT(d, p);
      r.Ok? <==> n.Ok? && n.value.0 != MAX_SIZE_T && n.value.1 + n.value.0 <= |d|
    ensures r.Ok? ==> NUL !in r.value.0 && p + SIZE_T_BYTES + |r.value.0| <= r.value.1 <= |d|
    ensures var n := DecodeSizeT(d, p);
      r.Err? ==> r.error == if n.Ok? && n.value.0 == MAX_SIZE_T then PathLengthOverflow else ReadFailed
  {
    var n :- DecodeSizeT(d, p);
    if n.0 == MAX_SIZE_T then Err(PathLengthOverflow)
    else if n.1 + n.0 > |d| then Err(ReadFailed)
    else Ok((UntilNul(BytesString(d[n.1..n.1 + n.0])), n.1 + n.0))
  }

  /** The snapshot deserialize reads at p, with the position after it. */
  function DecodeShader(d: seq<byte>, p: nat): (r: Decoded<ShaderSnapshot>)
    ensures r.Ok? ==> NUL !in r.value.0.vertexShaderPath && NUL !in r.value.0.fragmentShaderPath
    ensures r.Ok? ==> p + 2 * SIZE_T_BYTES <= r.value.1 <= |d|
  {
    var v :- DecodePath(d, p);
    var f :- DecodePath(d, v.1);
    Ok((ShaderSnapshot(v.0, f.0), f.1))
  }

  /** serialize. */
  method SerializeShader(s: ShaderSnapshot, os: OutStream)
    modifies os
    ensures os.bytes == old(os.bytes) + EncodeShader(s)
  {
    ghost var before := os.bytes;
    WriteString(os, s.vertexShaderPath);
    WriteString(os, s.fragmentShaderPath);
    AppendAssoc(before, EncodeString(s.vertexShaderPath), EncodeString(s.fragmentShaderPath));
  }

  /** Reading one path: the length, a buffer of length + 1 characters filled
      by is.read and NUL-terminated, and the string of that buffer. After a
      length of SIZE_MAX the source has no defined behaviour; the model then
      attempts the read and yields the empty string. */
  method ReadPath(input: InStream) returns (path: CppString)
    requires input.Valid()
    modifies input
    ensures input.Valid()
    ensures var r := DecodePath(input.data, old(input.pos));
      !old(input.failed) && r.Ok? ==> !input.failed && path == r.value.0 && input.pos == r.value.1
    ensures var r := DecodePath(input.data, old(input.pos));
      old(input.failed) || (r.Err? && r.error == ReadFailed) ==> input.failed
  {
    var n := ReadSizeT(input);
    var buffer := input.Read(n);
    if n == MAX_SIZE_T {
      path := [];
    } else {
      path := UntilNul(BytesString(buffer));
    }
  }

  /** deserialize: the two paths in turn. */
  method DeserializeShader(input: InStream) returns (s: ShaderSnapshot)
    requires input.Valid()
    modifies input
    ensures input.Valid()
    ensures var r := DecodeShader(input.data, old(input.pos));
      !old(input.failed) && r.Ok? ==> !input.failed && s == r.value.0 && input.pos == r.value.1
    ensures var r := DecodeShader(input.data, old(input.pos));
      old(input.failed) || (r.Err? && r.error == ReadFailed) ==> input.failed
  {
    var v := ReadPath(input);
    var f := ReadPath(input);
    s := ShaderSnapshot(v, f);
  }

  /** DecodePath on a length field n that fits the buffer, ending at q. */
  lemma DecodePathSteps(d: seq<byte>, p: nat, n: nat, q: nat)
    requires p + SIZE_T_BYTES + n == q <= |d| && n < MAX_SIZE_T
    requires DecodeSizeT(d, p) == Ok((n, p + SIZE_T_BYTES))
    ensures DecodePath(d, p) == Ok((UntilNul(BytesString(d[p + SIZE_T_BYTES..q])), q))
  {
  }

  /** DecodePath on a length field n followed by the n characters of s,
      ending at q. */
  lemma DecodePathOf(d: seq<byte>, p: nat, q: nat, s: CppString)
    requires p + SIZE_T_BYTES + |s| == q <= |d| && |s| < MAX_SIZE_T
    requires DecodeSizeT(d, p) == Ok((|s|, p + SIZE_T_BYTES))
    requires d[p + SIZE_T_BYTES..q] == StringBytes(s)
    ensures DecodePath(d, p) == Ok((UntilNul(s), q))
  {
    DecodePathSteps(d, p, |s|, q);
    BytesStringOf(d[p + SIZE_T_BYTES..q], s);
  }

  /** Reading back a path whose encoding is d[p..q] gives the path up to its
      first NUL, and stops right after the written characters. */
  lemma PathRoundTrip(path: CppString, d: seq<byte>, p: nat, q: nat)
    requires |path| < MAX_SIZE_T
    requires p <= q <= |d| && d[p..q] == EncodeString(path)
    ensures DecodePath(d, p) == Ok((UntilNul(path), q))
  {
    Split2(d, p, q, EncodeSizeT(|path|), StringBytes(path));
    SizeTAt(d, p, p + SIZE_T_BYTES, |path|);
    assert q == p + SIZE_T_BYTES + |path|;
    DecodePathOf(d, p, q, path);
  }

  /** Reading back what serialize wrote gives each path up to its first NUL. */
  lemma ShaderRoundTrip(s: ShaderSnapshot, d: seq<byte>, p: nat, q: nat)
    requires PathsEncodable(s)
    requires p <= q <= |d| && d[p..q] == EncodeShader(s)
    ensures DecodeShader(d, p) == Ok((ShaderSnapshot(UntilNul(s.vertexShaderPath), UntilNul(s.fragmentShaderPath)), q))
  {
    var ev, ef := EncodeString(s.vertexShaderPath), EncodeString(s.fragmentShaderPath);
    var m := p + |ev|;
    Split2(d, p, q, ev, ef);
    PathRoundTrip(s.vertexShaderPath, d, p, m);
    PathRoundTrip(s.fragmentShaderPath, d, m, q);
  }

  /** The round trip restores the snapshot exactly when neither path holds a
      NUL character. */
  lemma ShaderRoundTripExact(s: ShaderSnapshot)
    requires PathsEncodable(s)
    ensures var e := EncodeShader(s);
      DecodeShader(e, 0) == Ok((s, |e|)) <==> NUL !in s.vertexShaderPath && NUL !in s.fragmentShaderPath
  {
    var e := EncodeShader(s);
    assert e[0..|e|] == e;
    ShaderRoundTrip(s, e, 0, |e|);
    if NUL !in s.vertexShaderPath && NUL !in s.fragmentShaderPath {
      UntilNulIdentity(s.vertexShaderPath);
      UntilNulIdentity(s.fragmentShaderPath);
    }
  }

  /** A shader captured and written reads back as its two paths, each cut
      at its first NUL; so exactly when neither path holds a NUL, the
      captured paths come back unchanged. */
  lemma CapturedShaderRoundTrip(shader: Shader)
    requires PathsEncodable(CaptureShader(shader))
    ensures var e := EncodeShader(CaptureShader(shader));
      DecodeShader(e, 0) == Ok((ShaderSnapshot(UntilNul(shader.vertexShaderPath), UntilNul(shader.fragmentShaderPath)), |e|))
  {
    var s := CaptureShader(shader);
    var e := EncodeShader(s);
    assert e[0..|e|] == e;
    ShaderRoundTrip(s, e, 0, |e|);
  }

  /** For instance the vertex path "a\0b" is read back as "a". */
  lemma PathTruncatedAtNul()
    ensures var s := ShaderSnapshot("a\0b", "f");
      var e := EncodeShader(s);
      DecodeShader(e, 0) == Ok((ShaderSnapshot("a", "f"), |e|))
  {
    var s := ShaderSnapshot("a\0b", "f");
    var e := EncodeShader(s);
    assert e[0..|e|] == e;
    ShaderRoundTrip(s, e, 0, |e|);
    assert UntilNul("b") == "b";
    assert UntilNul("\0b") == "";
    assert UntilNul("a\0b") == "a";
    assert UntilNul("f") == "f";
  }
}
