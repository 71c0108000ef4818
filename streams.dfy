/** std::ostream and std::istream as the snapshot code uses them: `write`
    appends bytes; `read` copies the next bytes, and a read that finds fewer
    bytes than asked sets the fail bit, after which every read extracts
    nothing. */
module Streams {
  import opened Bytes
  import opened Codec
  import opened Text

  class OutStream {
    var bytes: seq<byte>

    constructor ()
      ensures bytes == []
    {
      bytes := [];
    }

    method Write(b: seq<byte>)
      modifies this
      ensures bytes == old(bytes) + b
    {
      bytes := bytes + b;
    }
  }

  class InStream {
    const data: seq<byte>
    var pos: nat
    var failed: bool

    ghost predicate Valid()
      reads this
    {
      pos <= |data| && (failed ==> pos == |data|)
    }

    constructor (data: seq<byte>)
      ensures Valid() && this.data == data && pos == 0 && !failed
    {
      this.data := data;
      pos := 0;
      failed := false;
    }

    /** is.read(buffer, n). On a short read the buffer's contents are not
        specified (the source leaves part of it unwritten). */
    method Read(n: nat) returns (b: seq<byte>)
      requires Valid()
      modifies this
      ensures Valid() && |b| == n
      ensures !old(failed) && old(pos) + n <= |data| ==>
                !failed && pos == old(pos) + n && b == data[old(pos)..pos]
      ensures old(failed) || old(pos) + n > |data| ==> failed
    {
      if !failed && pos + n <= |data| {
        b := data[pos..pos + n];
        pos := pos + n;
      } else {
        b := seq(n, _ => 0);
        pos := |data|;
        failed := true;
      }
    }
  }

  /** The loop `for (const auto& x : xs) os.write(&x, w)`: each item's
      bytes, in order. */
  method WriteBlocks<T>(os: OutStream, xs: seq<T>, enc: T -> seq<byte>)
    modifies os
    ensures os.bytes == old(os.bytes) + EncodeBlocks(xs, enc)
  {
    for i := 0 to |xs|
      invariant os.bytes == old(os.bytes) + EncodeBlocks(xs[..i], enc)
    {
      os.Write(enc(xs[i]));
      assert xs[..i + 1][..i] == xs[..i];
    }
    assert xs[..|xs|] == xs;
  }

  /** Reading a size_t: the value DecodeSizeT gives, unless the read fails. */
  method ReadSizeT(input: InStream) returns (n: U64)
    requires input.Valid()
    modifies input
    ensures input.Valid()
    ensures var r := DecodeSizeT(input.data, old(input.pos));
      if old(input.failed) || r.Err? then input.failed
      else !input.failed && n == r.value.0 && input.pos == r.value.1
  {
    var b := input.Read(SIZE_T_BYTES);
    Pow256Widths();
    n := FromLittleEndian(b);
  }

  /** The loop `for (auto& x : xs) is.read(&x, w)` over a vector already
      resized to a.Length: fills a in place, block by block. */
  method FillBlocks<T>(input: InStream, a: array<T>, w: nat, dec: seq<byte> -> T)
    requires input.Valid()
    modifies input, a
    ensures input.Valid()
    ensures var r := DecodeBlocks(input.data, old(input.pos), a.Length, w, dec);
      if old(input.failed) || r.Err? then input.failed
      else !input.failed && a[..] == r.value.0 && input.pos == r.value.1
  {
    ghost var p0 := input.pos;
    ghost var failed0 := input.failed;
    for i := 0 to a.Length
      invariant input.Valid()
      invariant failed0 || p0 + Offset(w, i) > |input.data| ==> input.failed
      invariant !failed0 && p0 + Offset(w, i) <= |input.data| ==>
        !input.failed && input.pos == p0 + Offset(w, i) && a[..i] == DecodeBlocks(input.data, p0, i, w, dec).value.0
    {
      var b := input.Read(w);
      a[i] := dec(b);
      if !failed0 && p0 + Offset(w, i + 1) <= |input.data| {
        DecodeBlocksSnoc(input.data, p0, i, w, dec);
        assert a[..i + 1] == a[..i] + [a[i]];
      }
    }
    assert a[..] == a[..a.Length];
  }

  /** Writing a vector: its size_t count, then each item's bytes. */
  method WriteList<T>(os: OutStream, xs: seq<T>, enc: T -> seq<byte>)
    modifies os
    ensures os.bytes == old(os.bytes) + EncodeList(xs, enc)
  {
    os.Write(EncodeSizeT(|xs|));
    WriteBlocks(os, xs, enc);
  }

  /** Reading a vector: the count, `resize` to it (new items are `init`),
      then each item in place. */
  method ReadList<T>(input: InStream, w: nat, dec: seq<byte> -> T, init: T) returns (xs: seq<T>)
    requires input.Valid()
    modifies input
    ensures input.Valid()
    ensures var r := DecodeList(input.data, old(input.pos), w, dec);
      if old(input.failed) || r.Err? then input.failed
      else !input.failed && xs == r.value.0 && input.pos == r.value.1
  {
    var n := ReadSizeT(input);
    var a := new T[n](_ => init);
    FillBlocks(input, a, w, dec);
    xs := a[..];
  }

  /** Writing a std::string: its size_t length, then `os.write(s.c_str(), length)`. */
  method WriteString(os: OutStream, s: CppString)
    modifies os
    ensures os.bytes == old(os.bytes) + EncodeString(s)
  {
    os.Write(EncodeSizeT(|s|));
    os.Write(StringBytes(s));
  }
}
