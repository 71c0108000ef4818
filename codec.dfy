/** The primitives of the binary snapshot format that all three snapshot
    kinds share: decode errors, size_t fields, runs of fixed-width blocks and
    length-prefixed byte strings. Decoders read from position p of the whole
    stream contents d and return the value with the position after it. */
module Codec {
  import opened Wrappers
  import opened Bytes
  import opened Text
  import opened Seqs

  datatype DecodeError =
    /** The data ran out: either a read ran past the end of the stream and
        the source goes on with the indeterminate value it read (a count or
        a length), or a count or length that the source never bounds is
        larger than the bytes left. For the latter the source may instead
        fail to allocate (std::bad_alloc or std::length_error from `resize`
        or `new char[]`) before it reads any element; both end the read
        without a value, and this one error stands for all of them. */
    | ReadFailed
    /** deserializeString: the length is 0, above 300, or its read failed. */
    | InvalidStringLength
    /** deserializeString: the string body was cut short. */
    | StringReadFailed
    /** ModelSnapshot::deserialize: more than 100 meshes. */
    | TooManyMeshes
    /** ModelSnapshot::deserialize: more than 100 textures. */
    | TooManyTextures
    /** ShaderSnapshot::deserialize: a path length of SIZE_MAX, whose buffer
        size `pathLength + 1` wraps around to 0 before the terminating NUL
        is stored at index pathLength (undefined behaviour). */
    | PathLengthOverflow

  type Decoded<T> = Result<(T, nat), DecodeError>

  const MAX_SIZE_T: nat := 0x1_0000_0000_0000_0000 - 1

  /** An 8-byte size_t at p. */
  function DecodeSizeT(d: seq<byte>, p: nat): (r: Decoded<U64>)
    ensures r.Ok? <==> p + SIZE_T_BYTES <= |d|
    ensures r.Ok? ==> r.value.1 == p + SIZE_T_BYTES && r.value.0 == FromLittleEndian(d[p..p + SIZE_T_BYTES])
    ensures r.Err? ==> r.error == ReadFailed
  {
    if p + SIZE_T_BYTES > |d| then Err(ReadFailed)
    else
      Pow256Widths();
      Ok((FromLittleEndian(d[p..p + SIZE_T_BYTES]), p + SIZE_T_BYTES))
  }

  lemma SizeTCodec(n: nat, pre: seq<byte>, post: seq<byte>)
    requires n <= MAX_SIZE_T
    ensures DecodeSizeT(pre + EncodeSizeT(n) + post, |pre|) == Ok((n, |pre| + SIZE_T_BYTES))
  {
    var d := pre + EncodeSizeT(n) + post;
    assert d[|pre|..|pre| + SIZE_T_BYTES] == EncodeSizeT(n);
    SizeTRoundTrip(n);
  }

  /** A size_t read at p was written as the 8 bytes it was read from. */
  lemma SizeTSliceCanonical(d: seq<byte>, p: nat)
    requires DecodeSizeT(d, p).Ok?
    ensures var r := DecodeSizeT(d, p).value;
      r.1 == p + SIZE_T_BYTES && d[p..r.1] == EncodeSizeT(r.0)
  {
    SizeTCanonical(d[p..p + SIZE_T_BYTES]);
  }

  /** A size_t whose encoding sits at p is read back from there. */
  lemma SizeTAt(d: seq<byte>, p: nat, q: nat, n: nat)
    requires n <= MAX_SIZE_T
    requires p <= q <= |d| && d[p..q] == EncodeSizeT(n)
    ensures DecodeSizeT(d, p) == Ok((n, q))
  {
    SizeTRoundTrip(n);
  }

  /** The items of xs written one after the other, each as enc writes it. */
  function EncodeBlocks<T>(xs: seq<T>, enc: T -> seq<byte>): seq<byte> {
    if xs == [] then [] else EncodeBlocks(xs[..|xs| - 1], enc) + enc(xs[|xs| - 1])
  }

  /** Writing one item more appends that item's bytes. */
  lemma EncodeBlocksSnoc<T>(xs: seq<T>, enc: T -> seq<byte>, i: nat)
    requires i < |xs|
    ensures EncodeBlocks(xs[..i + 1], enc) == EncodeBlocks(xs[..i], enc) + enc(xs[i])
  {
    assert xs[..i + 1][..i] == xs[..i];
  }

  lemma {:induction false} EncodeBlocksLength<T>(xs: seq<T>, enc: T -> seq<byte>, w: nat)
    requires forall x :: |enc(x)| == w
    ensures |EncodeBlocks(xs, enc)| == Offset(w, |xs|)
  {
    if xs != [] {
      EncodeBlocksLength(xs[..|xs| - 1], enc, w);
    }
  }

  /** The i-th of a run of w-byte blocks starting at p. */
  function Block(d: seq<byte>, p: nat, w: nat, i: nat): seq<byte>
    requires p + Offset(w, i) + w <= |d|
  {
    d[p + Offset(w, i)..p + Offset(w, i) + w]
  }

  /** Reading n blocks of w bytes at p, each turned into an item by dec (the
      source's `for (auto& x : xs) is.read(&x, w)` over a resized vector):
      it succeeds exactly when all n blocks are there. */
  function DecodeBlocks<T>(d: seq<byte>, p: nat, n: nat, w: nat, dec: seq<byte> -> T): (r: Decoded<seq<T>>)
    ensures r.Ok? <==> p + Offset(w, n) <= |d|
    ensures r.Ok? ==> |r.value.0| == n && r.value.1 == p + Offset(w, n)
    ensures r.Err? ==> r.error == ReadFailed
  {
    var q: nat := p + Offset(w, n);
    if q <= |d| then
      Ok((seq(n, i requires 0 <= i < n => (OffsetMono(w, i, n); dec(Block(d, p, w, i)))), q))
    else Err(ReadFailed)
  }

  /** Reading one block more adds that block's item at the end. */
  lemma DecodeBlocksSnoc<T>(d: seq<byte>, p: nat, n: nat, w: nat, dec: seq<byte> -> T)
    requires p + Offset(w, n + 1) <= |d|
    ensures DecodeBlocks(d, p, n + 1, w, dec).value.0 == DecodeBlocks(d, p, n, w, dec).value.0 + [dec(Block(d, p, w, n))]
  {
  }

  /** The blocks of an encoded run are the items' encodings. */
  lemma {:induction false} EncodeBlocksBlock<T>(xs: seq<T>, enc: T -> seq<byte>, w: nat, i: nat)
    requires forall x :: |enc(x)| == w
    requires i < |xs|
    ensures Offset(w, i) + w <= |EncodeBlocks(xs, enc)|
    ensures Block(EncodeBlocks(xs, enc), 0, w, i) == enc(xs[i])
  {
    var init := xs[..|xs| - 1];
    EncodeBlocksLength(init, enc, w);
    EncodeBlocksLength(xs, enc, w);
    OffsetMono(w, i, |xs|);
    if i < |xs| - 1 {
      EncodeBlocksBlock(init, enc, w, i);
      assert EncodeBlocks(xs, enc)[..Offset(w, |init|)] == EncodeBlocks(init, enc);
    }
  }

  lemma BlockOfSlice(d: seq<byte>, p: nat, q: nat, w: nat, i: nat)
    requires p <= q <= |d| && Offset(w, i) + w <= q - p
    ensures Block(d, p, w, i) == Block(d[p..q], 0, w, i)
  {
    var o := Offset(w, i);
    forall k | 0 <= k < w ensures Block(d, p, w, i)[k] == Block(d[p..q], 0, w, i)[k] {
      assert Block(d, p, w, i)[k] == d[p + o + k];
      assert Block(d[p..q], 0, w, i)[k] == d[p..q][o + k];
    }
  }

  lemma DecodeEncodeBlocks<T>(xs: seq<T>, enc: T -> seq<byte>, dec: seq<byte> -> T, w: nat, d: seq<byte>, p: nat, q: nat)
    requires forall x :: |enc(x)| == w && dec(enc(x)) == x
    requires p <= q <= |d| && d[p..q] == EncodeBlocks(xs, enc)
    ensures DecodeBlocks(d, p, |xs|, w, dec) == Ok((xs, q))
  {
    EncodeBlocksLength(xs, enc, w);
    var r := DecodeBlocks(d, p, |xs|, w, dec);
    assert r.Ok?;
    var ys := r.value.0;
    forall i | 0 <= i < |xs| ensures ys[i] == xs[i] {
      EncodeBlocksBlock(xs, enc, w, i);
      OffsetMono(w, i, |xs|);
      BlockOfSlice(d, p, q, w, i);
      var b := Block(d, p, w, i);
      assert ys[i] == dec(b);
      assert b == enc(xs[i]);
    }
    assert ys == xs;
    assert |d[p..q]| == q - p;
    assert r.value.1 == q;
    assert r.value == (xs, q);
  }

  /** The converse: when every block is the encoding of its decoding,
      decoded blocks re-encode to exactly the bytes read. */
  /** One block further: the re-encoding of n decoded blocks is that of the
      first n - 1 followed by the last block's bytes, when that block is the
      encoding of its decoding. */
  lemma EncodeDecodedBlocksStep<T>(d: seq<byte>, p: nat, n: nat, w: nat, enc: T -> seq<byte>, dec: seq<byte> -> T)
    requires 0 < n && p + Offset(w, n) <= |d|
    requires enc(dec(Block(d, p, w, n - 1))) == Block(d, p, w, n - 1)
    requires EncodeBlocks(DecodeBlocks(d, p, n - 1, w, dec).value.0, enc) == d[p..p + Offset(w, n - 1)]
    ensures EncodeBlocks(DecodeBlocks(d, p, n, w, dec).value.0, enc) == d[p..p + Offset(w, n)]
  {
    var k := n - 1;
    var xs := DecodeBlocks(d, p, k, w, dec).value.0;
    var b := Block(d, p, w, k);
    var y := dec(b);
    var o := Offset(w, k);
    assert Offset(w, n) == o + w;
    assert DecodeBlocks(d, p, n, w, dec).value.0 == xs + [y];
    SnocInit(xs, y);
    assert EncodeBlocks(xs + [y], enc) == EncodeBlocks(xs, enc) + enc(y);
    assert b == d[p + o..p + o + w];
    Join2(d, p, p + o, p + o + w);
  }

  lemma {:induction false} EncodeDecodedBlocks<T>(d: seq<byte>, p: nat, n: nat, w: nat, enc: T -> seq<byte>, dec: seq<byte> -> T)
    requires forall b :: |b| == w ==> enc(dec(b)) == b
    requires p + Offset(w, n) <= |d|
    ensures EncodeBlocks(DecodeBlocks(d, p, n, w, dec).value.0, enc) == d[p..p + Offset(w, n)]
  {
    if n > 0 {
      EncodeDecodedBlocks(d, p, n - 1, w, enc, dec);
      OffsetMono(w, n - 1, n);
      assert enc(dec(Block(d, p, w, n - 1))) == Block(d, p, w, n - 1);
      EncodeDecodedBlocksStep(d, p, n, w, enc, dec);
    }
  }


  /** A vector written as its size_t count followed by its items. */
  function EncodeList<T>(xs: seq<T>, enc: T -> seq<byte>): seq<byte> {
    EncodeSizeT(|xs|) + EncodeBlocks(xs, enc)
  }

  /** A vector read back: the count, then that many w-byte items. */
  function DecodeList<T>(d: seq<byte>, p: nat, w: nat, dec: seq<byte> -> T): (r: Decoded<seq<T>>)
    ensures r.Ok? ==> p + SIZE_T_BYTES <= r.value.1 <= |d|
    ensures r.Ok? ==> r.value.1 == p + SIZE_T_BYTES + Offset(w, |r.value.0|)
    ensures r.Err? ==> r.error == ReadFailed
  {
    var n :- DecodeSizeT(d, p);
    DecodeBlocks(d, n.1, n.0, w, dec)
  }

  /** Reading back a list whose encoding is d[p..q]. */
  lemma ListRoundTrip<T>(xs: seq<T>, enc: T -> seq<byte>, dec: seq<byte> -> T, w: nat, d: seq<byte>, p: nat, q: nat)
    requires |xs| <= MAX_SIZE_T
    requires forall x :: |enc(x)| == w && dec(enc(x)) == x
    requires p <= q <= |d| && d[p..q] == EncodeList(xs, enc)
    ensures DecodeList(d, p, w, dec) == Ok((xs, q))
  {
    var m := p + SIZE_T_BYTES;
    assert d[p..m] == d[p..q][..SIZE_T_BYTES] == EncodeSizeT(|xs|);
    SizeTRoundTrip(|xs|);
    assert d[m..q] == d[p..q][SIZE_T_BYTES..] == EncodeBlocks(xs, enc);
    DecodeEncodeBlocks(xs, enc, dec, w, d, m, q);
  }

  lemma ListLength<T>(xs: seq<T>, enc: T -> seq<byte>, w: nat)
    requires forall x :: |enc(x)| == w
    ensures |EncodeList(xs, enc)| == SIZE_T_BYTES + w * |xs|
  {
    EncodeBlocksLength(xs, enc, w);
    OffsetIsProduct(w, |xs|);
  }

  /** A list read back re-encodes to the bytes it was read from. */
  lemma ListCanonical<T>(d: seq<byte>, p: nat, w: nat, enc: T -> seq<byte>, dec: seq<byte> -> T)
    requires forall b :: |b| == w ==> enc(dec(b)) == b
    requires DecodeList(d, p, w, dec).Ok?
    ensures var r := DecodeList(d, p, w, dec).value;
      |r.0| <= MAX_SIZE_T && EncodeList(r.0, enc) == d[p..r.1]
  {
    var n := DecodeSizeT(d, p).value;
    EncodeDecodedBlocks(d, n.1, n.0, w, enc, dec);
    SizeTCanonical(d[p..n.1]);
    var r := DecodeList(d, p, w, dec).value;
    assert d[p..r.1] == d[p..n.1] + d[n.1..r.1];
  }

  /** The two consecutive parts of an encoding held in d[p..q]. */
  lemma Split2(d: seq<byte>, p: nat, q: nat, a: seq<byte>, b: seq<byte>)
    requires p <= q <= |d| && d[p..q] == a + b
    ensures d[p..p + |a|] == a
    ensures d[p + |a|..q] == b
  {
    var e := d[p..q];
    assert e[..|a|] == a && e[|a|..] == b;
    assert d[p..p + |a|] == e[..|a|];
    assert d[p + |a|..q] == e[|a|..];
  }

  /** The three consecutive parts of an encoding held in d[p..q]. */
  lemma Split3(d: seq<byte>, p: nat, q: nat, a: seq<byte>, b: seq<byte>, c: seq<byte>)
    requires p <= q <= |d| && d[p..q] == a + b + c
    ensures d[p..p + |a|] == a
    ensures d[p + |a|..p + |a| + |b|] == b
    ensures d[p + |a| + |b|..q] == c
  {
    var j := p + |a| + |b|;
    assert j == p + |a + b|;
    Split2(d, p, q, a + b, c);
    Split2(d, p, j, a, b);
  }

  /** The four consecutive parts of an encoding held in d[p..q]. */
  lemma Split4(d: seq<byte>, p: nat, q: nat, a: seq<byte>, b: seq<byte>, c: seq<byte>, e: seq<byte>)
    requires p <= q <= |d| && d[p..q] == a + b + c + e
    ensures d[p..p + |a|] == a
    ensures d[p + |a|..p + |a| + |b|] == b
    ensures d[p + |a| + |b|..p + |a| + |b| + |c|] == c
    ensures d[p + |a| + |b| + |c|..q] == e
  {
    var m := p + |a| + |b| + |c|;
    assert m == p + |a + b + c|;
    Split2(d, p, q, a + b + c, e);
    Split3(d, p, m, a, b, c);
  }

  lemma Join2(d: seq<byte>, p: nat, m: nat, q: nat)
    requires p <= m <= q <= |d|
    ensures d[p..q] == d[p..m] + d[m..q]
  {
  }

  lemma Join3(d: seq<byte>, p: nat, p1: nat, p2: nat, q: nat)
    requires p <= p1 <= p2 <= q <= |d|
    ensures d[p..q] == d[p..p1] + d[p1..p2] + d[p2..q]
  {
  }

  lemma Join4(d: seq<byte>, p: nat, p1: nat, p2: nat, p3: nat, q: nat)
    requires p <= p1 <= p2 <= p3 <= q <= |d|
    ensures d[p..q] == d[p..p1] + d[p1..p2] + d[p2..p3] + d[p3..q]
  {
    Join2(d, p, p3, q);
    Join3(d, p, p1, p2, p3);
  }

  /** A std::string written as its size_t length followed by its bytes:
      ModelSnapshot's names and texture paths and ShaderSnapshot's paths. */
  function EncodeString(s: CppString): (r: seq<byte>)
    ensures |r| == SIZE_T_BYTES + |s|
  {
    EncodeSizeT(|s|) + StringBytes(s)
  }
}
