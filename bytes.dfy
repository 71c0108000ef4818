/** Bytes and the fixed-width unsigned integers of the binary snapshot format.
    The source writes `size_t` and `unsigned int` values by copying their
    memory, so the layout is the host's; this model fixes it to the
    little-endian layout of x86-64 and AArch64. */
module Bytes {

  type byte = b: int | 0 <= b < 256

  type U32 = n: int | 0 <= n < 0x1_0000_0000

  type U64 = n: int | 0 <= n < 0x1_0000_0000_0000_0000

  /** sizeof(size_t) on the 64-bit hosts the format is written on. */
  const SIZE_T_BYTES: nat := 8

  /** sizeof(unsigned int), sizeof(int) and sizeof(float). */
  const WORD_BYTES: nat := 4

  function Pow256(k: nat): (r: nat)
    ensures r > 0
  {
    if k == 0 then 1 else 256 * Pow256(k - 1)
  }

  lemma Pow256Widths()
    ensures Pow256(WORD_BYTES) == 0x1_0000_0000
    ensures Pow256(SIZE_T_BYTES) == 0x1_0000_0000_0000_0000
  {
    assert Pow256(2) == 0x1_0000;
    assert Pow256(4) == 0x1_0000_0000;
    assert Pow256(6) == 0x1_0000_0000_0000;
  }

  /** The k low-order bytes of n, least significant first: the memory image of
      an unsigned k-byte integer holding n modulo 256^k. */
  function LittleEndian(n: nat, k: nat): (r: seq<byte>)
    ensures |r| == k
  {
    if k == 0 then [] else [n % 256] + LittleEndian(n / 256, k - 1)
  }

  /** The unsigned integer whose memory image is b. */
  function FromLittleEndian(b: seq<byte>): (r: nat)
    ensures r < Pow256(|b|)
  {
    if b == [] then 0 else b[0] + 256 * FromLittleEndian(b[1..])
  }

  lemma {:induction false} LittleEndianRoundTrip(n: nat, k: nat)
    requires n < Pow256(k)
    ensures FromLittleEndian(LittleEndian(n, k)) == n
  {
    if k > 0 {
      var b := LittleEndian(n, k);
      assert b[1..] == LittleEndian(n / 256, k - 1);
      LittleEndianRoundTrip(n / 256, k - 1);
    }
  }

  /** Every memory image is the image of the integer it holds. */
  lemma {:induction false} FromLittleEndianRoundTrip(b: seq<byte>)
    ensures LittleEndian(FromLittleEndian(b), |b|) == b
  {
    if b != [] {
      var n := FromLittleEndian(b);
      assert n % 256 == b[0] && n / 256 == FromLittleEndian(b[1..]);
      FromLittleEndianRoundTrip(b[1..]);
    }
  }

  /** Writing a size_t: the count modulo 2^64, as 8 bytes. */
  function EncodeSizeT(n: nat): (r: seq<byte>)
    ensures |r| == SIZE_T_BYTES
  {
    LittleEndian(n, SIZE_T_BYTES)
  }

  /** Writing an unsigned int (also the bit pattern of a float or an int). */
  function EncodeU32(n: U32): (r: seq<byte>)
    ensures |r| == WORD_BYTES
  {
    LittleEndian(n, WORD_BYTES)
  }

  /** Reading an unsigned int from a block of WORD_BYTES bytes. */
  function DecodeU32(b: seq<byte>): U32 {
    FromLittleEndian(b) % 0x1_0000_0000
  }

  lemma SizeTRoundTrip(n: nat)
    requires n < 0x1_0000_0000_0000_0000
    ensures FromLittleEndian(EncodeSizeT(n)) == n
  {
    Pow256Widths();
    LittleEndianRoundTrip(n, SIZE_T_BYTES);
  }

  lemma U32RoundTrip(n: U32)
    ensures DecodeU32(EncodeU32(n)) == n
  {
    Pow256Widths();
    LittleEndianRoundTrip(n, WORD_BYTES);
  }

  lemma U32Canonical(b: seq<byte>)
    requires |b| == WORD_BYTES
    ensures EncodeU32(DecodeU32(b)) == b
  {
    Pow256Widths();
    FromLittleEndianRoundTrip(b);
  }

  lemma SizeTCanonical(b: seq<byte>)
    requires |b| == SIZE_T_BYTES
    ensures EncodeSizeT(FromLittleEndian(b)) == b
  {
    FromLittleEndianRoundTrip(b);
  }

  /** A run of unsigned ints (or float bit patterns) as its memory image. */
  function EncodeWords(ws: seq<U32>): (r: seq<byte>)
    ensures |r| == WORD_BYTES * |ws|
  {
    seq(WORD_BYTES * |ws|, j requires 0 <= j < WORD_BYTES * |ws| => EncodeU32(ws[j / WORD_BYTES])[j % WORD_BYTES])
  }

  /** The n unsigned ints whose memory image starts b. */
  function DecodeWords(b: seq<byte>, n: nat): (ws: seq<U32>)
    requires WORD_BYTES * n <= |b|
    ensures |ws| == n
  {
    seq(n, i requires 0 <= i < n => DecodeU32(b[WORD_BYTES * i..WORD_BYTES * i + WORD_BYTES]))
  }

  lemma WordsRoundTrip(ws: seq<U32>)
    ensures DecodeWords(EncodeWords(ws), |ws|) == ws
  {
    var b := EncodeWords(ws);
    forall i | 0 <= i < |ws| ensures DecodeWords(b, |ws|)[i] == ws[i] {
      var c := b[WORD_BYTES * i..WORD_BYTES * i + WORD_BYTES];
      forall k | 0 <= k < WORD_BYTES ensures c[k] == EncodeU32(ws[i])[k] {
        assert (WORD_BYTES * i + k) / WORD_BYTES == i && (WORD_BYTES * i + k) % WORD_BYTES == k;
      }
      assert c == EncodeU32(ws[i]);
      U32RoundTrip(ws[i]);
    }
  }

  lemma WordsCanonical(b: seq<byte>, n: nat)
    requires |b| == WORD_BYTES * n
    ensures EncodeWords(DecodeWords(b, n)) == b
  {
    var ws := DecodeWords(b, n);
    forall j | 0 <= j < |b| ensures EncodeWords(ws)[j] == b[j] {
      var i, k := j / WORD_BYTES, j % WORD_BYTES;
      assert WORD_BYTES * i + k == j;
      var c := b[WORD_BYTES * i..WORD_BYTES * i + WORD_BYTES];
      U32Canonical(c);
      assert EncodeU32(ws[i]) == c;
    }
  }

  /** i blocks of w bytes, as repeated addition: the offset of block i.
      (Keeping the product out of the formulas keeps the solver off
      nonlinear arithmetic.) */
  function Offset(w: nat, i: nat): nat {
    if i == 0 then 0 else Offset(w, i - 1) + w
  }

  lemma {:induction false} OffsetIsProduct(w: nat, i: nat)
    ensures Offset(w, i) == w * i
  {
    if i > 0 {
      OffsetIsProduct(w, i - 1);
      assert w * (i - 1) + w == w * i;
    }
  }

  lemma {:induction false} OffsetMono(w: nat, i: nat, n: nat)
    requires i < n
    ensures Offset(w, i) + w <= Offset(w, n)
  {
    if i < n - 1 {
      OffsetMono(w, i, n - 1);
    }
  }
}
