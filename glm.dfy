/** The glm value types the core copies. Floating-point values are never
    computed with, only copied, so a `float` is kept as its 32-bit IEEE-754
    bit pattern. */
module Glm {
  import opened Bytes

  datatype Float = F32(bits: U32)

  /** 0.0f and 1.0f. */
  const ZERO: Float := F32(0)
  const ONE: Float := F32(0x3F80_0000)

  type Int32 = i: int | -0x8000_0000 <= i < 0x8000_0000

  /** The two's-complement bit pattern of an int, and back. */
  function Int32Bits(i: Int32): U32 {
    if i < 0 then i + 0x1_0000_0000 else i
  }

  function Int32OfBits(w: U32): Int32 {
    if w >= 0x8000_0000 then w - 0x1_0000_0000 else w
  }

  lemma Int32BitsRoundTrip(i: Int32)
    ensures Int32OfBits(Int32Bits(i)) == i
  {
  }

  lemma Int32BitsOfBits(w: U32)
    ensures Int32Bits(Int32OfBits(w)) == w
  {
  }

  /** The conversion of a 64-bit JSON integer to a C++ int (modulo 2^32). */
  function WrapInt32(i: int): (r: Int32)
    ensures (r - i) % 0x1_0000_0000 == 0
    ensures -0x8000_0000 <= i < 0x8000_0000 ==> r == i
  {
    Int32OfBits(i % 0x1_0000_0000)
  }

  datatype Vec2 = Vec2(x: Float, y: Float)
  datatype Vec3 = Vec3(x: Float, y: Float, z: Float)
  datatype Vec4 = Vec4(x: Float, y: Float, z: Float, w: Float)

  /** A glm matrix: m[i] is column i and m[i][j] its j-th entry, so that
      m[i][j] is written `mat[i][j]` in the source. */
  type Matrix = seq<seq<Float>>

  predicate IsMatrix(m: Matrix, n: nat) {
    |m| == n && forall i :: 0 <= i < n ==> |m[i]| == n
  }

  /** glm::matN(1.0f). */
  function Identity(n: nat): (m: Matrix)
    ensures IsMatrix(m, n)
  {
    seq(n, i => seq(n, j => if i == j then ONE else ZERO))
  }

  /** `m[i][k] = x`. */
  function SetEntry(m: Matrix, n: nat, i: nat, k: nat, x: Float): (r: Matrix)
    requires IsMatrix(m, n) && i < n && k < n
    ensures IsMatrix(r, n) && r[i][k] == x
    ensures forall c, e :: 0 <= c < n && 0 <= e < n && (c != i || e != k) ==> r[c][e] == m[c][e]
  {
    m[i := m[i][k := x]]
  }

  /** Entry [i][k] of an n-by-n matrix laid out column after column sits at
      Offset(n, i) + k, that is i * n + k. */
  lemma IndexInRange(n: nat, i: nat, k: nat)
    requires i < n && k < n
    ensures Offset(n, i) + k < Offset(n, n)
  {
    OffsetMono(n, i, n);
  }

  /** The columns of m one after the other. */
  function Concat(m: Matrix): seq<Float> {
    if m == [] then [] else Concat(m[..|m| - 1]) + m[|m| - 1]
  }

  lemma {:induction false} ConcatAt(m: Matrix, n: nat, i: nat, k: nat)
    requires forall c :: 0 <= c < |m| ==> |m[c]| == n
    requires i < |m| && k < n
    ensures |Concat(m)| == Offset(n, |m|)
    ensures Offset(n, i) + k < |Concat(m)| && Concat(m)[Offset(n, i) + k] == m[i][k]
  {
    var init := m[..|m| - 1];
    OffsetMono(n, i, |m|);
    if i < |m| - 1 {
      ConcatAt(init, n, i, k);
    } else if |m| > 1 {
      ConcatAt(init, n, 0, 0);
    }
  }

  /** The n * n entries of m with m[i][k] at i * n + k, the order of the
      source's `for i { for k { push_back(mat[i][k]) } }`. */
  function Flatten(m: Matrix, n: nat): (xs: seq<Float>)
    requires IsMatrix(m, n)
    ensures |xs| == Offset(n, n)
    ensures forall i, k :: 0 <= i < n && 0 <= k < n ==> FlatAt(xs, m, n, i, k)
  {
    ConcatEntries(m, n);
    Concat(m)
  }

  lemma ConcatEntries(m: Matrix, n: nat)
    requires IsMatrix(m, n)
    ensures |Concat(m)| == Offset(n, n)
    ensures forall i, k :: 0 <= i < n && 0 <= k < n ==> FlatAt(Concat(m), m, n, i, k)
  {
    if n > 0 {
      ConcatAt(m, n, 0, 0);
    }
    forall i, k | 0 <= i < n && 0 <= k < n
      ensures FlatAt(Concat(m), m, n, i, k)
    {
      ConcatAt(m, n, i, k);
    }
  }

  /** Entry [i][k] of m sits at i * n + k in xs. */
  predicate FlatAt(xs: seq<Float>, m: Matrix, n: nat, i: nat, k: nat)
    requires IsMatrix(m, n) && i < n && k < n
  {
    Offset(n, i) + k < |xs| && xs[Offset(n, i) + k] == m[i][k]
  }

  /** The matrix whose entry [i][k] is xs[i * n + k], the order of the
      source's `for i { for k { mat[i][k] = v[i * n + k] } }`
      (UnflattenAt). */
  function Unflatten(xs: seq<Float>, n: nat): (m: Matrix)
    requires |xs| == Offset(n, n)
    ensures IsMatrix(m, n)
    ensures forall i :: 0 <= i < n ==> m[i] == Column(xs, n, i)
  {
    seq(n, i requires 0 <= i < n => Column(xs, n, i))
  }

  /** Column i of Unflatten(xs, n): the n entries from i * n on. */
  function Column(xs: seq<Float>, n: nat, i: nat): (c: seq<Float>)
    requires |xs| == Offset(n, n) && i < n
    ensures |c| == n
  {
    OffsetMono(n, i, n);
    xs[Offset(n, i)..Offset(n, i) + n]
  }

  lemma UnflattenAt(xs: seq<Float>, n: nat, i: nat, k: nat)
    requires |xs| == Offset(n, n) && i < n && k < n
    ensures Offset(n, i) + k < |xs| && Unflatten(xs, n)[i][k] == xs[Offset(n, i) + k]
  {
    OffsetMono(n, i, n);
    assert Unflatten(xs, n)[i] == Column(xs, n, i);
  }

  lemma UnflattenFlatten(m: Matrix, n: nat)
    requires IsMatrix(m, n)
    ensures Unflatten(Flatten(m, n), n) == m
  {
    var xs := Flatten(m, n);
    var r := Unflatten(xs, n);
    forall i | 0 <= i < n ensures r[i] == m[i] {
      forall k | 0 <= k < n ensures r[i][k] == m[i][k] {
        assert FlatAt(xs, m, n, i, k);
        UnflattenAt(xs, n, i, k);
      }
    }
  }
}
