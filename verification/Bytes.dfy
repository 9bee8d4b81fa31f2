/** Bytes, machine integers and memcpy, as the C++ code uses them.

    Integers that the source stores in uint16_t or uint32_t are mathematical integers here;
    every place where the source could wrap applies Wrap16 or Wrap32 explicitly. */
module Bytes {
  type Byte = x: int | 0 <= x < 0x100
  type UInt16 = x: int | 0 <= x < 0x1_0000
  type UInt64 = x: int | 0 <= x < 0x1_0000_0000_0000_0000

  datatype Option<+T> = None | Some(value: T)

  /** The result of reading from a buffer: a value and the offset after it, or a read that
      leaves the buffer (undefined behaviour in the source). */
  datatype Read<+T> = OutOfBounds | Got(value: T, offset: nat)

  // Storing x in an unsigned integer: x modulo 2 to the width. The first branch spares the
  // verifier a division where nothing wraps.

  function Wrap16(x: nat): UInt16 {
    if x < 0x1_0000 then x else x % 0x1_0000
  }

  function Wrap32(x: nat): nat {
    if x < 0x1_0000_0000 then x else x % 0x1_0000_0000
  }

  /** 256 to the power w. */
  function Pow256(w: nat): nat {
    if w == 0 then 1 else 256 * Pow256(w - 1)
  }

  /** The w low-order bytes of n, least significant first. */
  function LE(n: nat, w: nat): (s: seq<Byte>)
    ensures |s| == w
    decreases n, w, 1
  {
    if w == 0 then [] else LEStep(n, w)
  }

  // The step is a function of its own, here and below, so that a mention of LE does not bring
  // its divisions into a proof.
  function LEStep(n: nat, w: nat): (s: seq<Byte>)
    requires w > 0
    ensures |s| == w
    decreases n, w, 0
  {
    [n % 256] + LE(n / 256, w - 1)
  }

  /** The n bytes of data from position at on (SliceIs). As with LE, the recursion keeps the
      definition out of proofs that only pass slices around. */
  function Slice(data: seq<Byte>, at: nat, n: nat): (s: seq<Byte>)
    requires at + n <= |data|
    ensures |s| == n
    decreases n, 1
  {
    if n == 0 then [] else SliceStep(data, at, n)
  }

  function SliceStep(data: seq<Byte>, at: nat, n: nat): (s: seq<Byte>)
    requires 0 < n && at + n <= |data|
    ensures |s| == n
    decreases n, 0
  {
    Slice(data, at, n - 1) + [data[at + n - 1]]
  }

  lemma {:induction false} SliceIs(data: seq<Byte>, at: nat, n: nat)
    requires at + n <= |data|
    ensures Slice(data, at, n) == data[at..at + n]
  {
    if n > 0 {
      SliceIs(data, at, n - 1);
      assert Slice(data, at, n) == SliceStep(data, at, n) == Slice(data, at, n - 1) + [data[at + n - 1]];
    }
  }

  lemma {:induction false} SliceConcat(data: seq<Byte>, at: nat, m: nat, n: nat)
    requires at + m + n <= |data|
    ensures Slice(data, at, m + n) == Slice(data, at, m) + Slice(data, at + m, n)
  {
    SliceIs(data, at, m + n);
    SliceIs(data, at, m);
    SliceIs(data, at + m, n);
  }

  /** The bytes x stand in data from position at on. */
  predicate Holds(data: seq<Byte>, at: nat, x: seq<Byte>) {
    at + |x| <= |data| && Slice(data, at, |x|) == x
  }

  lemma {:induction false} HoldsConcat(data: seq<Byte>, at: nat, x: seq<Byte>, y: seq<Byte>)
    ensures Holds(data, at, x + y) <==> Holds(data, at, x) && Holds(data, at + |x|, y)
  {
    if at + |x| + |y| <= |data| {
      SliceConcat(data, at, |x|, |y|);
      var s, t := Slice(data, at, |x|), Slice(data, at + |x|, |y|);
      assert (s + t)[..|x|] == s && (s + t)[|x|..] == t;
      assert (x + y)[..|x|] == x && (x + y)[|x|..] == y;
    }
  }

  /** The little-endian number in the w bytes of data from position at on. */
  function Number(data: seq<Byte>, at: nat, w: nat): nat
    requires at + w <= |data|
    decreases w, 1
  {
    if w == 0 then 0 else NumberStep(data, at, w)
  }

  function NumberStep(data: seq<Byte>, at: nat, w: nat): nat
    requires 0 < w && at + w <= |data|
    decreases w, 0
  {
    data[at] + 256 * Number(data, at + 1, w - 1)
  }

  /** Reading back an integer that was written with LE. */
  lemma {:induction false} ReadNumber(data: seq<Byte>, at: nat, n: nat, w: nat)
    requires n < Pow256(w) && Holds(data, at, LE(n, w))
    ensures Number(data, at, w) == n
    decreases w
  {
    if w > 0 {
      var rest := LE(n / 256, w - 1);
      assert LE(n, w) == LEStep(n, w) == [n % 256] + rest;
      HoldsConcat(data, at, [n % 256], rest);
      assert Slice(data, at, 1) == SliceStep(data, at, 1) == [data[at]];
      ReadNumber(data, at + 1, n / 256, w - 1);
    }
  }

  lemma {:induction false} Pow256Of2And8()
    ensures Pow256(2) == 0x1_0000
    ensures Pow256(8) == 0x1_0000_0000_0000_0000
  {
    assert Pow256(4) == 256 * (256 * Pow256(2));
    assert Pow256(6) == 256 * (256 * Pow256(4));
    assert Pow256(8) == 256 * (256 * Pow256(6));
  }

  /** A uint16_t, a uint32_t and a uint64_t read at position at. */
  function U16At(data: seq<Byte>, at: nat): UInt16
    requires at + 2 <= |data|
  {
    data[at] as int + 256 * data[at + 1] as int
  }

  function U32At(data: seq<Byte>, at: nat): nat
    requires at + 4 <= |data|
  {
    U16At(data, at) + 0x1_0000 * U16At(data, at + 2)
  }

  function U64At(data: seq<Byte>, at: nat): UInt64
    requires at + 8 <= |data|
  {
    U32At(data, at) + 0x1_0000_0000 * U32At(data, at + 4)
  }

  lemma {:induction false} NumberInTwo(data: seq<Byte>, at: nat, w: nat)
    requires w >= 2 && at + w <= |data|
    ensures Number(data, at, w) == U16At(data, at) + 0x1_0000 * Number(data, at + 2, w - 2)
  {
    assert Number(data, at, w) == NumberStep(data, at, w);
    assert Number(data, at + 1, w - 1) == NumberStep(data, at + 1, w - 1);
  }

  lemma {:induction false} ReadU16(data: seq<Byte>, at: nat, n: UInt16)
    requires Holds(data, at, LE(n, 2))
    ensures U16At(data, at) == n
  {
    Pow256Of2And8();
    ReadNumber(data, at, n, 2);
    NumberInTwo(data, at, 2);
  }

  lemma {:induction false} ReadU64(data: seq<Byte>, at: nat, n: UInt64)
    requires Holds(data, at, LE(n, 8))
    ensures U64At(data, at) == n
  {
    Pow256Of2And8();
    ReadNumber(data, at, n, 8);
    NumberInTwo(data, at, 8);
    NumberInTwo(data, at + 2, 6);
    NumberInTwo(data, at + 4, 4);
    NumberInTwo(data, at + 6, 2);
  }

  /** Writing an integer that was read gives the bytes it was read from. */
  lemma {:induction false} WriteNumber(data: seq<Byte>, at: nat, w: nat)
    requires at + w <= |data|
    ensures LE(Number(data, at, w), w) == Slice(data, at, w)
    decreases w
  {
    if w > 0 {
      WriteNumber(data, at + 1, w - 1);
      SliceConcat(data, at, 1, w - 1);
      assert Slice(data, at, 1) == SliceStep(data, at, 1) == [data[at]];
      assert Number(data, at, w) == NumberStep(data, at, w);
      assert LE(Number(data, at, w), w) == LEStep(Number(data, at, w), w);
    }
  }

  lemma {:induction false} WriteU16(data: seq<Byte>, at: nat)
    requires at + 2 <= |data|
    ensures LE(U16At(data, at), 2) == Slice(data, at, 2)
  {
    NumberInTwo(data, at, 2);
    WriteNumber(data, at, 2);
  }

  lemma {:induction false} WriteU64(data: seq<Byte>, at: nat)
    requires at + 8 <= |data|
    ensures LE(U64At(data, at), 8) == Slice(data, at, 8)
  {
    NumberInTwo(data, at, 8);
    NumberInTwo(data, at + 2, 6);
    NumberInTwo(data, at + 4, 4);
    NumberInTwo(data, at + 6, 2);
    WriteNumber(data, at, 8);
  }

  /** s with the bytes of src written over it from position at on (SpliceIs). */
  function Splice(s: seq<Byte>, at: nat, src: seq<Byte>): (r: seq<Byte>)
    requires at + |src| <= |s|
    ensures |r| == |s|
    decreases |src|, 1
  {
    if src == [] then s else SpliceStep(s, at, src)
  }

  function SpliceStep(s: seq<Byte>, at: nat, src: seq<Byte>): (r: seq<Byte>)
    requires src != [] && at + |src| <= |s|
    ensures |r| == |s|
    decreases |src|, 0
  {
    var n := |src| - 1;
    Splice(s, at, src[..n])[at + n := src[n]]
  }

  lemma {:induction false} SpliceIs(s: seq<Byte>, at: nat, src: seq<Byte>)
    requires at + |src| <= |s|
    ensures Splice(s, at, src) == s[..at] + src + s[at + |src|..]
    decreases |src|
  {
    if src != [] {
      var n := |src| - 1;
      SpliceIs(s, at, src[..n]);
      assert src == src[..n] + [src[n]];
      assert s[at + n..] == [s[at + n]] + s[at + n + 1..];
      assert Splice(s, at, src) == SpliceStep(s, at, src);
    }
  }

  /** Writing two adjacent pieces is writing their concatenation. */
  lemma {:induction false} SpliceTwice(s: seq<Byte>, at: nat, x: seq<Byte>, y: seq<Byte>)
    requires at + |x| + |y| <= |s|
    ensures Splice(Splice(s, at, x), at + |x|, y) == Splice(s, at, x + y)
  {
    SpliceIs(s, at, x);
    SpliceIs(Splice(s, at, x), at + |x|, y);
    SpliceIs(s, at, x + y);
  }

  /** std::memcpy into a buffer. */
  method Memcpy(buffer: array<Byte>, at: nat, src: seq<Byte>)
    requires at + |src| <= buffer.Length
    modifies buffer
    ensures buffer[..] == Splice(old(buffer[..]), at, src)
  {
    SpliceIs(buffer[..], at, src);
    forall k | 0 <= k < |src| {
      buffer[at + k] := src[k];
    }
  }
}
