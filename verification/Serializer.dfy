/** protocol/Serializer.h: writing arguments into a byte buffer. Every buffer the source passes
    is an array whose length is a uint16_t constant. */
module Serializer {
  import opened Bytes
  import opened Codec
  import opened Tuple

  /** serializeType for one argument, at buffer + at. */
  method SerializeType(v: Value, buffer: array<Byte>, at: nat) returns (sz: UInt16)
    requires at + |Enc(v)| <= buffer.Length <= 0xFFFF
    modifies buffer
    ensures buffer[..] == Splice(old(buffer[..]), at, Enc(v))
    ensures sz == |Enc(v)|
    decreases v
  {
    assert Enc(v) == EncBody(v);
    match v
    case ScalarV(bytes) =>
      Memcpy(buffer, at, bytes);
      sz := Wrap16(|bytes|);
    case StrV(chars) =>
      var len := Wrap16(|chars|);
      Memcpy(buffer, at, LE(len, 8));
      Memcpy(buffer, at + 8, chars[..len]);
      SpliceTwice(old(buffer[..]), at, LE(len, 8), chars[..len]);
      sz := Wrap16(8 + len);
    case VecV(items) =>
      sz := SerializeVector(items, buffer, at);
  }

  /** serializeType for a vector: the count, then the elements at buffer + offset. */
  method SerializeVector(items: seq<Value>, buffer: array<Byte>, at: nat) returns (offset: UInt16)
    requires at + 8 + |EncAll(items)| <= buffer.Length <= 0xFFFF
    modifies buffer
    ensures buffer[..] == Splice(old(buffer[..]), at, LE(|items|, 8) + EncAll(items))
    ensures offset == 8 + |EncAll(items)|
    decreases items
  {
    ghost var count := LE(|items|, 8);
    Memcpy(buffer, at, LE(|items|, 8));
    offset := 8;
    assert EncAll(items[..0]) == [] && count + [] == count;
    for k := 0 to |items|
      invariant offset == 8 + |EncAll(items[..k])| <= 8 + |EncAll(items)|
      invariant buffer[..] == Splice(old(buffer[..]), at, count + EncAll(items[..k]))
    {
      PrefixStep(items, k);
      var n := SerializeType(items[k], buffer, at + offset);
      SpliceTwice(old(buffer[..]), at, count + EncAll(items[..k]), Enc(items[k]));
      assert count + EncAll(items[..k + 1]) == count + EncAll(items[..k]) + Enc(items[k]);
      offset := Wrap16(offset + n);
    }
    assert items[..|items|] == items;
  }

  /** One more item encoded: the encoding grows at its end and never exceeds the whole. */
  lemma {:induction false} PrefixStep(vs: seq<Value>, k: nat)
    requires k < |vs|
    ensures EncAll(vs[..k + 1]) == EncAll(vs[..k]) + Enc(vs[k])
    ensures |EncAll(vs[..k + 1])| <= |EncAll(vs)|
  {
    assert vs[..k + 1][..k] == vs[..k];
    PrefixLength(vs, k + 1);
  }

  lemma {:induction false} PrefixLength(vs: seq<Value>, k: nat)
    requires k <= |vs|
    ensures |EncAll(vs[..k])| <= |EncAll(vs)|
    decreases |vs|
  {
    if k < |vs| {
      var init := vs[..|vs| - 1];
      PrefixLength(init, k);
      assert init[..k] == vs[..k];
    } else {
      assert vs[..k] == vs;
    }
  }

  /** fnPerTuple over serializeTuple: the arguments in order, each at buffer + base + sz. */
  method SerializeTuple(vs: seq<Value>, buffer: array<Byte>, base: nat) returns (sz: UInt16)
    requires base + |EncAll(vs)| <= buffer.Length <= 0xFFFF
    modifies buffer
    ensures buffer[..] == Splice(old(buffer[..]), base, EncAll(vs))
    ensures sz == |EncAll(vs)|
  {
    sz := 0;
    assert EncAll(vs[..0]) == [];
    for k := 0 to |vs|
      invariant sz == |EncAll(vs[..k])| <= |EncAll(vs)|
      invariant buffer[..] == Splice(old(buffer[..]), base, EncAll(vs[..k]))
    {
      PrefixStep(vs, k);
      var n := SerializeType(vs[k], buffer, base + sz);
      SpliceTwice(old(buffer[..]), base, EncAll(vs[..k]), Enc(vs[k]));
      sz := Wrap16(sz + n);
    }
    assert vs[..|vs|] == vs;
  }

  /** The variadic serializeType: the head, then the rest at buffer + sz. It leaves the buffer
      exactly as SerializeTuple does. */
  method SerializeVariadic(vs: seq<Value>, buffer: array<Byte>, at: nat) returns (sz: UInt16)
    requires at + |EncAll(vs)| <= buffer.Length <= 0xFFFF
    modifies buffer
    ensures buffer[..] == Splice(old(buffer[..]), at, EncAll(vs))
    ensures sz == |EncAll(vs)|
    decreases |vs|
  {
    if vs == [] {
      return 0;
    }
    assert [vs[0]] + vs[1..] == vs;
    EncAllCons(vs[0], vs[1..]);
    sz := SerializeType(vs[0], buffer, at);
    var rest := SerializeVariadic(vs[1..], buffer, at + sz);
    SpliceTwice(old(buffer[..]), at, Enc(vs[0]), EncAll(vs[1..]));
    sz := Wrap16(sz + rest);
  }
}
