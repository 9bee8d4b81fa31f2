/** protocol/Deserializer.h: reading arguments back. A read that would leave the buffer, which
    is undefined in the source, ends with OutOfBounds. */
module Deserializer {
  import opened Bytes
  import opened Codec
  import opened Tuple

  /** deserializeType: reads at data + offset and advances the 16-bit offset. */
  method DeserializeType(t: Type, data: array<Byte>, offset: nat) returns (r: Read<Value>)
    ensures r == Dec(t, data[..], offset)
    decreases t
  {
    assert Dec(t, data[..], offset) == DecBody(t, data[..], offset);
    match t
    case Scalar(w) =>
      if offset + w > data.Length {
        return OutOfBounds;
      }
      SliceIs(data[..], offset, w);
      r := Got(ScalarV(data[offset..offset + w]), Wrap16(offset + w));
    case Str =>
      var header := ReadHeader(data, offset);
      if header.OutOfBounds? {
        return OutOfBounds;
      }
      var len, body := header.value, header.offset;
      if len == 0 || len > 0xFFFF {
        return Got(StrV([]), body);
      }
      if body + len > data.Length {
        return OutOfBounds;
      }
      SliceIs(data[..], body, len);
      r := Got(StrV(data[body..body + len]), Wrap16(body + len));
    case Vec(e) =>
      var header := ReadHeader(data, offset);
      if header.OutOfBounds? {
        return OutOfBounds;
      }
      var n, next := header.value, header.offset;
      if n == 0 || n > 0xFFFF / SizeOf(e) {
        return Got(VecV([]), next);
      }
      ghost var body := next;
      var items := [];
      for k := 0 to n
        invariant DecMany(e, k, data[..], body) == Got(items, next)
      {
        var item := DeserializeType(e, data, next);
        if item.OutOfBounds? {
          StaysOutOfBounds(e, k + 1, n, data[..], body);
          return OutOfBounds;
        }
        items := items + [item.value];
        next := item.offset;
      }
      r := Got(VecV(items), next);
  }

  lemma {:induction false} StaysOutOfBounds(t: Type, k: nat, n: nat, data: seq<Byte>, at: nat)
    requires k <= n && DecMany(t, k, data, at).OutOfBounds?
    ensures DecMany(t, n, data, at).OutOfBounds?
    decreases n
  {
    if k < n {
      StaysOutOfBounds(t, k, n - 1, data, at);
    }
  }

  /** deserializeType for the 64-bit length in front of strings and vectors. */
  method ReadHeader(data: array<Byte>, offset: nat) returns (r: Read<UInt64>)
    ensures r == if offset + 8 > data.Length then OutOfBounds
      else Got(U64At(data[..], offset), Wrap16(offset + 8))
  {
    if offset + 8 > data.Length {
      return OutOfBounds;
    }
    r := Got(U64At(data[..], offset), Wrap16(offset + 8));
  }

  /** fnPerTuple over deserializeTuple: fills the arguments in order. */
  method DeserializeTuple(ts: seq<Type>, data: array<Byte>, offset: nat) returns (r: Read<seq<Value>>)
    ensures r == DecTuple(ts, data[..], offset)
  {
    var vs, next := [], offset;
    for k := 0 to |ts|
      invariant DecTuple(ts[..k], data[..], offset) == Got(vs, next)
    {
      assert ts[..k + 1][..k] == ts[..k];
      var v := DeserializeType(ts[k], data, next);
      if v.OutOfBounds? {
        TupleStaysOutOfBounds(ts, k + 1, data[..], offset);
        return OutOfBounds;
      }
      vs := vs + [v.value];
      next := v.offset;
    }
    assert ts[..|ts|] == ts;
    r := Got(vs, next);
  }

  lemma {:induction false} TupleStaysOutOfBounds(ts: seq<Type>, k: nat, data: seq<Byte>, at: nat)
    requires k <= |ts| && DecTuple(ts[..k], data, at).OutOfBounds?
    ensures DecTuple(ts, data, at).OutOfBounds?
    decreases |ts|
  {
    if k < |ts| {
      var init := ts[..|ts| - 1];
      assert init[..k] == ts[..k];
      TupleStaysOutOfBounds(init, k, data, at);
    } else {
      assert ts[..k] == ts;
    }
  }
}
