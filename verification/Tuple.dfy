/** Several arguments one after the other: the left-to-right fold that serializeTuple and
    deserializeTuple form, and the head-first recursion of the variadic overloads. */
module Tuple {
  import opened Bytes
  import opened Codec

  predicate Typed(ts: seq<Type>, vs: seq<Value>) {
    |ts| == |vs| && forall j | 0 <= j < |vs| :: HasType(ts[j], vs[j])
  }

  predicate RepresentableTuple(ts: seq<Type>, vs: seq<Value>)
    requires Typed(ts, vs)
  {
    forall j | 0 <= j < |vs| :: Representable(ts[j], vs[j])
  }

  // The fold writes EncAll(vs): the types do not matter to the encoder.

  /** The fold of deserializeTuple over the argument types. */
  function DecTuple(ts: seq<Type>, data: seq<Byte>, offset: nat): Read<seq<Value>> {
    if ts == [] then Got([], offset)
    else
      match DecTuple(ts[..|ts| - 1], data, offset)
      case OutOfBounds => OutOfBounds
      case Got(vs, next) =>
        match Dec(ts[|ts| - 1], data, next)
        case OutOfBounds => OutOfBounds
        case Got(v, end) => Got(vs + [v], end)
  }

  /** The variadic serializeType: the first argument, then the rest. */
  function EncVariadic(vs: seq<Value>): seq<Byte> {
    if vs == [] then [] else Enc(vs[0]) + EncVariadic(vs[1..])
  }

  /** deserializeTypeVariadic: the first argument, then the rest from a copy of the offset. */
  function DecVariadic(ts: seq<Type>, data: seq<Byte>, offset: nat): Option<seq<Value>>
    requires ts != []
  {
    match Dec(ts[0], data, offset)
    case OutOfBounds => None
    case Got(head, next) =>
      if |ts| == 1 then Some([head])
      else
        match DecVariadic(ts[1..], data, next)
        case None => None
        case Some(tail) => Some([head] + tail)
  }

  /** Tuple round trip: a representable tuple comes back whole, and decoding consumes exactly
      the bytes that encoding produced. */
  lemma {:induction false} TupleRoundTrip(ts: seq<Type>, vs: seq<Value>, data: seq<Byte>, at: nat)
    requires Typed(ts, vs) && RepresentableTuple(ts, vs)
    requires Holds(data, at, EncAll(vs)) && at + |EncAll(vs)| <= 0xFFFF
    ensures DecTuple(ts, data, at) == Got(vs, at + |EncAll(vs)|)
    decreases |vs|
  {
    if vs != [] {
      var n := |vs| - 1;
      SplitLast(vs, data, at);
      TupleRoundTrip(ts[..n], vs[..n], data, at);
      RoundTrip(ts[n], vs[n], data, at + |EncAll(vs[..n])|);
      DecTupleSnoc(ts, data, at, vs[..n], at + |EncAll(vs[..n])|, vs[n], at + |EncAll(vs)|);
      InitLast(vs);
    }
  }

  lemma {:induction false} DecTupleSnoc(ts: seq<Type>, data: seq<Byte>, at: nat,
      init: seq<Value>, mid: nat, last: Value, end: nat)
    requires ts != [] && DecTuple(ts[..|ts| - 1], data, at) == Got(init, mid)
    requires Dec(ts[|ts| - 1], data, mid) == Got(last, end)
    ensures DecTuple(ts, data, at) == Got(init + [last], end)
  {
  }

  /** A tuple with an argument that is not representable comes back as another tuple. */
  lemma {:induction false} AlteredTuple(ts: seq<Type>, vs: seq<Value>, data: seq<Byte>, at: nat)
    requires Typed(ts, vs) && !RepresentableTuple(ts, vs)
    requires Holds(data, at, EncAll(vs)) && at + |EncAll(vs)| <= 0xFFFF
    ensures DecTuple(ts, data, at).Got? ==> DecTuple(ts, data, at).value != vs
    decreases |vs|
  {
    var n := |vs| - 1;
    SplitLast(vs, data, at);
    InitLast(vs);
    if RepresentableTuple(ts[..n], vs[..n]) {
      TupleRoundTrip(ts[..n], vs[..n], data, at);
      AlteredIfNotRepresentable(ts[n], vs[n], data, at + |EncAll(vs[..n])|);
    } else {
      AlteredTuple(ts[..n], vs[..n], data, at);
    }
    AlteredAtLast(ts, vs, data, at);
  }

  lemma {:induction false} AlteredAtLast(ts: seq<Type>, vs: seq<Value>, data: seq<Byte>, at: nat)
    requires vs != [] && |ts| == |vs|
    requires var n := |vs| - 1;
      var r := DecTuple(ts[..n], data, at);
      r.Got? && r.value == vs[..n] ==> var s := Dec(ts[n], data, r.offset); s.Got? ==> s.value != vs[n]
    ensures DecTuple(ts, data, at).Got? ==> DecTuple(ts, data, at).value != vs
  {
    var n := |vs| - 1;
    var s := DecTuple(ts, data, at);
    if s.Got? {
      var r := DecTuple(ts[..n], data, at);
      assert s.value == r.value + [Dec(ts[n], data, r.offset).value];
      assert s.value[|r.value|] == Dec(ts[n], data, r.offset).value && s.value[..|r.value|] == r.value;
    }
  }

  /** Exactly which tuples come back, at any offset and with any bytes around them. */
  lemma {:induction false} TupleRoundTripIff(ts: seq<Type>, vs: seq<Value>, data: seq<Byte>, at: nat)
    requires Typed(ts, vs)
    requires Holds(data, at, EncAll(vs)) && at + |EncAll(vs)| <= 0xFFFF
    ensures DecTuple(ts, data, at) == Got(vs, at + |EncAll(vs)|) <==> RepresentableTuple(ts, vs)
  {
    if RepresentableTuple(ts, vs) {
      TupleRoundTrip(ts, vs, data, at);
    } else {
      AlteredTuple(ts, vs, data, at);
    }
  }

  /** A tuple whose arguments together fit a slot survives the round trip. */
  lemma {:induction false} TupleFits(ts: seq<Type>, vs: seq<Value>)
    requires Typed(ts, vs) && FullSizeAll(vs) <= MAX_SAFE_SLOT
    ensures RepresentableTuple(ts, vs) && |EncAll(vs)| == FullSizeAll(vs)
    decreases |vs|
  {
    if vs != [] {
      var n := |vs| - 1;
      TupleFits(ts[..n], vs[..n]);
      FitsIsRepresentable(ts[n], vs[n]);
    }
  }

  // ----- the two shapes agree -----

  lemma {:induction false} EncAllCons(v: Value, vs: seq<Value>)
    ensures EncAll([v] + vs) == Enc(v) + EncAll(vs)
    decreases |vs|
  {
    if vs == [] {
      assert ([v] + vs)[..0] == [];
      assert EncAll([v] + vs) == EncAll([]) + Enc(v) == Enc(v);
    } else {
      var n := |vs| - 1;
      EncAllCons(v, vs[..n]);
      assert ([v] + vs)[..n + 1] == [v] + vs[..n];
      assert EncAll([v] + vs) == EncAll([v] + vs[..n]) + Enc(vs[n]);
    }
  }

  /** The variadic overload writes the same bytes as the fold. */
  lemma {:induction false} EncShapesAgree(vs: seq<Value>)
    ensures EncVariadic(vs) == EncAll(vs)
    decreases |vs|
  {
    if vs != [] {
      EncShapesAgree(vs[1..]);
      EncAllCons(vs[0], vs[1..]);
      assert [vs[0]] + vs[1..] == vs;
    }
  }

  /** The fold, taken apart at its first argument. */
  function DecCons(t: Type, ts: seq<Type>, data: seq<Byte>, offset: nat): Read<seq<Value>> {
    match Dec(t, data, offset)
    case OutOfBounds => OutOfBounds
    case Got(head, next) =>
      match DecTuple(ts, data, next)
      case OutOfBounds => OutOfBounds
      case Got(tail, end) => Got([head] + tail, end)
  }

  lemma {:induction false} DecTupleCons(t: Type, ts: seq<Type>, data: seq<Byte>, at: nat)
    ensures DecTuple([t] + ts, data, at) == DecCons(t, ts, data, at)
    decreases |ts|
  {
    if ts == [] {
      assert ([t] + ts)[..0] == [];
      assert [t] + ts == [t];
      assert DecTuple([], data, at) == Got([], at);
      if Dec(t, data, at).Got? {
        var head := Dec(t, data, at).value;
        assert [] + [head] == [head] == [head] + [];
      }
    } else {
      var n := |ts| - 1;
      DecTupleCons(t, ts[..n], data, at);
      assert ([t] + ts)[..n + 1] == [t] + ts[..n] && ([t] + ts)[n + 1] == ts[n];
      if Dec(t, data, at).Got? {
        var head, next := Dec(t, data, at).value, Dec(t, data, at).offset;
        if DecTuple(ts, data, next).Got? {
          var init, whole := DecTuple(ts[..n], data, next).value, DecTuple(ts, data, next).value;
          assert [head] + whole == ([head] + init) + [whole[|init|]];
        }
      }
    }
  }

  /** The variadic decoder returns the same tuple as the fold, and fails when it fails. */
  lemma {:induction false} DecShapesAgree(ts: seq<Type>, data: seq<Byte>, at: nat)
    requires ts != []
    ensures DecVariadic(ts, data, at) ==
      match DecTuple(ts, data, at) { case OutOfBounds => None case Got(vs, _) => Some(vs) }
    decreases |ts|
  {
    assert [ts[0]] + ts[1..] == ts;
    DecTupleCons(ts[0], ts[1..], data, at);
    if Dec(ts[0], data, at).Got? {
      var head, next := Dec(ts[0], data, at).value, Dec(ts[0], data, at).offset;
      if |ts| > 1 {
        DecShapesAgree(ts[1..], data, next);
      } else {
        assert ts[1..] == [] && [head] + [] == [head];
      }
    }
  }
}
