/** The wire format of one argument (protocol/Serializer.h, protocol/Deserializer.h). C++
    selects the code for an argument by its static type; here that type is the value `t`. */
module Codec {
  import opened Bytes

  // sizeof(std::string) and sizeof(std::vector<T>) on a 64-bit platform (libstdc++). The
  // decoder's guard on vector lengths divides by them.
  const SIZEOF_STRING: nat := 32
  const SIZEOF_VECTOR: nat := 24

  type Width = w: nat | 0 < w witness 1

  datatype Type = Scalar(width: Width) | Str | Vec(elem: Type)

  /** A trivially copyable value is its object representation. */
  datatype Value = ScalarV(bytes: seq<Byte>) | StrV(chars: seq<Byte>) | VecV(items: seq<Value>)

  predicate HasType(t: Type, v: Value)
    decreases t, 0
  {
    match t
    case Scalar(w) => v.ScalarV? && |v.bytes| == w
    case Str => v.StrV?
    case Vec(e) => v.VecV? && AllHaveType(e, v.items)
  }

  predicate AllHaveType(t: Type, vs: seq<Value>)
    decreases t, 1
  {
    forall j | 0 <= j < |vs| :: HasType(t, vs[j])
  }

  function SizeOf(t: Type): Width {
    match t
    case Scalar(w) => w
    case Str => SIZEOF_STRING
    case Vec(_) => SIZEOF_VECTOR
  }

  // ----- encoding -----

  // Enc and Dec only pass on to EncBody and DecBody: one more level of recursion keeps the
  // cases out of proofs about sequences of values.

  /** The bytes serializeType writes. A string's length is cut to 16 bits before it is written. */
  function Enc(v: Value): seq<Byte>
    decreases v, 1
  {
    EncBody(v)
  }

  function EncBody(v: Value): seq<Byte>
    decreases v, 0
  {
    match v
    case ScalarV(bytes) => bytes
    case StrV(chars) => var len := Wrap16(|chars|); LE(len, 8) + chars[..len]
    case VecV(items) => LE(|items|, 8) + EncAll(items)
  }

  function EncAll(vs: seq<Value>): seq<Byte>
    decreases vs, 2
  {
    if vs == [] then [] else EncAll(vs[..|vs| - 1]) + Enc(vs[|vs| - 1])
  }

  /** The size the value would need if no length were cut. */
  function FullSize(v: Value): nat {
    match v
    case ScalarV(bytes) => |bytes|
    case StrV(chars) => 8 + |chars|
    case VecV(items) => 8 + FullSizeAll(items)
  }

  function FullSizeAll(vs: seq<Value>): nat {
    if vs == [] then 0 else FullSizeAll(vs[..|vs| - 1]) + FullSize(vs[|vs| - 1])
  }

  /** No string is cut by the encoder and no vector is refused by the decoder's guard. */
  predicate Representable(t: Type, v: Value)
    requires HasType(t, v)
    decreases t, 0
  {
    match t
    case Scalar(_) => true
    case Str => |v.chars| <= 0xFFFF
    case Vec(e) => RepresentableVector(e, v.items)
  }

  predicate RepresentableVector(e: Type, items: seq<Value>)
    requires AllHaveType(e, items)
    decreases e, 2
  {
    |items| <= 0xFFFF / SizeOf(e) && AllRepresentable(e, items)
  }

  predicate AllRepresentable(t: Type, vs: seq<Value>)
    requires AllHaveType(t, vs)
    decreases t, 1
  {
    forall j | 0 <= j < |vs| :: Representable(t, vs[j])
  }

  // ----- decoding -----

  /** What deserializeType returns for the bytes of `data` from `offset` on. */
  function Dec(t: Type, data: seq<Byte>, offset: nat): Read<Value>
    decreases t, 1, 0
  {
    DecBody(t, data, offset)
  }

  function DecBody(t: Type, data: seq<Byte>, offset: nat): Read<Value>
    decreases t, 0, 0
  {
    match t
    case Scalar(w) =>
      if offset + w > |data| then OutOfBounds
      else Got(ScalarV(Slice(data, offset, w)), Wrap16(offset + w))
    case Str =>
      if offset + 8 > |data| then OutOfBounds
      else
        var len := U64At(data, offset);
        var body := Wrap16(offset + 8);
        if len == 0 || len > 0xFFFF then Got(StrV([]), body)
        else if body + len > |data| then OutOfBounds
        else Got(StrV(Slice(data, body, len)), Wrap16(body + len))
    case Vec(e) => DecVector(e, data, offset)
  }

  function DecVector(e: Type, data: seq<Byte>, offset: nat): Read<Value>
    decreases e, 3, 0
  {
    if offset + 8 > |data| then OutOfBounds
    else
      var n := U64At(data, offset);
      var body := Wrap16(offset + 8);
      if n == 0 || n > 0xFFFF / SizeOf(e) then Got(VecV([]), body)
      else
        match DecMany(e, n, data, body)
        case OutOfBounds => OutOfBounds
        case Got(items, end) => Got(VecV(items), end)
  }

  /** n elements, one after the other. */
  function DecMany(t: Type, n: nat, data: seq<Byte>, offset: nat): Read<seq<Value>>
    decreases t, 2, n
  {
    if n == 0 then Got([], offset)
    else
      match DecMany(t, n - 1, data, offset)
      case OutOfBounds => OutOfBounds
      case Got(items, next) =>
        match Dec(t, data, next)
        case OutOfBounds => OutOfBounds
        case Got(item, end) => Got(items + [item], end)
  }

  // ----- round trip -----

  lemma {:induction false} EncNonEmpty(t: Type, v: Value)
    requires HasType(t, v)
    ensures |Enc(v)| >= 1
  {
  }

  lemma {:induction false} EncAllLength(t: Type, vs: seq<Value>)
    requires AllHaveType(t, vs)
    ensures |EncAll(vs)| >= |vs|
  {
    if vs != [] {
      EncAllLength(t, vs[..|vs| - 1]);
      EncNonEmpty(t, vs[|vs| - 1]);
    }
  }

  lemma {:induction false} SplitLast(vs: seq<Value>, data: seq<Byte>, at: nat)
    requires vs != [] && Holds(data, at, EncAll(vs))
    ensures var init, last := EncAll(vs[..|vs| - 1]), Enc(vs[|vs| - 1]);
      Holds(data, at, init) && Holds(data, at + |init|, last) && |EncAll(vs)| == |init| + |last|
  {
    HoldsConcat(data, at, EncAll(vs[..|vs| - 1]), Enc(vs[|vs| - 1]));
  }

  /** Codec round trip, at any offset and with any bytes around the value: as long as no 16-bit
      offset would pass 65535, decoding a representable value returns it and advances by exactly
      the encoded size. */
  lemma {:induction false} RoundTrip(t: Type, v: Value, data: seq<Byte>, at: nat)
    requires HasType(t, v) && Representable(t, v)
    requires Holds(data, at, Enc(v)) && at + |Enc(v)| <= 0xFFFF
    ensures Dec(t, data, at) == Got(v, at + |Enc(v)|)
    decreases t, 0, 0
  {
    match t
    case Scalar(_) =>
      assert v.bytes == Enc(v) == EncBody(v);
    case Str =>
      StringRoundTrip(v.chars, data, at);
      assert v.chars[..Wrap16(|v.chars|)] == v.chars;
    case Vec(e) =>
      VectorRoundTrip(e, v.items, data, at);
  }

  lemma {:induction false} VectorRoundTrip(e: Type, items: seq<Value>, data: seq<Byte>, at: nat)
    requires AllHaveType(e, items) && RepresentableVector(e, items)
    requires Holds(data, at, Enc(VecV(items))) && at + |Enc(VecV(items))| <= 0xFFFF
    ensures DecVector(e, data, at) == Got(VecV(items), at + |Enc(VecV(items))|)
    decreases e, 1, 0
  {
    VectorHeader(e, items, data, at);
    RoundTripAll(e, items, data, at + 8);
  }

  lemma {:induction false} RoundTripAll(t: Type, vs: seq<Value>, data: seq<Byte>, at: nat)
    requires AllHaveType(t, vs) && AllRepresentable(t, vs)
    requires Holds(data, at, EncAll(vs)) && at + |EncAll(vs)| <= 0xFFFF
    ensures DecMany(t, |vs|, data, at) == Got(vs, at + |EncAll(vs)|)
    decreases t, 0, |vs|
  {
    if vs != [] {
      var init, last := vs[..|vs| - 1], vs[|vs| - 1];
      SplitLast(vs, data, at);
      RoundTripAll(t, init, data, at);
      RoundTrip(t, last, data, at + |EncAll(init)|);
      DecManySnoc(t, init, data, at, at + |EncAll(init)|, last, at + |EncAll(vs)|);
      InitLast(vs);
    }
  }

  lemma {:induction false} DecManySnoc(t: Type, init: seq<Value>, data: seq<Byte>, at: nat, mid: nat,
      last: Value, end: nat)
    requires DecMany(t, |init|, data, at) == Got(init, mid)
    requires Dec(t, data, mid) == Got(last, end)
    ensures DecMany(t, |init| + 1, data, at) == Got(init + [last], end)
  {
  }

  lemma {:induction false} StringRoundTrip(s: seq<Byte>, data: seq<Byte>, at: nat)
    requires Holds(data, at, Enc(StrV(s))) && at + |Enc(StrV(s))| <= 0xFFFF
    ensures Dec(Str, data, at) == Got(StrV(s[..Wrap16(|s|)]), at + |Enc(StrV(s))|)
  {
    var len := Wrap16(|s|);
    assert Enc(StrV(s)) == EncBody(StrV(s));
    HoldsConcat(data, at, LE(len, 8), s[..len]);
    ReadU64(data, at, len);
  }

  lemma {:induction false} VectorHeader(e: Type, items: seq<Value>, data: seq<Byte>, at: nat)
    requires AllHaveType(e, items)
    requires Holds(data, at, Enc(VecV(items))) && at + |Enc(VecV(items))| <= 0xFFFF
    ensures at + 8 <= |data| && U64At(data, at) == |items|
    ensures Holds(data, at + 8, EncAll(items))
    ensures |Enc(VecV(items))| == 8 + |EncAll(items)|
  {
    assert Enc(VecV(items)) == EncBody(VecV(items));
    EncAllLength(e, items);
    HoldsConcat(data, at, LE(|items|, 8), EncAll(items));
    ReadU64(data, at, |items|);
  }

  /** A value that is not representable comes back as another value: a cut string or, where a
      length guard fires, an empty vector. */
  lemma {:induction false} AlteredIfNotRepresentable(t: Type, v: Value, data: seq<Byte>, at: nat)
    requires HasType(t, v) && !Representable(t, v)
    requires Holds(data, at, Enc(v)) && at + |Enc(v)| <= 0xFFFF
    ensures Dec(t, data, at).Got? ==> Dec(t, data, at).value != v
    decreases t, 0, 0
  {
    match t
    case Str =>
      StringRoundTrip(v.chars, data, at);
    case Vec(e) =>
      AlteredVector(e, v.items, data, at);
  }

  lemma {:induction false} AlteredVector(e: Type, items: seq<Value>, data: seq<Byte>, at: nat)
    requires AllHaveType(e, items) && !RepresentableVector(e, items)
    requires Holds(data, at, Enc(VecV(items))) && at + |Enc(VecV(items))| <= 0xFFFF
    ensures DecVector(e, data, at).Got? ==> DecVector(e, data, at).value != VecV(items)
    decreases e, 2, 0
  {
    VectorHeader(e, items, data, at);
    if |items| <= 0xFFFF / SizeOf(e) {
      AlteredAll(e, items, data, at + 8);
    }
  }

  lemma {:induction false} AlteredAll(t: Type, vs: seq<Value>, data: seq<Byte>, at: nat)
    requires AllHaveType(t, vs) && !AllRepresentable(t, vs)
    requires Holds(data, at, EncAll(vs)) && at + |EncAll(vs)| <= 0xFFFF
    ensures DecMany(t, |vs|, data, at).Got? ==> DecMany(t, |vs|, data, at).value != vs
    decreases t, 1, |vs|
  {
    var init, last := vs[..|vs| - 1], vs[|vs| - 1];
    InitLast(vs);
    SplitLast(vs, data, at);
    if AllRepresentable(t, init) {
      AlteredLast(t, init, last, data, at);
    } else {
      AlteredAll(t, init, data, at);
      AlteredSnoc(t, init, last, data, at);
    }
  }

  lemma {:induction false} AlteredLast(t: Type, init: seq<Value>, last: Value, data: seq<Byte>, at: nat)
    requires AllHaveType(t, init) && AllRepresentable(t, init)
    requires HasType(t, last) && !Representable(t, last)
    requires Holds(data, at, EncAll(init)) && Holds(data, at + |EncAll(init)|, Enc(last))
    requires at + |EncAll(init)| + |Enc(last)| <= 0xFFFF
    ensures DecMany(t, |init| + 1, data, at).Got? ==> DecMany(t, |init| + 1, data, at).value != init + [last]
    decreases t, 0, |init| + 1
  {
    RoundTripAll(t, init, data, at);
    AlteredIfNotRepresentable(t, last, data, at + |EncAll(init)|);
    AlteredSnoc(t, init, last, data, at);
  }

  lemma {:induction false} AlteredSnoc(t: Type, init: seq<Value>, last: Value, data: seq<Byte>, at: nat)
    requires var r := DecMany(t, |init|, data, at);
      r.Got? && r.value == init ==> var s := Dec(t, data, r.offset); s.Got? ==> s.value != last
    ensures DecMany(t, |init| + 1, data, at).Got? ==> DecMany(t, |init| + 1, data, at).value != init + [last]
  {
    var s := DecMany(t, |init| + 1, data, at);
    if s.Got? {
      var r := DecMany(t, |init|, data, at);
      var item := Dec(t, data, r.offset).value;
      assert s.value == r.value + [item];
      assert s.value[|r.value|] == item && s.value[..|r.value|] == r.value;
      assert (init + [last])[|init|] == last && (init + [last])[..|init|] == init;
    }
  }

  lemma {:induction false} InitLast<T>(s: seq<T>)
    requires s != []
    ensures s == s[..|s| - 1] + [s[|s| - 1]]
  {
  }

  /** The codec's exact condition: decoding gives the value back if and only if it is
      representable. */
  lemma {:induction false} RoundTripIff(t: Type, v: Value, data: seq<Byte>, at: nat)
    requires HasType(t, v)
    requires Holds(data, at, Enc(v)) && at + |Enc(v)| <= 0xFFFF
    ensures Dec(t, data, at) == Got(v, at + |Enc(v)|) <==> Representable(t, v)
  {
    if Representable(t, v) {
      RoundTrip(t, v, data, at);
    } else {
      AlteredIfNotRepresentable(t, v, data, at);
    }
  }

  // ----- which values fit -----

  // The largest slot for which "fits the slot" implies "representable". Every configuration of
  // the call, callback and event spaces stays far below it.
  const MAX_SAFE_SLOT: nat := 16391

  /** The fewest bytes a value of the type takes. */
  function MinSize(t: Type): nat {
    if t.Scalar? then t.width else 8
  }

  lemma {:induction false} FullSizeAtLeast(t: Type, v: Value)
    requires HasType(t, v)
    ensures FullSize(v) >= MinSize(t)
  {
  }

  lemma {:induction false} FullSizeAllAtLeast(t: Type, vs: seq<Value>)
    requires AllHaveType(t, vs)
    ensures FullSizeAll(vs) >= |vs| * MinSize(t)
  {
    if vs != [] {
      FullSizeAllAtLeast(t, vs[..|vs| - 1]);
      FullSizeAtLeast(t, vs[|vs| - 1]);
    }
  }

  lemma {:induction false} DivisionBound(n: nat, w: Width)
    requires n * w <= 0xFFFF
    ensures n <= 0xFFFF / w
  {
    var q := 0xFFFF / w;
    assert n * w < (q + 1) * w;
    assert n >= q + 1 ==> n * w >= (q + 1) * w;
  }

  lemma {:induction false} GuardBound(e: Type, items: seq<Value>)
    requires AllHaveType(e, items) && 8 + FullSizeAll(items) <= MAX_SAFE_SLOT
    ensures |items| <= 0xFFFF / SizeOf(e)
  {
    FullSizeAllAtLeast(e, items);
    DivisionBound(|items|, SizeOf(e));
  }

  /** A value that fits a slot is representable, and the encoder writes exactly its full size:
      no length is cut and no length guard fires. */
  lemma {:induction false} FitsIsRepresentable(t: Type, v: Value)
    requires HasType(t, v) && FullSize(v) <= MAX_SAFE_SLOT
    ensures Representable(t, v) && |Enc(v)| == FullSize(v)
    decreases t, 0
  {
    assert Enc(v) == EncBody(v);
    match t
    case Scalar(_) =>
    case Str =>
    case Vec(e) =>
      GuardBound(e, v.items);
      AllFitIsRepresentable(e, v.items);
  }

  lemma {:induction false} AllFitIsRepresentable(t: Type, vs: seq<Value>)
    requires AllHaveType(t, vs) && FullSizeAll(vs) <= MAX_SAFE_SLOT
    ensures AllRepresentable(t, vs) && |EncAll(vs)| == FullSizeAll(vs)
    decreases t, 1, |vs|
  {
    if vs != [] {
      AllFitIsRepresentable(t, vs[..|vs| - 1]);
      FitsIsRepresentable(t, vs[|vs| - 1]);
    }
  }

  /** One byte more and the implication fails: a vector of 2048 empty strings takes 16392 bytes,
      which any 16-bit size can count, but the decoder's guard turns it into an empty vector. */
  lemma {:induction false} SafeSlotIsTight(data: seq<Byte>, at: nat)
    ensures var v := VecV(seq(2048, _ => StrV([])));
      && HasType(Vec(Str), v) && FullSize(v) == MAX_SAFE_SLOT + 1
      && (Holds(data, at, Enc(v)) && at + |Enc(v)| <= 0xFFFF ==>
            Dec(Vec(Str), data, at).Got? && Dec(Vec(Str), data, at).value == VecV([]))
  {
    var vs := seq(2048, _ => StrV([]));
    EmptyStringsSize(vs);
    if Holds(data, at, Enc(VecV(vs))) && at + |Enc(VecV(vs))| <= 0xFFFF {
      VectorHeader(Str, vs, data, at);
      assert Dec(Vec(Str), data, at) == DecBody(Vec(Str), data, at) == DecVector(Str, data, at);
    }
  }

  lemma {:induction false} EmptyStringsSize(vs: seq<Value>)
    requires forall j | 0 <= j < |vs| :: vs[j] == StrV([])
    ensures FullSizeAll(vs) == 8 * |vs|
  {
    if vs != [] {
      EmptyStringsSize(vs[..|vs| - 1]);
    }
  }
}
