/** How validateCall judges a call before it is serialized (IClientIPC.hpp, Serializer.h): it sums
    sizeOfArgs over the arguments in 16 bits and compares the sum with CALL_SZ - HEAD_SZ. */
module SizePrediction {
  import opened Bytes
  import opened Codec
  import opened Tuple
  import opened IPCCallModel

  /** sizeOfArgs for one argument: what a scalar or a string takes on the wire, but the size of
      the vector object for a vector. */
  function SizeOfArg(v: Value): UInt16 {
    match v
    case ScalarV(bytes) => Wrap16(|bytes|)
    case StrV(chars) => Wrap16(8 + Wrap16(|chars|))
    case VecV(_) => SIZEOF_VECTOR
  }

  /** The sum over the arguments, kept in a uint16_t. */
  function Predicted(vs: seq<Value>): UInt16 {
    if vs == [] then 0 else Wrap16(Predicted(vs[..|vs| - 1]) + SizeOfArg(vs[|vs| - 1]))
  }

  /** validateCall. */
  predicate Admitted(vs: seq<Value>, callSz: SlotSize) {
    Predicted(vs) <= callSz - HEAD_SZ
  }

  /** The frame fits the slot. */
  predicate Fits(vs: seq<Value>, callSz: SlotSize) {
    |EncAll(vs)| <= MaxArgsOf(callSz)
  }

  /** Scalars and strings only. */
  predicate Flat(vs: seq<Value>) {
    forall j | 0 <= j < |vs| :: !vs[j].VecV?
  }

  lemma {:induction false} ModSum(a: nat, b: nat)
    ensures (a % 0x1_0000 + b % 0x1_0000) % 0x1_0000 == (a + b) % 0x1_0000
  {
    var p, q := a / 0x1_0000, b / 0x1_0000;
    var r := a % 0x1_0000 + b % 0x1_0000;
    assert a + b == r + (p + q) * 0x1_0000;
    ModShift(r, p + q);
  }

  lemma {:induction false} ModShift(r: nat, n: nat)
    ensures (r + n * 0x1_0000) % 0x1_0000 == r % 0x1_0000
    decreases n
  {
    if n > 0 {
      ModShift(r, n - 1);
    }
  }

  lemma {:induction false} WrapIsModulo(x: nat)
    ensures Wrap16(x) == x % 0x1_0000
  {
  }

  /** The vectors among the arguments, and what they take on the wire. */
  function VecCount(vs: seq<Value>): nat {
    if vs == [] then 0 else VecCount(vs[..|vs| - 1]) + (if vs[|vs| - 1].VecV? then 1 else 0)
  }

  function VecBytes(vs: seq<Value>): nat {
    if vs == [] then 0 else VecBytes(vs[..|vs| - 1]) + (if vs[|vs| - 1].VecV? then |Enc(vs[|vs| - 1])| else 0)
  }

  /** What the prediction would be without wrapping: the encoded bytes of scalars and strings,
      and 24 for each vector. */
  function Estimate(vs: seq<Value>): (n: nat)
    ensures n + VecBytes(vs) == |EncAll(vs)| + SIZEOF_VECTOR * VecCount(vs)
  {
    if vs == [] then 0
    else
      var last := vs[|vs| - 1];
      Estimate(vs[..|vs| - 1]) + (if last.VecV? then SIZEOF_VECTOR else |Enc(last)|)
  }

  lemma {:induction false} OneArgument(v: Value)
    ensures SizeOfArg(v) == (if v.VecV? then SIZEOF_VECTOR else |Enc(v)|) % 0x1_0000
  {
    assert Enc(v) == EncBody(v);
  }

  /** The prediction, for any arguments: the estimate modulo 65536. */
  lemma {:induction false} PredictedIsEstimate(vs: seq<Value>)
    ensures Predicted(vs) == Estimate(vs) % 0x1_0000
    decreases |vs|
  {
    if vs != [] {
      var init, last := vs[..|vs| - 1], vs[|vs| - 1];
      PredictedIsEstimate(init);
      OneArgument(last);
      WrapIsModulo(Predicted(init) + SizeOfArg(last));
      ModSum(Estimate(init), if last.VecV? then SIZEOF_VECTOR else |Enc(last)|);
    }
  }

  /** Exactly which calls are misjudged, vectors included. Admission depends on the estimate
      modulo 65536. While the estimate does not wrap, a call that does not fit is admitted if and
      only if 24 bytes a vector make it at most two bytes too long, and a call that fits is
      refused if and only if they make it longer than that. */
  lemma {:induction false} MisjudgedIff(vs: seq<Value>, callSz: SlotSize)
    ensures var n, limit := |EncAll(vs)| + SIZEOF_VECTOR * VecCount(vs), MaxArgsOf(callSz);
      && VecBytes(vs) <= n
      && (Admitted(vs, callSz) <==> (n - VecBytes(vs)) % 0x1_0000 <= limit + 2)
      && (n - VecBytes(vs) <= 0xFFFF ==>
            && (Admitted(vs, callSz) && !Fits(vs, callSz) <==> |EncAll(vs)| > limit && n <= limit + 2 + VecBytes(vs))
            && (Fits(vs, callSz) && !Admitted(vs, callSz) <==> |EncAll(vs)| <= limit && n > limit + 2 + VecBytes(vs)))
  {
    PredictedIsEstimate(vs);
    assert Estimate(vs) + VecBytes(vs) == |EncAll(vs)| + SIZEOF_VECTOR * VecCount(vs);
  }

  lemma {:induction false} FlatHasNoVectors(vs: seq<Value>)
    requires Flat(vs)
    ensures VecCount(vs) == 0 == VecBytes(vs)
    decreases |vs|
  {
    if vs != [] {
      FlatHasNoVectors(vs[..|vs| - 1]);
    }
  }

  /** Without vectors the prediction is the encoded size modulo 65536. */
  lemma {:induction false} PredictedIsSize(vs: seq<Value>)
    requires Flat(vs)
    ensures Predicted(vs) == |EncAll(vs)| % 0x1_0000
  {
    PredictedIsEstimate(vs);
    FlatHasNoVectors(vs);
    assert Estimate(vs) + 0 == |EncAll(vs)| + SIZEOF_VECTOR * 0;
  }

  /** Size prediction and admission: scalars and strings whose full size is at most MAX_ARGS_SZ
      are predicted exactly, are admitted, are encoded uncut, and make a frame that fits. */
  lemma {:induction false} FittingCallsAreAdmitted(ts: seq<Type>, vs: seq<Value>, callSz: SlotSize, call: Call)
    requires Typed(ts, vs) && Flat(vs) && FullSizeAll(vs) <= MaxArgsOf(callSz)
    ensures Predicted(vs) == |EncAll(vs)| == FullSizeAll(vs)
    ensures Admitted(vs, callSz) && Fits(vs, callSz)
    ensures |FrameBytes(Request(call, EncAll(vs)))| <= callSz
  {
    FlatSize(ts, vs);
    PredictedIsSize(vs);
  }

  lemma {:induction false} FlatSize(ts: seq<Type>, vs: seq<Value>)
    requires Typed(ts, vs) && Flat(vs) && FullSizeAll(vs) <= 0xFFFF
    ensures |EncAll(vs)| == FullSizeAll(vs)
    decreases |vs|
  {
    if vs != [] {
      var n := |vs| - 1;
      FlatSize(ts[..n], vs[..n]);
      assert Enc(vs[n]) == EncBody(vs[n]);
    }
  }

  /** validateCall leaves out the size field, so it lets two sizes too many through: for scalars
      and strings of up to 65535 bytes, exactly the calls of one or two bytes more than fit. */
  lemma {:induction false} AdmittedTooLongIff(vs: seq<Value>, callSz: SlotSize)
    requires Flat(vs) && |EncAll(vs)| <= 0xFFFF
    ensures Admitted(vs, callSz) && !Fits(vs, callSz) <==>
      |EncAll(vs)| == MaxArgsOf(callSz) + 1 || |EncAll(vs)| == MaxArgsOf(callSz) + 2
    ensures Fits(vs, callSz) ==> Admitted(vs, callSz)
  {
    PredictedIsSize(vs);
  }

  /** From 65536 bytes on no call fits, and the sum wraps: whether it is admitted depends on its
      size modulo 65536 alone. */
  lemma {:induction false} HugeCallsWrap(vs: seq<Value>, callSz: SlotSize)
    requires Flat(vs) && |EncAll(vs)| > 0xFFFF
    ensures !Fits(vs, callSz)
    ensures Admitted(vs, callSz) <==> |EncAll(vs)| % 0x1_0000 <= MaxArgsOf(callSz) + 2
  {
    PredictedIsSize(vs);
  }

  /** With the default 512-byte slot, one scalar of 497 bytes is admitted and does not fit. */
  lemma {:induction false} AdmittedButTooLong()
    ensures var vs := [ScalarV(seq(497, _ => 0))]; Admitted(vs, 512) && !Fits(vs, 512)
  {
    var vs := [ScalarV(seq(497, _ => 0))];
    assert vs[..0] == [] && EncAll([]) == [];
    assert EncAll(vs) == EncAll([]) + Enc(vs[0]) && Enc(vs[0]) == EncBody(vs[0]);
    AdmittedTooLongIff(vs, 512);
  }

  /** Both happen: a long vector is admitted and does not fit, and many empty ones fit but are
      refused. */
  lemma {:induction false} VectorsAreMispredicted(n: nat)
    requires 21 <= n <= 62
    ensures var long := [VecV(seq(n, _ => ScalarV(seq(25, _ => 0))))]; Admitted(long, 512) && !Fits(long, 512)
    ensures var many := seq(n, _ => VecV([])); Fits(many, 512) && !Admitted(many, 512)
  {
    var items := seq(n, _ => ScalarV(seq(25, _ => 0)));
    var long := [VecV(items)];
    assert long[..0] == [] && EncAll([]) == [] && Predicted([]) == 0;
    assert EncAll(long) == EncAll([]) + Enc(long[0]) && Enc(long[0]) == EncBody(long[0]);
    SameSizes(items, 25);
    var many := seq(n, _ => VecV([]));
    assert EncAll([]) == [];
    assert forall j | 0 <= j < n :: Enc(many[j]) == EncBody(many[j]);
    SameSizes(many, 8);
    EmptyVectors(many);
  }

  lemma {:induction false} SameSizes(vs: seq<Value>, w: nat)
    requires forall j | 0 <= j < |vs| :: |Enc(vs[j])| == w
    ensures |EncAll(vs)| == |vs| * w
    decreases |vs|
  {
    if vs != [] {
      var n := |vs| - 1;
      SameSizes(vs[..n], w);
      assert |EncAll(vs)| == |EncAll(vs[..n])| + |Enc(vs[n])| == n * w + w;
    }
  }

  lemma {:induction false} EmptyVectors(vs: seq<Value>)
    requires |vs| <= 62 && forall j | 0 <= j < |vs| :: vs[j] == VecV([])
    ensures Predicted(vs) == 24 * |vs|
    decreases |vs|
  {
    if vs != [] {
      EmptyVectors(vs[..|vs| - 1]);
    }
  }

  /** validateCall as the loop it is. */
  method ValidateCall(args: seq<Value>, callSz: SlotSize) returns (ok: bool, argsSz: UInt16)
    ensures argsSz == Predicted(args) && (ok <==> Admitted(args, callSz))
  {
    argsSz := 0;
    for k := 0 to |args|
      invariant argsSz == Predicted(args[..k])
    {
      assert args[..k + 1][..k] == args[..k];
      argsSz := Wrap16(argsSz + SizeOfArg(args[k]));
    }
    assert args[..|args|] == args;
    ok := !(argsSz > callSz - HEAD_SZ);
  }
}
