/** IPCCallback.h: one reply. An error code, then the message of a failure, or the size and the
    bytes of the arguments of a success. */
module IPCCallbackModel {
  import opened Bytes
  import opened Codec
  import opened Tuple
  import opened Serializer
  import opened Deserializer
  import opened IPCCallModel
  import opened CallbackSpaceModel

  /** The bytes serialize writes. */
  function ReplyBytes(code: UInt16, msg: seq<Byte>, args: seq<Value>): seq<Byte> {
    LE(code, 2) + (if code != 0 then Enc(StrV(msg)) else Payload(args))
  }

  /** The payload size and the arguments. */
  function Payload(args: seq<Value>): seq<Byte> {
    LE(Wrap16(|EncAll(args)|), 2) + EncAll(args)
  }

  /** What the client's callback is given, or a read past the copied bytes. */
  datatype Reply = Failure(code: UInt16, msg: seq<Byte>) | Success(args: seq<Value>) | ReadOutside

  lemma {:induction false} StringsAreStrings(data: seq<Byte>, at: nat)
    ensures Dec(Str, data, at).Got? ==> Dec(Str, data, at).value.StrV?
  {
    assert Dec(Str, data, at) == DecBody(Str, data, at);
  }

  /** deserialize on the copied bytes. The payload size is read and not used. */
  function DecReply(ts: seq<Type>, data: seq<Byte>): Reply {
    if 2 > |data| then ReadOutside
    else
      var code := U16At(data, 0);
      if code != 0 then
        StringsAreStrings(data, 2);
        match Dec(Str, data, 2)
        case OutOfBounds => ReadOutside
        case Got(msg, _) => Failure(code, msg.chars)
      else if 4 > |data| then ReadOutside
      else
        match DecTuple(ts, Slice(data, 4, |data| - 4), 0)
        case OutOfBounds => ReadOutside
        case Got(args, _) => Success(args)
  }

  lemma {:induction false} WholeHolds(data: seq<Byte>)
    ensures Holds(data, 0, data)
  {
    SliceIs(data, 0, |data|);
  }

  lemma {:induction false} CodeFirst(code: UInt16, rest: seq<Byte>)
    ensures var data := LE(code, 2) + rest;
      U16At(data, 0) == code && Holds(data, 2, rest)
  {
    var data := LE(code, 2) + rest;
    WholeHolds(data);
    HoldsConcat(data, 0, LE(code, 2), rest);
    ReadU16(data, 0, code);
  }

  /** Behind the code and the payload size stand the arguments. */
  lemma {:induction false} ArgumentsLast(code: UInt16, args: seq<Value>)
    ensures var data := LE(code, 2) + Payload(args);
      |data| == 4 + |EncAll(args)| && Slice(data, 4, |data| - 4) == EncAll(args)
  {
    CodeFirst(code, Payload(args));
    HoldsConcat(LE(code, 2) + Payload(args), 2, LE(Wrap16(|EncAll(args)|), 2), EncAll(args));
  }

  /** The layout of a success: code 0, the number of argument bytes modulo 65536, and those bytes. */
  lemma {:induction false} SuccessLayout(msg: seq<Byte>, args: seq<Value>)
    ensures var data, n := ReplyBytes(0, msg, args), |EncAll(args)|;
      && |data| == 4 + n && U16At(data, 0) == 0 && data[4..] == EncAll(args)
      && U16At(data, 2) == (if n <= 0xFFFF then n else n % 0x1_0000)
  {
    var data, size := ReplyBytes(0, msg, args), LE(Wrap16(|EncAll(args)|), 2);
    CodeFirst(0, Payload(args));
    ArgumentsLast(0, args);
    assert Slice(data, 4, |data| - 4) == data[4..];
    HoldsConcat(data, 2, size, EncAll(args));
    ReadU16(data, 2, Wrap16(|EncAll(args)|));
  }

  /** What a reply is decoded to if nothing was lost. */
  function AsSent(code: UInt16, msg: seq<Byte>, args: seq<Value>): Reply {
    if code != 0 then Failure(code, msg) else Success(args)
  }

  /** Nothing that the reply carries is cut by the encoder or refused by a guard. */
  predicate RepresentableReply(code: UInt16, msg: seq<Byte>, ts: seq<Type>, args: seq<Value>)
    requires Typed(ts, args)
  {
    if code != 0 then |msg| <= 0xFFFF else RepresentableTuple(ts, args)
  }

  /** Reply round trip, on exactly the bytes serialize produced: a failure comes back with its
      code and message, a success with its arguments, if and only if they are representable; and
      what is representable is read without leaving those bytes. */
  lemma {:induction false} ReplyRoundTripIff(code: UInt16, msg: seq<Byte>, ts: seq<Type>, args: seq<Value>)
    requires Typed(ts, args) && |ReplyBytes(code, msg, args)| <= 0xFFFF
    ensures DecReply(ts, ReplyBytes(code, msg, args)) == AsSent(code, msg, args)
      <==> RepresentableReply(code, msg, ts, args)
  {
    if code != 0 {
      CodeFirst(code, Enc(StrV(msg)));
      StringRoundTrip(msg, ReplyBytes(code, msg, args), 2);
      assert |msg| <= 0xFFFF ==> msg[..Wrap16(|msg|)] == msg;
    } else {
      CodeFirst(code, Payload(args));
      ArgumentsLast(code, args);
      WholeHolds(EncAll(args));
      TupleRoundTripIff(ts, args, EncAll(args), 0);
      SameValue(ts, args);
    }
  }

  /** The tuple decoded from its own bytes decides the offset, so comparing values is enough. */
  lemma {:induction false} SameValue(ts: seq<Type>, args: seq<Value>)
    requires Typed(ts, args) && |EncAll(args)| <= 0xFFFF
    ensures var r := DecTuple(ts, EncAll(args), 0);
      r.Got? && r.value == args ==> r.offset == |EncAll(args)|
  {
    WholeHolds(EncAll(args));
    if RepresentableTuple(ts, args) {
      TupleRoundTrip(ts, args, EncAll(args), 0);
    } else {
      AlteredTuple(ts, args, EncAll(args), 0);
    }
  }

  /** End to end through the slot: a reply that fits and is written to a pending slot is what the
      client pops, whatever is written to the slot in between, and it is decoded as it was sent. */
  lemma {:induction false} ReplyEndToEnd(slots: seq<Slot>, i: nat, maxData: UInt16, late: seq<seq<Byte>>,
      code: UInt16, msg: seq<Byte>, ts: seq<Type>, args: seq<Value>)
    requires i < |slots| && slots[i] == Pending && Typed(ts, args)
    requires |ReplyBytes(code, msg, args)| <= maxData && RepresentableReply(code, msg, ts, args)
    ensures var data := ReplyBytes(code, msg, args);
      var written := UpdateAll(UpdateSlot(slots, i, data, maxData), i, late, maxData);
      && PopSlot(written, i) == (Some(data), slots[i := NoData])
      && DecReply(ts, data) == AsSent(code, msg, args)
  {
    ReplyRoundTripIff(code, msg, ts, args);
    UpdateThenPop(slots, i, ReplyBytes(code, msg, args), late, maxData);
  }

  /** With slots of up to 16391 bytes a reply whose parts fit is representable, and its bytes fit. */
  lemma {:induction false} FittingReplies(code: UInt16, msg: seq<Byte>, ts: seq<Type>, args: seq<Value>,
      maxData: UInt16)
    requires Typed(ts, args) && maxData <= MAX_SAFE_SLOT
    requires (if code != 0 then 10 + |msg| else 4 + FullSizeAll(args)) <= maxData
    ensures RepresentableReply(code, msg, ts, args) && |ReplyBytes(code, msg, args)| <= maxData
  {
    if code != 0 {
      assert Enc(StrV(msg)) == EncBody(StrV(msg));
    } else {
      TupleFits(ts, args);
    }
  }

  // ----- the byte-level code -----

  method Serialize(buffer: array<Byte>, code: UInt16, msg: seq<Byte>, args: seq<Value>) returns (n: UInt16)
    requires |ReplyBytes(code, msg, args)| <= buffer.Length <= 0xFFFF
    modifies buffer
    ensures buffer[..] == Splice(old(buffer[..]), 0, ReplyBytes(code, msg, args))
    ensures n == |ReplyBytes(code, msg, args)|
  {
    ghost var before := buffer[..];
    Memcpy(buffer, 0, LE(code, 2));
    if code != 0 {
      n := SerializeType(StrV(msg), buffer, 2);
      SpliceTwice(before, 0, LE(code, 2), Enc(StrV(msg)));
      return Wrap16(2 + n);
    }
    var payloadSz := SerializeTuple(args, buffer, 4);
    Memcpy(buffer, 2, LE(payloadSz, 2));
    BackPatch(before, LE(code, 2), LE(payloadSz, 2), EncAll(args));
    assert LE(code, 2) + LE(payloadSz, 2) + EncAll(args) == LE(code, 2) + Payload(args);
    return Wrap16(2 + 2 + payloadSz);
  }

  method Deserialize(ts: seq<Type>, data: array<Byte>) returns (r: Reply)
    ensures r == DecReply(ts, data[..])
  {
    if 2 > data.Length {
      return ReadOutside;
    }
    var code := U16At(data[..], 0);
    if code != 0 {
      var msg := DeserializeType(Str, data, 2);
      StringsAreStrings(data[..], 2);
      return if msg.Got? then Failure(code, msg.value.chars) else ReadOutside;
    }
    if 4 > data.Length {
      return ReadOutside;
    }
    var rest := new Byte[data.Length - 4](k requires 0 <= k < data.Length - 4 reads data => data[4 + k]);
    SliceIs(data[..], 4, data.Length - 4);
    assert rest[..] == data[..][4..4 + (data.Length - 4)];
    var args := DeserializeTuple(ts, rest, 0);
    return if args.Got? then Success(args.value) else ReadOutside;
  }
}
