/** IPCCall.h: one request frame. A frame is a 14-byte header, a 16-bit argument size and the
    argument bytes. */
module IPCCallModel {
  import opened Bytes
  import opened Codec
  import opened Serializer

  // HEAD_SZ: call id, method id, client id and callback index.
  const HEAD_SZ: nat := 14

  /** SLOT_SZ, wide enough for an empty frame. */
  type SlotSize = x: int | 16 <= x <= 0xFFFF witness 512

  datatype Call = Call(callId: UInt64, methodId: UInt16, clientId: UInt16, cbIndex: UInt16)

  /** A call with its argument bytes: what one frame carries. */
  datatype Request = Request(call: Call, args: seq<Byte>)

  predicate Sendable(r: Request) {
    |r.args| <= 0xFFFF
  }

  /** The header found in data at position at. */
  function CallAt(data: seq<Byte>, at: nat): Call
    requires at + HEAD_SZ <= |data|
  {
    Call(U64At(data, at), U16At(data, at + 8), U16At(data, at + 10), U16At(data, at + 12))
  }

  /** The first two header fields, and the other two. */
  function IdBytes(c: Call): (s: seq<Byte>)
    ensures |s| == 10
  {
    LE(c.callId, 8) + LE(c.methodId, 2)
  }

  function PeerBytes(c: Call): (s: seq<Byte>)
    ensures |s| == 4
  {
    LE(c.clientId, 2) + LE(c.cbIndex, 2)
  }

  /** The header's bytes. */
  function HeadBytes(c: Call): (s: seq<Byte>)
    ensures |s| == HEAD_SZ
  {
    IdBytes(c) + PeerBytes(c)
  }

  /** The bytes of one frame. */
  function FrameBytes(r: Request): (s: seq<Byte>)
    ensures |s| == HEAD_SZ + 2 + |r.args|
  {
    HeadBytes(r.call) + LE(|r.args|, 2) + r.args
  }

  lemma {:induction false} IdHolds(data: seq<Byte>, at: nat, c: Call)
    requires Holds(data, at, IdBytes(c))
    ensures at + 10 <= |data| && U64At(data, at) == c.callId && U16At(data, at + 8) == c.methodId
  {
    HoldsConcat(data, at, LE(c.callId, 8), LE(c.methodId, 2));
    ReadU64(data, at, c.callId);
    ReadU16(data, at + 8, c.methodId);
  }

  lemma {:induction false} PeerHolds(data: seq<Byte>, at: nat, c: Call)
    requires Holds(data, at, PeerBytes(c))
    ensures at + 4 <= |data| && U16At(data, at) == c.clientId && U16At(data, at + 2) == c.cbIndex
  {
    HoldsConcat(data, at, LE(c.clientId, 2), LE(c.cbIndex, 2));
    ReadU16(data, at, c.clientId);
    ReadU16(data, at + 2, c.cbIndex);
  }

  lemma {:induction false} HeaderHolds(data: seq<Byte>, at: nat, c: Call)
    requires Holds(data, at, HeadBytes(c))
    ensures at + HEAD_SZ <= |data| && CallAt(data, at) == c
  {
    HoldsConcat(data, at, IdBytes(c), PeerBytes(c));
    IdHolds(data, at, c);
    PeerHolds(data, at + 10, c);
  }

  /** Where a frame stands, its header, its size field and its argument bytes can be read. */
  lemma {:induction false} FrameHolds(data: seq<Byte>, at: nat, r: Request)
    requires Sendable(r) && Holds(data, at, FrameBytes(r))
    ensures at + HEAD_SZ + 2 + |r.args| <= |data|
    ensures CallAt(data, at) == r.call
    ensures U64At(data, at) == r.call.callId && U16At(data, at + 8) == r.call.methodId
    ensures U16At(data, at + 10) == r.call.clientId && U16At(data, at + 12) == r.call.cbIndex
    ensures U16At(data, at + HEAD_SZ) == |r.args|
    ensures Slice(data, at + HEAD_SZ + 2, |r.args|) == r.args
  {
    var head, size := HeadBytes(r.call), LE(|r.args|, 2);
    HoldsConcat(data, at, head + size, r.args);
    HoldsConcat(data, at, head, size);
    HeaderHolds(data, at, r.call);
    ReadU16(data, at + HEAD_SZ, |r.args|);
  }

  /** The header that stands in some bytes is written with those bytes. */
  lemma {:induction false} HeaderWritten(data: seq<Byte>, at: nat)
    requires at + HEAD_SZ <= |data|
    ensures HeadBytes(CallAt(data, at)) == Slice(data, at, HEAD_SZ)
  {
    WriteU64(data, at);
    WriteU16(data, at + 8);
    WriteU16(data, at + 10);
    WriteU16(data, at + 12);
    SliceConcat(data, at, 8, 2);
    SliceConcat(data, at + 10, 2, 2);
    SliceConcat(data, at, 10, 4);
  }

  /** So is the frame. */
  lemma {:induction false} FrameWritten(data: seq<Byte>, at: nat, n: UInt16)
    requires at + HEAD_SZ + 2 + n <= |data| && U16At(data, at + HEAD_SZ) == n
    ensures FrameBytes(Request(CallAt(data, at), Slice(data, at + HEAD_SZ + 2, n)))
         == Slice(data, at, HEAD_SZ + 2 + n)
  {
    HeaderWritten(data, at);
    WriteU16(data, at + HEAD_SZ);
    SliceConcat(data, at, HEAD_SZ, 2);
    SliceConcat(data, at, HEAD_SZ + 2, n);
  }

  /** Writing the arguments first and the size in front of them afterwards gives the frame:
      the back-patch does not disturb the argument bytes. */
  lemma {:induction false} BackPatch(s: seq<Byte>, head: seq<Byte>, size: seq<Byte>, args: seq<Byte>)
    requires |head| + |size| + |args| <= |s|
    ensures Splice(Splice(Splice(s, 0, head), |head| + |size|, args), |head|, size)
         == Splice(s, 0, head + size + args)
  {
    var s1 := Splice(s, 0, head);
    var s2 := Splice(s1, |head| + |size|, args);
    SpliceIs(s, 0, head);
    SpliceIs(s1, |head| + |size|, args);
    SpliceIs(s2, |head|, size);
    SpliceIs(s, 0, head + size + args);
  }

  function MaxArgsOf(slotSz: SlotSize): nat {
    slotSz - HEAD_SZ - 2
  }

  /** The argument size deserialize keeps. */
  function Clamped(slotSz: SlotSize, sz: UInt16): UInt16 {
    if sz > MaxArgsOf(slotSz) then 0 else sz
  }

  class IPCCall {
    const slotSz: SlotSize
    var callId: UInt64
    var methodId: UInt16
    var clientId: UInt16
    var cbIndex: UInt16
    var argsSz: UInt16

    constructor (slotSz: SlotSize, call: Call, argsSz: UInt16)
      ensures this.slotSz == slotSz && Fields() == call && this.argsSz == argsSz
    {
      this.slotSz := slotSz;
      this.callId := call.callId;
      this.methodId := call.methodId;
      this.clientId := call.clientId;
      this.cbIndex := call.cbIndex;
      this.argsSz := argsSz;
    }

    function Fields(): Call
      reads this
    {
      Call(callId, methodId, clientId, cbIndex)
    }

    /** MAX_ARGS_SZ: the longest argument list whose frame fits the slot. */
    function MaxArgs(): nat {
      MaxArgsOf(slotSz)
    }

    /** Writes the four header fields. */
    method SerializeHeader(buffer: array<Byte>)
      requires HEAD_SZ <= buffer.Length
      modifies buffer
      ensures buffer[..] == Splice(old(buffer[..]), 0, HeadBytes(Fields()))
    {
      ghost var s, c := buffer[..], Fields();
      Memcpy(buffer, 0, LE(callId, 8));
      Memcpy(buffer, 8, LE(methodId, 2));
      SpliceTwice(s, 0, LE(callId, 8), LE(methodId, 2));
      ghost var t := buffer[..];
      Memcpy(buffer, 10, LE(clientId, 2));
      Memcpy(buffer, 12, LE(cbIndex, 2));
      SpliceTwice(t, 10, LE(clientId, 2), LE(cbIndex, 2));
      SpliceTwice(s, 0, IdBytes(c), PeerBytes(c));
    }

    /** serialize: header and argument size as it stands. For a call without arguments this is
        the whole frame. */
    method Serialize(buffer: array<Byte>) returns (n: UInt16)
      requires HEAD_SZ + 2 <= buffer.Length
      modifies buffer
      ensures buffer[..] == Splice(old(buffer[..]), 0, HeadBytes(Fields()) + LE(argsSz, 2))
      ensures argsSz == 0 ==>
        buffer[..] == Splice(old(buffer[..]), 0, FrameBytes(Request(Fields(), [])))
      ensures n == HEAD_SZ + 2
    {
      SerializeHeader(buffer);
      Memcpy(buffer, HEAD_SZ, LE(argsSz, 2));
      SpliceTwice(old(buffer[..]), 0, HeadBytes(Fields()), LE(argsSz, 2));
      assert HeadBytes(Fields()) + LE(argsSz, 2) + [] == HeadBytes(Fields()) + LE(argsSz, 2);
      n := Wrap16(HEAD_SZ + 2);
    }

    /** serialize_with_args: the arguments go behind the size field, which is filled in last. */
    method SerializeWithArgs(buffer: array<Byte>, args: seq<Value>) returns (n: nat)
      requires HEAD_SZ + 2 + |EncAll(args)| <= buffer.Length <= 0xFFFF
      modifies `argsSz, buffer
      ensures buffer[..] == Splice(old(buffer[..]), 0, FrameBytes(Request(Fields(), EncAll(args))))
      ensures argsSz == |EncAll(args)|
      ensures n == |FrameBytes(Request(Fields(), EncAll(args)))|
    {
      ghost var head, body := HeadBytes(Fields()), EncAll(args);
      SerializeHeader(buffer);
      var sz := SerializeTuple(args, buffer, HEAD_SZ + 2);
      argsSz := sz;
      Memcpy(buffer, HEAD_SZ, LE(sz, 2));
      BackPatch(old(buffer[..]), head, LE(sz, 2), body);
      n := HEAD_SZ + 2 + sz;
    }

    /** deserialize: reads the five fields at buffer + offset and clamps an argument size that
        no slot could hold. The result says whether the sixteen bytes lay inside the buffer; if
        they did not, the source reads outside it and the fields are left alone here. */
    method Deserialize(buffer: array<Byte>, offset: nat) returns (inside: bool)
      modifies this
      ensures inside <==> offset + HEAD_SZ + 2 <= buffer.Length
      ensures inside ==>
        && Fields() == CallAt(buffer[..], offset)
        && argsSz == Clamped(slotSz, U16At(buffer[..], offset + HEAD_SZ))
      ensures !inside ==> Fields() == old(Fields()) && argsSz == old(argsSz)
    {
      if offset + HEAD_SZ + 2 > buffer.Length {
        return false;
      }
      ghost var data := buffer[..];
      callId := U64At(buffer[..], offset);
      methodId := U16At(buffer[..], offset + 8);
      clientId := U16At(buffer[..], offset + 10);
      cbIndex := U16At(buffer[..], offset + 12);
      argsSz := U16At(buffer[..], offset + HEAD_SZ);
      if argsSz > MaxArgs() {
        argsSz := 0;
      }
      return true;
    }
  }
}
