/** The server's view of the request log (server/IServerIPC.h): a byte queue of frames, split
    again one frame at a time. */
module Framing {
  import opened Bytes
  import opened IPCCallModel

  /** A frame the loop reached: where it starts and what it carries. */
  datatype Visit = Visit(at: nat, request: Request) {
    function End(): nat {
      at + HEAD_SZ + 2 + |request.args|
    }
  }

  datatype Step = Stop | Frame(visit: Visit)

  /** One iteration of the loop at index i: a frame, or one of the three breaks. */
  function ParseStep(q: seq<Byte>, i: nat): Step {
    if i + HEAD_SZ > |q| then Stop
    else if i + HEAD_SZ + 2 > |q| then Stop
    else
      var callSz := U16At(q, i + HEAD_SZ);
      if i + HEAD_SZ + 2 + callSz > |q| then Stop
      else Frame(Visit(i, Request(CallAt(q, i), Slice(q, i + HEAD_SZ + 2, callSz))))
  }

  /** All frames the loop reaches from index i on. */
  function Parse(q: seq<Byte>, i: nat): seq<Visit>
    decreases |q| - i
  {
    match ParseStep(q, i)
    case Stop => []
    case Frame(v) => [v] + Parse(q, v.End())
  }

  /** Where the loop stops. */
  function ParseEnd(q: seq<Byte>, i: nat): nat
    decreases |q| - i
  {
    match ParseStep(q, i)
    case Stop => i
    case Frame(v) => ParseEnd(q, v.End())
  }

  function RequestsOf(visits: seq<Visit>): seq<Request> {
    if visits == [] then [] else [visits[0].request] + RequestsOf(visits[1..])
  }

  /** The requests that reach a handler: those whose method is in the service map. */
  function Known(fnMap: set<UInt16>, rs: seq<Request>): seq<Request> {
    if rs == [] then []
    else (if rs[0].call.methodId in fnMap then [rs[0]] else []) + Known(fnMap, rs[1..])
  }

  /** The log after the given requests were pushed. */
  function Wire(rs: seq<Request>): seq<Byte> {
    if rs == [] then [] else FrameBytes(rs[0]) + Wire(rs[1..])
  }

  predicate AllSendable(rs: seq<Request>) {
    forall j | 0 <= j < |rs| :: Sendable(rs[j])
  }

  lemma {:induction false} WireSnoc(rs: seq<Request>, r: Request)
    ensures Wire(rs + [r]) == Wire(rs) + FrameBytes(r)
  {
    if rs == [] {
      assert [] + [r] == [r] && [r][1..] == [];
      assert Wire([r]) == FrameBytes(r) + Wire([]) == FrameBytes(r) + [];
    } else {
      WireSnoc(rs[1..], r);
      assert (rs + [r])[1..] == rs[1..] + [r];
    }
  }

  /** The first frame of a wired log, and the log behind it. */
  lemma {:induction false} StepOnWire(q: seq<Byte>, i: nat, rs: seq<Request>)
    requires rs != [] && AllSendable(rs)
    requires Holds(q, i, Wire(rs))
    ensures ParseStep(q, i) == Frame(Visit(i, rs[0]))
    ensures Holds(q, i + |FrameBytes(rs[0])|, Wire(rs[1..]))
    ensures |Wire(rs)| == |FrameBytes(rs[0])| + |Wire(rs[1..])|
  {
    HoldsConcat(q, i, FrameBytes(rs[0]), Wire(rs[1..]));
    FrameHolds(q, i, rs[0]);
  }

  /** Framing round trip: on the concatenation of any frames the loop visits exactly those
      frames, in order, and stops at the end of the queue. */
  lemma {:induction false} ParseOnWire(q: seq<Byte>, i: nat, rs: seq<Request>)
    requires AllSendable(rs)
    requires Holds(q, i, Wire(rs)) && i + |Wire(rs)| == |q|
    ensures RequestsOf(Parse(q, i)) == rs
    ensures ParseEnd(q, i) == |q|
    decreases |rs|
  {
    if rs != [] {
      StepOnWire(q, i, rs);
      var v := Visit(i, rs[0]);
      ParseOnWire(q, v.End(), rs[1..]);
      ParseUnfold(q, i, v);
      assert rs == [rs[0]] + rs[1..];
    }
  }

  lemma {:induction false} ParseUnfold(q: seq<Byte>, i: nat, v: Visit)
    requires ParseStep(q, i) == Frame(v)
    ensures RequestsOf(Parse(q, i)) == [v.request] + RequestsOf(Parse(q, v.End()))
    ensures ParseEnd(q, i) == ParseEnd(q, v.End())
  {
    assert Parse(q, i) == [v] + Parse(q, v.End());
    assert Parse(q, i)[1..] == Parse(q, v.End());
  }

  /** The server's queue is a copy of the log, so the loop recovers the pushed requests. */
  lemma {:induction false} FramingRoundTrip(rs: seq<Request>)
    requires AllSendable(rs)
    ensures RequestsOf(Parse(Wire(rs), 0)) == rs
    ensures ParseEnd(Wire(rs), 0) == |Wire(rs)|
  {
    SliceIs(Wire(rs), 0, |Wire(rs)|);
    ParseOnWire(Wire(rs), 0, rs);
  }

  /** The size field that deserialize keeps is the size the loop reads again if and only if the
      frame fits the slot. The loop hands on the arguments either way: the comment in
      deserialize, that an oversized call is dispatched with an empty argument list, does not
      describe it. */
  lemma {:induction false} ClampAgreesIff(slotSz: SlotSize, q: seq<Byte>, i: nat, r: Request)
    requires Sendable(r) && Holds(q, i, FrameBytes(r))
    ensures i + HEAD_SZ + 2 <= |q|
    ensures Clamped(slotSz, U16At(q, i + HEAD_SZ)) == |r.args| <==> |FrameBytes(r)| <= slotSz
    ensures ParseStep(q, i) == Frame(Visit(i, r))
  {
    FrameHolds(q, i, r);
  }

  // ----- arbitrary bytes -----

  /** On any bytes: frames lie inside the queue, follow one another without overlap, and carry
      the bytes that stand where they were found. */
  lemma {:induction false} VisitsAreDisjoint(q: seq<Byte>, i: nat)
    ensures forall j | 0 <= j < |Parse(q, i)| ::
      var v := Parse(q, i)[j];
      i <= v.at && v.End() <= ParseEnd(q, i) && v.End() <= |q| && ParseStep(q, v.at) == Frame(v)
    ensures forall j, k | 0 <= j < k < |Parse(q, i)| :: Parse(q, i)[j].End() <= Parse(q, i)[k].at
    ensures i <= ParseEnd(q, i) && (i <= |q| ==> ParseEnd(q, i) <= |q|)
    decreases |q| - i
  {
    if ParseStep(q, i).Frame? {
      var v := ParseStep(q, i).visit;
      VisitsAreDisjoint(q, v.End());
      assert Parse(q, i) == [v] + Parse(q, v.End());
    }
  }

  /** Every header read stays inside the queue, from index i on. */
  predicate HeadersInside(q: seq<Byte>, i: nat)
    decreases |q| - i
  {
    i + HEAD_SZ <= |q| ==>
      && i + HEAD_SZ + 2 <= |q|
      && (ParseStep(q, i).Frame? ==> HeadersInside(q, ParseStep(q, i).visit.End()))
  }

  /** The loop checks for a 14-byte header but reads 16 bytes: the header reads stay inside the
      queue if and only if it does not stop 14 or 15 bytes before the end. */
  lemma {:induction false} HeadersInsideIff(q: seq<Byte>, i: nat)
    ensures HeadersInside(q, i) <==> |q| - ParseEnd(q, i) != HEAD_SZ && |q| - ParseEnd(q, i) != HEAD_SZ + 1
    decreases |q| - i
  {
    if ParseStep(q, i).Frame? {
      HeadersInsideIff(q, ParseStep(q, i).visit.End());
    }
  }

  /** On any bytes the loop loses nothing: the frames it found, written again, are the bytes it
      went over. */
  lemma {:induction false} NothingIsLost(q: seq<Byte>, i: nat)
    requires i <= |q|
    ensures i <= ParseEnd(q, i) <= |q| && AllSendable(RequestsOf(Parse(q, i)))
    ensures Wire(RequestsOf(Parse(q, i))) == Slice(q, i, ParseEnd(q, i) - i)
    decreases |q| - i
  {
    if ParseStep(q, i).Frame? {
      var v := ParseStep(q, i).visit;
      NothingIsLost(q, v.End());
      ParseUnfold(q, i, v);
      FrameWritten(q, i, |v.request.args|);
      SliceConcat(q, i, v.End() - i, ParseEnd(q, i) - v.End());
      WireCons(v.request, RequestsOf(Parse(q, v.End())));
    }
  }

  lemma {:induction false} WireCons(r: Request, rs: seq<Request>)
    ensures Wire([r] + rs) == FrameBytes(r) + Wire(rs)
  {
    assert ([r] + rs)[1..] == rs;
  }

  /** Behind a wired log, fewer than 16 bytes stop the loop. */
  lemma {:induction false} EndOnWire(q: seq<Byte>, i: nat, rs: seq<Request>)
    requires AllSendable(rs) && Holds(q, i, Wire(rs)) && |q| < i + |Wire(rs)| + HEAD_SZ + 2
    ensures ParseEnd(q, i) == i + |Wire(rs)|
    decreases |rs|
  {
    if rs != [] {
      StepOnWire(q, i, rs);
      EndOnWire(q, i + |FrameBytes(rs[0])|, rs[1..]);
    }
  }

  /** Exactly which queues are read outside: whole frames followed by 14 or 15 bytes. */
  lemma {:induction false} ReadOutsideIff(q: seq<Byte>)
    ensures !HeadersInside(q, 0) <==>
      exists rs, rest :: AllSendable(rs) && q == Wire(rs) + rest && HEAD_SZ <= |rest| <= HEAD_SZ + 1
  {
    HeadersInsideIff(q, 0);
    if !HeadersInside(q, 0) {
      var end := ParseEnd(q, 0);
      NothingIsLost(q, 0);
      SliceIs(q, 0, end);
      assert q == Wire(RequestsOf(Parse(q, 0))) + q[end..];
    }
    forall rs, rest | AllSendable(rs) && q == Wire(rs) + rest && HEAD_SZ <= |rest| <= HEAD_SZ + 1
      ensures !HeadersInside(q, 0)
    {
      TailIsReadOutside(q, rs, rest);
    }
  }

  lemma {:induction false} TailIsReadOutside(q: seq<Byte>, rs: seq<Request>, rest: seq<Byte>)
    requires AllSendable(rs) && q == Wire(rs) + rest && HEAD_SZ <= |rest| <= HEAD_SZ + 1
    ensures !HeadersInside(q, 0)
  {
    SliceIs(q, 0, |Wire(rs)|);
    EndOnWire(q, 0, rs);
    HeadersInsideIff(q, 0);
  }

  /** A queue of whole frames is never read outside. */
  lemma {:induction false} FramesAreReadInside(rs: seq<Request>)
    requires AllSendable(rs)
    ensures HeadersInside(Wire(rs), 0)
  {
    FramingRoundTrip(rs);
    HeadersInsideIff(Wire(rs), 0);
  }

  /** A queue of fourteen bytes is. */
  lemma {:induction false} ShortQueueIsReadOutside(q: seq<Byte>)
    requires |q| == HEAD_SZ
    ensures !HeadersInside(q, 0)
  {
  }

  lemma {:induction false} KnownCons(fnMap: set<UInt16>, v: Visit, rest: seq<Visit>)
    ensures Known(fnMap, RequestsOf([v] + rest)) ==
      (if v.request.call.methodId in fnMap then [v.request] else []) + Known(fnMap, RequestsOf(rest))
  {
    assert ([v] + rest)[1..] == rest;
    assert ([v.request] + RequestsOf(rest))[1..] == RequestsOf(rest);
  }
}
