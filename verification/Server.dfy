/** The server (IServerIPC.h, ServerIPCBase.cpp): draining the request log, splitting and
    dispatching it, and writing replies. */
module ServerModel {
  import opened Bytes
  import opened IPCCallModel
  import opened Framing
  import opened CallSpaceModel
  import opened CallbackSpaceModel

  // The longest log any 16-bit queue and slot size allow.
  const MAX_LOG: nat := 0xFFFF * 0xFFFF

  /** Requests for methods that are not in the service map do not matter: leaving them out of
      the log leaves the dispatched requests the same, so frame alignment is never lost. */
  lemma {:induction false} UnknownMethodsAreSkipped(fnMap: set<UInt16>,
      before: seq<Request>, r: Request, after: seq<Request>)
    requires AllSendable(before) && Sendable(r) && AllSendable(after) && r.call.methodId !in fnMap
    ensures Known(fnMap, RequestsOf(Parse(Wire(before + [r] + after), 0)))
         == Known(fnMap, RequestsOf(Parse(Wire(before + after), 0)))
  {
    FramingRoundTrip(before + [r] + after);
    FramingRoundTrip(before + after);
    KnownSkips(fnMap, before, r, after);
  }

  lemma {:induction false} KnownSkips(fnMap: set<UInt16>, before: seq<Request>, r: Request, after: seq<Request>)
    requires r.call.methodId !in fnMap
    ensures Known(fnMap, before + [r] + after) == Known(fnMap, before + after)
  {
    assert before + [r] + after == before + ([r] + after);
    KnownConcat(fnMap, before, [r] + after);
    KnownConcat(fnMap, before, after);
    assert ([r] + after)[1..] == after;
  }

  lemma {:induction false} KnownConcat(fnMap: set<UInt16>, xs: seq<Request>, ys: seq<Request>)
    ensures Known(fnMap, xs + ys) == Known(fnMap, xs) + Known(fnMap, ys)
    decreases |xs|
  {
    if xs == [] {
      assert xs + ys == ys;
    } else {
      assert (xs + ys)[1..] == xs[1..] + ys;
      KnownConcat(fnMap, xs[1..], ys);
    }
  }

  /** For every queue the log can hold, the 32-bit index sums of the loop do not wrap. */
  lemma {:induction false} IndexDoesNotWrap(i: nat, callSz: UInt16)
    requires i <= MAX_LOG
    ensures Wrap32(i + HEAD_SZ) == i + HEAD_SZ
    ensures Wrap32(i + HEAD_SZ + 2) == i + HEAD_SZ + 2
    ensures Wrap32(i + HEAD_SZ + 2 + callSz) == i + HEAD_SZ + 2 + callSz
  {
  }

  /** What the loop dispatches from index i on. */
  function Rest(fnMap: set<UInt16>, q: seq<Byte>, i: nat): seq<Request> {
    Known(fnMap, RequestsOf(Parse(q, i)))
  }

  lemma {:induction false} DispatchNext(fnMap: set<UInt16>, q: seq<Byte>, i: nat, v: Visit, before: seq<Request>)
    requires ParseStep(q, i) == Frame(v)
    ensures before + Rest(fnMap, q, i) ==
      (if v.request.call.methodId in fnMap then before + [v.request] else before) + Rest(fnMap, q, v.End())
    ensures HeadersInside(q, i) <==> HeadersInside(q, v.End())
    ensures i < v.End() <= |q|
  {
    KnownCons(fnMap, v, Parse(q, v.End()));
  }

  lemma {:induction false} DispatchEnd(fnMap: set<UInt16>, q: seq<Byte>, i: nat)
    requires ParseStep(q, i) == Stop
    ensures Rest(fnMap, q, i) == []
    ensures HeadersInside(q, i) <==> i + HEAD_SZ > |q| || i + HEAD_SZ + 2 <= |q|
  {
  }

  class Server {
    const calls: CallSpace
    const space: CallbackSpace
    const fnMap: set<UInt16>

    ghost predicate Valid()
      reads calls, space.cells
    {
      calls.Valid() && space.Valid() && calls.maxData >= HEAD_SZ + 2
    }

    constructor (calls: CallSpace, space: CallbackSpace, fnMap: set<UInt16>)
      requires calls.Valid() && space.Valid() && calls.maxData >= HEAD_SZ + 2
      ensures Valid() && this.calls == calls && this.space == space && this.fnMap == fnMap
    {
      this.calls := calls;
      this.space := space;
      this.fnMap := fnMap;
    }

    /** The body of the loop at index i: the frame found there, if the loop goes on, and whether
        the header was read inside the queue. */
    method ReadFrame(queue: array<Byte>, i: nat) returns (step: Step, inside: bool)
      requires i < queue.Length <= MAX_LOG && calls.maxData >= HEAD_SZ + 2
      ensures step == ParseStep(queue[..], i)
      ensures inside <==> i + HEAD_SZ > queue.Length || i + HEAD_SZ + 2 <= queue.Length
    {
      IndexDoesNotWrap(i, 0);
      if Wrap32(i + HEAD_SZ) > queue.Length {
        return Stop, true;
      }
      var ipcCall := new IPCCall(calls.maxData, Call(0, 0, 0, 0), 0);
      inside := ipcCall.Deserialize(queue, i);
      if Wrap32(i + HEAD_SZ + 2) > queue.Length {
        return Stop, inside;
      }
      var callSz := U16At(queue[..], i + HEAD_SZ);
      IndexDoesNotWrap(i, callSz);
      if Wrap32(i + HEAD_SZ + 2 + callSz) > queue.Length {
        return Stop, inside;
      }
      SliceIs(queue[..], i + HEAD_SZ + 2, callSz);
      var callData := queue[i + HEAD_SZ + 2..i + HEAD_SZ + 2 + callSz];
      step := Frame(Visit(i, Request(ipcCall.Fields(), callData)));
    }

    /** onReadCallMemory on any bytes: it terminates, hands the handlers exactly the frames that
        Parse finds and whose method is known, in order, and tells whether every header read
        stayed inside the queue. */
    method OnReadCallMemory(queue: array<Byte>) returns (dispatched: seq<Request>, inside: bool)
      requires queue.Length <= MAX_LOG && calls.maxData >= HEAD_SZ + 2
      ensures dispatched == Known(fnMap, RequestsOf(Parse(queue[..], 0)))
      ensures inside <==> HeadersInside(queue[..], 0)
    {
      var i, queueSz := 0, queue.Length;
      dispatched, inside := [], true;
      ghost var q := queue[..];
      while i < queueSz
        invariant 0 <= i <= queueSz && queue[..] == q
        invariant dispatched + Rest(fnMap, q, i) == Rest(fnMap, q, 0)
        invariant inside && HeadersInside(q, i) <==> HeadersInside(q, 0)
        decreases queueSz - i
      {
        var step, ok := ReadFrame(queue, i);
        inside := inside && ok;
        if step.Stop? {
          DispatchEnd(fnMap, q, i);
          return;
        }
        DispatchNext(fnMap, q, i, step.visit, dispatched);
        if step.visit.request.call.methodId in fnMap {
          dispatched := dispatched + [step.visit.request];
        }
        i := step.visit.End();
      }
    }

    /** readMemory: takes the whole log in one locked region, then dispatches it. */
    method ReadMemory() returns (dispatched: seq<Request>, inside: bool)
      requires Valid()
      modifies calls`writeIndex
      ensures Valid() && calls.Log() == []
      ensures dispatched == Known(fnMap, RequestsOf(Parse(old(calls.Log()), 0)))
      ensures inside <==> HeadersInside(old(calls.Log()), 0)
    {
      ghost var log := calls.Log();
      var available := calls.IsDataAvailable();
      if !available {
        return [], true;
      }
      var dataSz := calls.Pop();
      var buffer := new Byte[dataSz](_ => 0);
      forall k | 0 <= k < dataSz {
        buffer[k] := calls.data[k];
      }
      assert buffer[..] == log;
      calls.Clear();
      CapacityBound(calls.maxQueue, calls.maxData);
      dispatched, inside := OnReadCallMemory(buffer);
    }

    /** onCallback: writes a reply, if the call registered a callback. */
    method OnCallback(cbIndex: Option<UInt16>, data: array<Byte>, sz: UInt16)
      requires Valid() && sz <= data.Length
      modifies space.cells
      ensures space.Valid()
      ensures space.Slots() ==
        if cbIndex.None? then old(space.Slots())
        else UpdateSlot(old(space.Slots()), cbIndex.value, data[..sz], space.maxData)
    {
      if cbIndex.None? {
        return;
      }
      space.UpdateCallback(cbIndex.value, data, sz);
    }
  }
}
