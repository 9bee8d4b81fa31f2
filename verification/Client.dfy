/** The client (IClientIPC.hpp, ClientIPC.cpp): calls with and without arguments and callbacks,
    the pending list, and the polling pass over it. */
module ClientModel {
  import opened Bytes
  import opened Codec
  import opened IPCCallModel
  import opened SizePrediction
  import opened CallSpaceModel
  import opened CallbackSpaceModel
  import opened Polling

  /** The callback of a call: its closure and the time at which it expires. */
  datatype Waiter = Waiter(id: nat, deadline: int)

  /** How callServer ends for the caller's callback: it was failed at once, or nothing yet. */
  datatype Verdict = Nothing | FailedInvalidPayload | FailedTransportFailure

  /** callServer as a function: the verdict and the slots, pending list and log it leaves. */
  datatype Effect = Effect(verdict: Verdict, slots: seq<Slot>, subs: seq<CallbackInfo>, log: seq<Byte>)

  function Send(e: Effect, call: Call, args: seq<Value>, callSz: SlotSize, capacity: nat): Effect {
    e.(log := PushLog(e.log, FrameBytes(Request(call, EncAll(args))), callSz, capacity).1)
  }

  function CallEffect(before: Effect, call: Call, args: seq<Value>, cb: Option<Waiter>,
      callSz: SlotSize, capacity: nat): Effect
    requires |before.slots| <= 0xFFFF
  {
    if args != [] && !Admitted(args, callSz) then
      before.(verdict := if cb.Some? then FailedInvalidPayload else Nothing)
    else
      match cb
      case None => Send(before.(verdict := Nothing), call.(cbIndex := 0), args, callSz, capacity)
      case Some(w) =>
        match PushSlot(before.slots)
        case (None, _) => before.(verdict := FailedTransportFailure)
        case (Some(i), slots) =>
          FirstFreeIsFree(before.slots, 0);
          Send(Effect(Nothing, slots, before.subs + [CallbackInfo(i, w.deadline, w.id)], before.log),
               call.(cbIndex := i), args, callSz, capacity)
  }

  /** The log after callServer pushed, or did not push, the frame of a request: it is appended if
      it fits a slot and what is left of the log. */
  predicate Logged(before: seq<Byte>, after: seq<Byte>, r: Request, callSz: SlotSize, capacity: nat) {
    var frame := FrameBytes(r);
    after == if |frame| <= callSz && |before| + |frame| <= capacity then before + frame else before
  }

  /** callServer on any pending list, slots and log. A refused call, and one that finds no free
      slot, changes nothing and fails its callback. A call with a callback takes the first free
      slot, i, and appends one entry to the pending list; every call that goes through puts its
      request, with the slot's index or 0, in the log if it fits. */
  lemma {:induction false} CallEffectIs(before: Effect, call: Call, args: seq<Value>, cb: Option<Waiter>,
      callSz: SlotSize, capacity: nat, i: UInt16)
    requires |before.slots| <= 0xFFFF
    ensures var e := CallEffect(before, call, args, cb, callSz, capacity);
      var refused, full := args != [] && !Admitted(args, callSz), AllInUse(before.slots);
      && (e.verdict.FailedInvalidPayload? <==> cb.Some? && refused)
      && (e.verdict.FailedTransportFailure? <==> cb.Some? && !refused && full)
      && (refused || (cb.Some? && full) ==> e == before.(verdict := e.verdict))
      && (cb.None? && !refused ==>
            && e.slots == before.slots && e.subs == before.subs
            && Logged(before.log, e.log, Request(Call(call.callId, call.methodId, call.clientId, 0), EncAll(args)),
                      callSz, capacity))
      && (cb.Some? && !refused && IsFirstFree(before.slots, i) ==>
            && e.slots == before.slots[i := Pending]
            && e.subs == before.subs + [CallbackInfo(i, cb.value.deadline, cb.value.id)]
            && Logged(before.log, e.log, Request(Call(call.callId, call.methodId, call.clientId, i), EncAll(args)),
                      callSz, capacity))
  {
    FirstFreeIsFree(before.slots, 0);
  }

  class Client {
    const calls: CallSpace
    const space: CallbackSpace
    const clientId: UInt16
    var callId: UInt64
    var subs: seq<CallbackInfo>

    ghost predicate Valid()
      reads this, calls, calls.data, space.cells
    {
      calls.Valid() && space.Valid() && calls.maxData >= HEAD_SZ + 2
    }

    /** What callServer reads and changes. */
    ghost function View(): Effect
      requires Valid()
      reads this, calls, calls.data, space.cells
    {
      Effect(Nothing, space.Slots(), subs, calls.Log())
    }

    constructor (calls: CallSpace, space: CallbackSpace, clientId: UInt16)
      requires calls.Valid() && space.Valid() && calls.maxData >= HEAD_SZ + 2
      ensures Valid() && this.calls == calls && this.space == space && subs == [] && callId == 0
      ensures this.clientId == clientId
    {
      this.calls := calls;
      this.space := space;
      this.clientId := clientId;
      this.callId := 0;
      this.subs := [];
    }

    // ----- calling -----

    method PushCallWithNoArgs(methodId: UInt16, callId: UInt64, cbIndex: UInt16)
      requires Valid()
      modifies calls`writeIndex, calls.data
      ensures Valid()
      ensures calls.Log() == PushLog(old(calls.Log()),
                                     FrameBytes(Request(Call(callId, methodId, clientId, cbIndex), [])),
                                     calls.maxData, calls.Capacity()).1
    {
      var buffer := new Byte[calls.maxData](_ => 0);
      var info := new IPCCall(calls.maxData, Call(callId, methodId, clientId, cbIndex), 0);
      ghost var zeros := buffer[..];
      var n := info.Serialize(buffer);
      SpliceIs(zeros, 0, FrameBytes(Request(info.Fields(), [])));
      assert buffer[..n] == FrameBytes(Request(info.Fields(), []));
      var _ := calls.Push(buffer, n);
    }

    /** The result says whether the frame was written inside the buffer; if not, the source writes
        past its end before the log refuses the frame, and here the log is left alone. */
    method PushCallWithArgs(args: seq<Value>, methodId: UInt16, callId: UInt64, cbIndex: UInt16)
      returns (inside: bool)
      requires Valid()
      modifies calls`writeIndex, calls.data
      ensures Valid() && (inside <==> Fits(args, calls.maxData))
      ensures calls.Log() == PushLog(old(calls.Log()),
                                     FrameBytes(Request(Call(callId, methodId, clientId, cbIndex), EncAll(args))),
                                     calls.maxData, calls.Capacity()).1
    {
      if HEAD_SZ + 2 + |EncAll(args)| > calls.maxData {
        return false;
      }
      var buffer := new Byte[calls.maxData](_ => 0);
      var info := new IPCCall(calls.maxData, Call(callId, methodId, clientId, cbIndex), 0);
      ghost var zeros := buffer[..];
      var n := info.SerializeWithArgs(buffer, args);
      SpliceIs(zeros, 0, FrameBytes(Request(info.Fields(), EncAll(args))));
      assert buffer[..n] == FrameBytes(Request(info.Fields(), EncAll(args)));
      var _ := calls.Push(buffer, n);
      return true;
    }

    /** Takes a slot for the callback and lists it as pending. */
    method PushCb(cb: Waiter) returns (cbIndex: Option<UInt16>)
      requires Valid()
      modifies `subs, space.cells
      ensures Valid() && space.Slots() == PushSlot(old(space.Slots())).1
      ensures cbIndex == PushSlot(old(space.Slots())).0
      ensures subs == if cbIndex.None? then old(subs) else old(subs) + [CallbackInfo(cbIndex.value, cb.deadline, cb.id)]
    {
      FirstFreeIsFree(space.Slots(), 0);
      var index := space.PushCallback();
      if index.None? {
        return None;
      }
      subs := subs + [CallbackInfo(index.value, cb.deadline, cb.id)];
      return Some(index.value);
    }

    /** callServer: the four cases of arguments and callback. */
    method CallServer(methodId: UInt16, args: seq<Value>, cb: Option<Waiter>) returns (verdict: Verdict)
      requires Valid()
      modifies this, calls`writeIndex, calls.data, space.cells
      ensures Valid() && callId == (old(callId) + 1) % 0x1_0000_0000_0000_0000
      ensures View().(verdict := verdict)
           == CallEffect(old(View()), Call(callId, methodId, clientId, 0), args, cb, calls.maxData, calls.Capacity())
    {
      callId := (callId + 1) % 0x1_0000_0000_0000_0000;
      verdict := Nothing;
      if args == [] && cb.None? {
        PushCallWithNoArgs(methodId, callId, 0);
        return;
      }
      if args != [] {
        var ok, _ := ValidateCall(args, calls.maxData);
        if !ok {
          return if cb.Some? then FailedInvalidPayload else Nothing;
        }
      }
      if cb.None? {
        var _ := PushCallWithArgs(args, methodId, callId, 0);
        return;
      }
      FirstFreeIsFree(space.Slots(), 0);
      var cbIndex := PushCb(cb.value);
      if cbIndex.None? {
        return FailedTransportFailure;
      }
      if args == [] {
        PushCallWithNoArgs(methodId, callId, cbIndex.value);
      } else {
        var _ := PushCallWithArgs(args, methodId, callId, cbIndex.value);
      }
    }

    // ----- polling -----

    /** The entry's reply, if it is ready: popped and copied in one locked region. */
    method TakeReply(cbIndex: UInt16) returns (data: Option<seq<Byte>>)
      requires space.Valid()
      modifies space.cells
      ensures space.Valid() && (data, space.Slots()) == PopSlot(old(space.Slots()), cbIndex)
    {
      data := None;
      var available := space.IsCallbackAvailable(cbIndex);
      if available {
        var view := space.PopCallback(cbIndex);
        if view.Some? {
          data := Some(space.ViewData(view.value));
        }
      }
    }

    /** One iteration at entry n of the list the pass began with, with the entries kept so far in
        front of it: the entry is erased and its closure returned, or it is left in place. */
    method VisitEntry(itr: nat, look: Look, ghost kept: seq<CallbackInfo>, ghost all: seq<CallbackInfo>, ghost n: nat)
      returns (callback: Option<Task>)
      requires space.Valid() && n < |all| && subs == kept + all[n..] && itr == |kept|
      modifies `subs, space.cells
      ensures space.Valid() && (callback, space.Slots()) == Visit(all[n], look, old(space.Slots()))
      ensures subs == (if callback.Some? then kept else kept + [all[n]]) + all[n + 1..]
    {
      AtIterator(kept, all, n);
      var sub := subs[itr];
      callback := None;
      if IsExpired(sub.timeout, look.now, look.active) {
        callback := Some(TimedOut(sub));
        subs := subs[..itr] + subs[itr + 1..];
      } else {
        var data := TakeReply(sub.cbIndex);
        if data.Some? {
          callback := Some(GotReply(sub, data.value));
          subs := subs[..itr] + subs[itr + 1..];
        }
      }
    }

    /** The pass: `looks` are the readings of the clock and of m_isActive, one per entry. */
    method Poll(looks: seq<Look>) returns (callbacks: seq<Task>)
      requires space.Valid() && |subs| <= |looks|
      modifies `subs, space.cells
      ensures space.Valid()
      ensures Pass(subs, callbacks, space.Slots())
           == PassOver(old(subs), looks, old(space.Slots()), |old(subs)|)
    {
      callbacks := [];
      var itr, n := 0, 0;
      ghost var all, slots := subs, space.Slots();
      ghost var p := PassOver(all, looks, slots, 0);
      assert p.kept + all[0..] == all;
      while itr < |subs|
        invariant space.Valid() && 0 <= n <= |all| && p == PassOver(all, looks, slots, n)
        invariant subs == p.kept + all[n..] && itr == |p.kept| && callbacks == p.tasks && space.Slots() == p.slots
        decreases |all| - n
      {
        var callback := VisitEntry(itr, looks[n], p.kept, all, n);
        if callback.Some? {
          callbacks := callbacks + [callback.value];
        } else {
          itr := itr + 1;
        }
        n := n + 1;
        p := PassOver(all, looks, slots, n);
      }
      assert p.kept + all[|all|..] == p.kept;
    }

    /** The closures, run after the list's lock is released. An expired one frees its slot and
        fails; the others hand on their reply. */
    method RunCallbacks(callbacks: seq<Task>) returns (invoked: seq<(nat, Option<seq<Byte>>)>)
      requires space.Valid()
      modifies space.cells
      ensures space.Valid() && space.Slots() == RunAll(callbacks, old(space.Slots()), |callbacks|)
      ensures |invoked| == |callbacks| && forall k | 0 <= k < |callbacks| :: invoked[k] == InvocationOf(callbacks[k])
    {
      invoked := [];
      for n := 0 to |callbacks|
        invariant space.Valid() && space.Slots() == RunAll(callbacks, old(space.Slots()), n)
        invariant |invoked| == n && forall k | 0 <= k < n :: invoked[k] == InvocationOf(callbacks[k])
      {
        match callbacks[n] {
          case TimedOut(sub) =>
            space.ClearCallback(sub.cbIndex);
            invoked := invoked + [(sub.id, None)];
          case GotReply(sub, data) =>
            invoked := invoked + [(sub.id, Some(data))];
        }
      }
    }
  }
}
