/** MemberFnWrapper.h: how a registered method gets its arguments out of a request and its reply
    into a slot; and, with the protocol, whole calls end to end. */
module MemberFnWrapperModel {
  import opened Bytes
  import opened Codec
  import opened Tuple
  import opened IPCCallModel
  import opened Framing
  import opened CallbackSpaceModel
  import opened IPCCallbackModel
  import opened ServerModel
  import opened Protocol
  import opened Fifo
  import opened Matching

  /** The reply-packing lambda. The result says whether the reply was written inside the buffer;
      if not, the source writes past its end, and here no slot is touched. */
  method SendReply(server: Server, cbIndex: UInt16, code: UInt16, msg: seq<Byte>, args: seq<Value>)
    returns (inside: bool)
    requires server.Valid()
    modifies server.space.cells
    ensures server.space.Valid() && (inside <==> |ReplyBytes(code, msg, args)| <= server.space.maxData)
    ensures server.space.Slots()
         == UpdateSlot(old(server.space.Slots()), cbIndex, ReplyBytes(code, msg, args), server.space.maxData)
  {
    if |ReplyBytes(code, msg, args)| > server.space.maxData {
      return false;
    }
    var data := new Byte[server.space.maxData](_ => 0);
    ghost var zeros := data[..];
    var n := IPCCallbackModel.Serialize(data, code, msg, args);
    SpliceIs(zeros, 0, ReplyBytes(code, msg, args));
    assert data[..n] == ReplyBytes(code, msg, args);
    server.OnCallback(Some(cbIndex), data, n);
    return true;
  }

  /** Call arguments end to end: in a log of any frames, the wrapper decodes from the slice of
      frame j exactly the tuple its client encoded, and consumes exactly callSz bytes, if and only
      if the tuple is representable; every tuple that fits a slot is. */
  lemma {:induction false} ArgumentsEndToEnd(rs: seq<Request>, j: nat, ts: seq<Type>, vs: seq<Value>)
    requires AllSendable(rs) && j < |rs| && rs[j].args == EncAll(vs) && Typed(ts, vs)
    ensures var found := RequestsOf(Framing.Parse(Wire(rs), 0));
      && |found| == |rs| && found[j].call == rs[j].call
      && (DecTuple(ts, found[j].args, 0) == Got(vs, |found[j].args|) <==> RepresentableTuple(ts, vs))
    ensures FullSizeAll(vs) <= MAX_SAFE_SLOT ==> RepresentableTuple(ts, vs)
  {
    FramingRoundTrip(rs);
    ArgumentsUnpack(ts, vs);
  }

  lemma {:induction false} ArgumentsUnpack(ts: seq<Type>, vs: seq<Value>)
    requires Typed(ts, vs) && |EncAll(vs)| <= 0xFFFF
    ensures DecTuple(ts, EncAll(vs), 0) == Got(vs, |EncAll(vs)|) <==> RepresentableTuple(ts, vs)
    ensures FullSizeAll(vs) <= MAX_SAFE_SLOT ==> RepresentableTuple(ts, vs)
  {
    WholeHolds(EncAll(vs));
    TupleRoundTripIff(ts, vs, EncAll(vs), 0);
    if FullSizeAll(vs) <= MAX_SAFE_SLOT {
      TupleFits(ts, vs);
    }
  }

  /** In every run of any number of clients and the server, the handler of a call unpacks exactly
      the arguments the client called with, if and only if they are representable. */
  lemma {:induction false} HandlerGetsArguments(c: Config, run: seq<Action>, k: nat, ts: seq<Type>, vs: seq<Value>)
    requires Exec(c, run).Some? && k < |Exec(c, run).value.calls| && Exec(c, run).value.calls[k].progress.Handling?
    requires Exec(c, run).value.calls[k].job.args == EncAll(vs)
    requires Typed(ts, vs)
    ensures DecTuple(ts, Exec(c, run).value.calls[k].progress.args, 0) == Got(vs, |EncAll(vs)|)
      <==> RepresentableTuple(ts, vs)
  {
    FifoAlways(c, run);
    assert RequestInv(c, Exec(c, run).value, k);
    ArgumentsUnpack(ts, vs);
  }

  /** SendReply, whenever it runs, is a step of the protocol: the slots become what it makes them. */
  lemma {:induction false} SendReplyIsRun(c: Config, run: seq<Action>, s: State, k: nat,
      code: UInt16, msg: seq<Byte>, args: seq<Value>)
    requires Exec(c, run) == Some(s) && k < |s.calls| && s.calls[k].progress.Handling?
    requires s.calls[k].job.methodId in c.answering
    ensures var a := Answer(k, ReplyBytes(code, msg, args));
      && Exec(c, run + [a]).Some?
      && Exec(c, run + [a]).value.slots
           == UpdateSlot(s.slots, Carries(s.calls[k]), ReplyBytes(code, msg, args), c.maxReply)
  {
    FifoAlways(c, run);
    assert RequestInv(c, s, k);
    ExecSnoc(c, run, s, Answer(k, ReplyBytes(code, msg, args)));
  }

  /** In every run without timeouts and strays, a callback that is invoked with a reply decodes the code and
      the message, or the arguments, that its own handler replied with, if and only if these are
      representable. */
  lemma {:induction false} CallerGetsReply(c: Config, run: seq<Action>, k: nat, data: seq<Byte>,
      code: UInt16, msg: seq<Byte>, ts: seq<Type>, args: seq<Value>)
    requires Exec(c, run).Some? && NoTimeout(run) && Tidy(c, run) && k < |Exec(c, run).value.calls|
    requires (k, Replied(data)) in Exec(c, run).value.completions
    requires Exec(c, run).value.calls[k].progress == Answered(ReplyBytes(code, msg, args))
    requires Typed(ts, args) && |ReplyBytes(code, msg, args)| <= 0xFFFF
    ensures DecReply(ts, data) == AsSent(code, msg, args) <==> RepresentableReply(code, msg, ts, args)
  {
    RepliesMatch(c, run, k, data);
    ReplyRoundTripIff(code, msg, ts, args);
  }
}
