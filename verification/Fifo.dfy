/** Requests travel in order: the bytes in the log and in the server's copy are the frames of the
    calls accepted and not yet parsed, in the order of acceptance. */
module Fifo {
  import opened Bytes
  import opened IPCCallModel
  import opened Framing
  import opened Protocol

  predicate InRange(calls: seq<CallState>, ks: seq<nat>) {
    forall j | 0 <= j < |ks| :: ks[j] < |calls|
  }

  /** The requests of the given calls. */
  function Reqs(calls: seq<CallState>, ks: seq<nat>): seq<Request>
    requires InRange(calls, ks)
  {
    if ks == [] then [] else [RequestOf(calls[ks[0]])] + Reqs(calls, ks[1..])
  }

  predicate InQueue(p: Progress) {
    p.Sent?
  }

  predicate Parsed(p: Progress) {
    p.Skipped? || p.Handling? || p.Answered?
  }

  /** How far a call's request is agrees with its phase and with what it carries. */
  ghost predicate RequestInv(c: Config, s: State, k: nat)
    requires k < |s.calls|
  {
    var cs := s.calls[k];
    && (InQueue(cs.progress) || Parsed(cs.progress) ==> |cs.job.args| <= 0xFFFF)
    && (cs.phase.Issued? || cs.phase.Holding? <==> cs.progress.NotReady?)
    && (cs.job.hasCb && !cs.phase.Issued? && !cs.progress.Dropped? ==> cs.index.Some?)
    && (cs.progress.Handling? ==>
          && cs.progress.cbIndex == RequestOf(cs).call.cbIndex && cs.progress.args == cs.job.args
          && cs.job.methodId in c.methods)
    && (cs.progress.Skipped? ==> cs.job.methodId !in c.methods)
  }

  /** The order of acceptance: parsed, then in the copy, then in the log, and nobody twice. */
  ghost predicate OrderInv(s: State) {
    && s.accepted == s.parsed + s.inCopy + s.inLog
    && InRange(s.calls, s.parsed) && InRange(s.calls, s.inCopy) && InRange(s.calls, s.inLog)
    && (forall i, j | 0 <= i < j < |s.accepted| :: s.accepted[i] != s.accepted[j])
    && (forall j | 0 <= j < |s.parsed| :: Parsed(s.calls[s.parsed[j]].progress))
    && (forall j | 0 <= j < |s.inCopy| :: InQueue(s.calls[s.inCopy[j]].progress))
    && (forall j | 0 <= j < |s.inLog| :: InQueue(s.calls[s.inLog[j]].progress))
  }

  ghost predicate BytesInv(s: State)
    requires InRange(s.calls, s.parsed) && InRange(s.calls, s.inCopy) && InRange(s.calls, s.inLog)
  {
    && s.log == Wire(Reqs(s.calls, s.inLog))
    && Holds(s.copy, s.pos, Wire(Reqs(s.calls, s.inCopy)))
    && s.pos + |Wire(Reqs(s.calls, s.inCopy))| == |s.copy|
    && s.visited == Reqs(s.calls, s.parsed)
  }

  ghost predicate FifoInv(c: Config, s: State) {
    && (forall k | 0 <= k < |s.calls| :: RequestInv(c, s, k))
    && OrderInv(s) && BytesInv(s)
  }

  // ----- lists of requests -----

  lemma {:induction false} ReqsSnoc(calls: seq<CallState>, ks: seq<nat>, k: nat)
    requires InRange(calls, ks) && k < |calls|
    ensures InRange(calls, ks + [k])
    ensures Reqs(calls, ks + [k]) == Reqs(calls, ks) + [RequestOf(calls[k])]
  {
    if ks == [] {
      assert [] + [k] == [k] && [k][1..] == [];
      assert Reqs(calls, [k]) == [RequestOf(calls[k])] + Reqs(calls, []);
    } else {
      ReqsSnoc(calls, ks[1..], k);
      assert (ks + [k])[1..] == ks[1..] + [k];
    }
  }

  /** Calls that keep their requests keep the list. */
  lemma {:induction false} ReqsKept(calls: seq<CallState>, calls': seq<CallState>, ks: seq<nat>)
    requires InRange(calls, ks) && |calls| <= |calls'|
    requires forall j | 0 <= j < |ks| :: RequestOf(calls'[ks[j]]) == RequestOf(calls[ks[j]])
    ensures InRange(calls', ks) && Reqs(calls', ks) == Reqs(calls, ks)
    decreases |ks|
  {
    if ks != [] {
      ReqsKept(calls, calls', ks[1..]);
    }
  }

  lemma {:induction false} ReqsSendable(c: Config, s: State, ks: seq<nat>)
    requires InRange(s.calls, ks) && forall k | 0 <= k < |s.calls| :: RequestInv(c, s, k)
    requires forall j | 0 <= j < |ks| :: InQueue(s.calls[ks[j]].progress)
    ensures AllSendable(Reqs(s.calls, ks)) && |Reqs(s.calls, ks)| == |ks|
    decreases |ks|
  {
    if ks != [] {
      ReqsSendable(c, s, ks[1..]);
      assert RequestInv(c, s, ks[0]);
    }
  }

  // ----- steps -----

  /** A request that is in the queue or parsed does not change any more. */
  lemma {:induction false} RequestIsFinal(c: Config, s: State, a: Action, k: nat)
    requires Enabled(c, s, a) && k < |s.calls| && RequestInv(c, s, k)
    requires InQueue(s.calls[k].progress) || Parsed(s.calls[k].progress)
    ensures |s.calls| <= |Do(c, s, a).calls|
    ensures RequestOf(Do(c, s, a).calls[k]) == RequestOf(s.calls[k])
  {
    if Quiet(a) {
      QuietKeepsSlots(c, s, a);
    } else {
      OthersKeepIndex(c, s, a, k);
    }
  }

  lemma {:induction false} OthersKeepIndex(c: Config, s: State, a: Action, k: nat)
    requires Enabled(c, s, a) && !Quiet(a) && k < |s.calls| && !s.calls[k].phase.Issued?
    ensures k < |Do(c, s, a).calls|
    ensures Do(c, s, a).calls[k].job == s.calls[k].job && Do(c, s, a).calls[k].index == s.calls[k].index
  {
  }

  lemma {:induction false} ListsAreFinal(c: Config, s: State, a: Action)
    requires FifoInv(c, s) && Enabled(c, s, a)
    ensures var calls := Do(c, s, a).calls;
      && |s.calls| <= |calls|
      && InRange(calls, s.parsed) && Reqs(calls, s.parsed) == Reqs(s.calls, s.parsed)
      && InRange(calls, s.inCopy) && Reqs(calls, s.inCopy) == Reqs(s.calls, s.inCopy)
      && InRange(calls, s.inLog) && Reqs(calls, s.inLog) == Reqs(s.calls, s.inLog)
  {
    var calls := Do(c, s, a).calls;
    LengthGrows(c, s, a);
    forall ks, j | ks in {s.parsed, s.inCopy, s.inLog} && 0 <= j < |ks|
      ensures RequestOf(calls[ks[j]]) == RequestOf(s.calls[ks[j]])
    {
      assert RequestInv(c, s, ks[j]);
      RequestIsFinal(c, s, a, ks[j]);
    }
    ReqsKept(s.calls, calls, s.parsed);
    ReqsKept(s.calls, calls, s.inCopy);
    ReqsKept(s.calls, calls, s.inLog);
  }

  lemma {:induction false} LengthGrows(c: Config, s: State, a: Action)
    requires Enabled(c, s, a)
    ensures |s.calls| <= |Do(c, s, a).calls|
  {
  }

  lemma {:induction false} RequestStep(c: Config, s: State, a: Action, k: nat)
    requires Enabled(c, s, a) && !a.Parse? && k < |Do(c, s, a).calls|
    requires k < |s.calls| ==> RequestInv(c, s, k)
    ensures RequestInv(c, Do(c, s, a), k)
  {
    if Quiet(a) {
      QuietRequestStep(c, s, a, k);
    } else if a.Acquire? {
      AcquireRequestStep(c, s, a.k, k);
    } else {
      OtherRequestStep(c, s, a, k);
    }
  }

  lemma {:induction false} AcquireRequestStep(c: Config, s: State, j: nat, k: nat)
    requires Enabled(c, s, Acquire(j)) && k < |s.calls| && RequestInv(c, s, k)
    ensures k < |DoAcquire(c, s, j).calls| && RequestInv(c, DoAcquire(c, s, j), k)
  {
  }

  lemma {:induction false} QuietRequestStep(c: Config, s: State, a: Action, k: nat)
    requires Enabled(c, s, a) && (a.Push? || a.Drain?) && k < |s.calls| && RequestInv(c, s, k)
    ensures k < |Do(c, s, a).calls| && RequestInv(c, Do(c, s, a), k)
  {
  }

  lemma {:induction false} OtherRequestStep(c: Config, s: State, a: Action, k: nat)
    requires Enabled(c, s, a) && !Quiet(a) && !a.Acquire? && k < |Do(c, s, a).calls|
    requires k < |s.calls| ==> RequestInv(c, s, k)
    ensures RequestInv(c, Do(c, s, a), k)
  {
  }

  /** Actions other than push, drain and parse. */
  lemma {:induction false} OtherStep(c: Config, s: State, a: Action)
    requires FifoInv(c, s) && Enabled(c, s, a) && !Quiet(a)
    ensures FifoInv(c, Do(c, s, a))
  {
    var s' := Do(c, s, a);
    OthersKeepQueue(c, s, a);
    ListsAreFinal(c, s, a);
    forall k: nat | k < |s.calls|
      ensures InQueue(s.calls[k].progress) ==> InQueue(s'.calls[k].progress)
      ensures Parsed(s.calls[k].progress) ==> Parsed(s'.calls[k].progress)
    {
      assert RequestInv(c, s, k);
      OtherProgress(c, s, a, k);
    }
    RequestsStep(c, s, a);
  }

  lemma {:induction false} RequestsStep(c: Config, s: State, a: Action)
    requires Enabled(c, s, a) && !a.Parse? && forall k | 0 <= k < |s.calls| :: RequestInv(c, s, k)
    ensures var s' := Do(c, s, a); forall k | 0 <= k < |s'.calls| :: RequestInv(c, s', k)
  {
    var s' := Do(c, s, a);
    forall k | 0 <= k < |s'.calls| ensures RequestInv(c, s', k) {
      assert k < |s.calls| ==> RequestInv(c, s, k);
      RequestStep(c, s, a, k);
    }
  }

  lemma {:induction false} OtherProgress(c: Config, s: State, a: Action, k: nat)
    requires Enabled(c, s, a) && !Quiet(a) && k < |s.calls| && RequestInv(c, s, k)
    ensures k < |Do(c, s, a).calls|
    ensures InQueue(s.calls[k].progress) ==> InQueue(Do(c, s, a).calls[k].progress)
    ensures Parsed(s.calls[k].progress) ==> Parsed(Do(c, s, a).calls[k].progress)
  {
  }

  lemma {:induction false} PushStep(c: Config, s: State, k: nat)
    requires FifoInv(c, s) && Enabled(c, s, Push(k))
    ensures FifoInv(c, Do(c, s, Push(k)))
  {
    RequestsStep(c, s, Push(k));
    PushOrder(s, DoPush(c, s, k), k);
    ListsAreFinal(c, s, Push(k));
    PushBytes(c, s, k);
  }

  /** A request that is still to be pushed is in none of the lists. */
  lemma {:induction false} NotYetQueued(s: State, k: nat)
    requires OrderInv(s) && k < |s.calls| && s.calls[k].progress.ToPush?
    ensures forall j | 0 <= j < |s.parsed| :: s.parsed[j] != k
    ensures forall j | 0 <= j < |s.inCopy| :: s.inCopy[j] != k
    ensures forall j | 0 <= j < |s.inLog| :: s.inLog[j] != k
    ensures k !in s.accepted
  {
    assert k !in s.parsed && k !in s.inCopy && k !in s.inLog;
  }

  lemma {:induction false} PushOrder(s: State, s': State, k: nat)
    requires OrderInv(s) && k < |s.calls| && s.calls[k].progress.ToPush?
    requires s' == WithProgress(s, k, Sent).(log := s'.log, inLog := s.inLog + [k], accepted := s.accepted + [k])
          || s' == WithProgress(s, k, Dropped)
    ensures OrderInv(s')
  {
    NotYetQueued(s, k);
    if |s'.accepted| > |s.accepted| {
      assert s.parsed + s.inCopy + (s.inLog + [k]) == s.accepted + [k];
      DistinctSnoc(s.accepted, k);
    }
  }

  lemma {:induction false} DistinctSnoc(ks: seq<nat>, k: nat)
    requires k !in ks && forall i, j | 0 <= i < j < |ks| :: ks[i] != ks[j]
    ensures forall i, j | 0 <= i < j < |ks| + 1 :: (ks + [k])[i] != (ks + [k])[j]
  {
    assert forall i | 0 <= i < |ks| :: ks[i] in ks;
  }

  lemma {:induction false} PushBytes(c: Config, s: State, k: nat)
    requires OrderInv(s) && BytesInv(s) && Enabled(c, s, Push(k))
    requires var calls := DoPush(c, s, k).calls;
      && |calls| == |s.calls|
      && InRange(calls, s.parsed) && Reqs(calls, s.parsed) == Reqs(s.calls, s.parsed)
      && InRange(calls, s.inCopy) && Reqs(calls, s.inCopy) == Reqs(s.calls, s.inCopy)
      && InRange(calls, s.inLog) && Reqs(calls, s.inLog) == Reqs(s.calls, s.inLog)
    requires OrderInv(DoPush(c, s, k))
    ensures BytesInv(DoPush(c, s, k))
  {
    var s' := DoPush(c, s, k);
    if s'.accepted != s.accepted {
      ReqsSnoc(s'.calls, s.inLog, k);
      WireSnoc(Reqs(s.calls, s.inLog), RequestOf(s.calls[k]));
    }
  }

  lemma {:induction false} DrainStep(c: Config, s: State)
    requires FifoInv(c, s) && Enabled(c, s, Drain)
    ensures FifoInv(c, Do(c, s, Drain))
  {
    var s' := Do(c, s, Drain);
    forall k | 0 <= k < |s'.calls| ensures RequestInv(c, s', k) {
      assert RequestInv(c, s, k);
    }
    SliceIs(s.log, 0, |s.log|);
    NothingLeft(c, s);
    assert s.parsed + s.inCopy + s.inLog == s.parsed + s.inLog + [];
  }

  /** At the end of the copy no request is left in it. */
  lemma {:induction false} NothingLeft(c: Config, s: State)
    requires FifoInv(c, s)
    ensures s.pos >= |s.copy| <==> s.inCopy == []
  {
    var rs := Reqs(s.calls, s.inCopy);
    ReqsSendable(c, s, s.inCopy);
    if s.inCopy != [] {
      assert |Wire(rs)| == |FrameBytes(rs[0]) + Wire(rs[1..])| > 0;
    }
  }

  /** The parser always finds the next accepted request, unchanged. */
  lemma {:induction false} ParseFinds(c: Config, s: State)
    requires FifoInv(c, s) && Enabled(c, s, Parse)
    ensures s.inCopy != [] && s.inCopy[0] < |s.calls|
    ensures var r := RequestOf(s.calls[s.inCopy[0]]);
      ParseStep(s.copy, s.pos) == Frame(Visit(s.pos, r))
    ensures var rs := Reqs(s.calls, s.inCopy[1..]);
      var pos := Visit(s.pos, RequestOf(s.calls[s.inCopy[0]])).End();
      Holds(s.copy, pos, Wire(rs)) && pos + |Wire(rs)| == |s.copy|
  {
    NothingLeft(c, s);
    var rs := Reqs(s.calls, s.inCopy);
    ReqsSendable(c, s, s.inCopy);
    StepOnWire(s.copy, s.pos, rs);
    assert rs[1..] == Reqs(s.calls, s.inCopy[1..]);
  }

  /** One iteration of the server's loop, as the invariant allows it. */
  ghost function ParseNext(c: Config, s: State): State
    requires s.inCopy != [] && s.inCopy[0] < |s.calls|
  {
    var k := s.inCopy[0];
    var r := RequestOf(s.calls[k]);
    WithProgress(s, k, if r.call.methodId in c.methods then Handling(r.call.cbIndex, r.args) else Skipped)
      .(pos := Visit(s.pos, r).End(), inCopy := s.inCopy[1..], parsed := s.parsed + [k], visited := s.visited + [r])
  }

  lemma {:induction false} ParseIsNext(c: Config, s: State)
    requires FifoInv(c, s) && Enabled(c, s, Parse)
    ensures s.inCopy != [] && s.inCopy[0] < |s.calls| && Do(c, s, Parse) == ParseNext(c, s)
  {
    ParseFinds(c, s);
  }

  lemma {:induction false} ParseStepKeeps(c: Config, s: State)
    requires FifoInv(c, s) && Enabled(c, s, Parse)
    ensures FifoInv(c, Do(c, s, Parse))
  {
    ParseFinds(c, s);
    ParseIsNext(c, s);
    var k, s' := s.inCopy[0], ParseNext(c, s);
    forall j | 0 <= j < |s'.calls| ensures RequestInv(c, s', j) {
      assert RequestInv(c, s, j);
    }
    ParseOrder(c, s);
    ListsAreFinal(c, s, Parse);
    ReqsKept(s.calls, s'.calls, s.inCopy[1..]);
    ReqsSnoc(s'.calls, s.parsed, k);
  }

  lemma {:induction false} ParseOrder(c: Config, s: State)
    requires OrderInv(s) && s.inCopy != []
    ensures OrderInv(ParseNext(c, s))
  {
    var k := s.inCopy[0];
    assert s.parsed + s.inCopy == (s.parsed + [k]) + s.inCopy[1..];
    assert s.accepted[|s.parsed|] == k;
    assert forall j | 0 <= j < |s.parsed| :: s.accepted[j] == s.parsed[j];
    assert forall j | 1 <= j < |s.inCopy| :: s.accepted[|s.parsed| + j] == s.inCopy[j];
    assert forall j | 0 <= j < |s.inLog| :: s.accepted[|s.parsed| + |s.inCopy| + j] == s.inLog[j];
  }

  lemma {:induction false} FifoStep(c: Config, s: State, a: Action)
    requires FifoInv(c, s) && Enabled(c, s, a)
    ensures FifoInv(c, Do(c, s, a))
  {
    match a
    case Push(k) => PushStep(c, s, k);
    case Drain => DrainStep(c, s);
    case Parse => ParseStepKeeps(c, s);
    case _ => OtherStep(c, s, a);
  }

  lemma {:induction false} FifoAlways(c: Config, run: seq<Action>)
    requires Exec(c, run).Some?
    ensures FifoInv(c, Exec(c, run).value)
    decreases |run|
  {
    if run != [] {
      var before, s, a := LastAction(c, run);
      FifoAlways(c, before);
      FifoStep(c, s, a);
    }
  }

  /** As long as a request is left in the copy, the next step of the loop takes it. */
  lemma {:induction false} ParseGoesOn(c: Config, run: seq<Action>, s: State)
    requires Exec(c, run) == Some(s) && s.inCopy != []
    ensures s.inCopy[0] < |s.calls| && Exec(c, run + [Parse]) == Some(ParseNext(c, s))
  {
    FifoAlways(c, run);
    NothingLeft(c, s);
    ParseIsNext(c, s);
    ExecSnoc(c, run, s, Parse);
  }

  /** Exactly once and in order, for every interleaving: what the parser has seen is, frame by
      frame, the requests of the calls parsed; those calls, then the calls whose frames are left
      in the server's copy, then the calls whose frames are in the log, are the accepted pushes
      in order of acceptance; and no call is accepted twice. */
  lemma {:induction false} ExactlyOnceInOrder(c: Config, run: seq<Action>)
    requires Exec(c, run).Some?
    ensures var s := Exec(c, run).value;
      && InRange(s.calls, s.parsed) && InRange(s.calls, s.inCopy) && InRange(s.calls, s.inLog)
      && s.accepted == s.parsed + s.inCopy + s.inLog
      && (forall i, j | 0 <= i < j < |s.accepted| :: s.accepted[i] != s.accepted[j])
      && s.visited == Reqs(s.calls, s.parsed)
      && Holds(s.copy, s.pos, Wire(Reqs(s.calls, s.inCopy)))
      && s.log == Wire(Reqs(s.calls, s.inLog))
  {
    FifoAlways(c, run);
  }

  /** The server never meets a malformed queue: each iteration of its loop finds the next
      accepted request, and a handler runs with exactly the method, index and argument bytes
      that the call put on the wire, if and only if the method is registered. */
  lemma {:induction false} HandlersGetTheirRequest(c: Config, run: seq<Action>)
    requires Exec(c, run).Some? && Enabled(c, Exec(c, run).value, Parse)
    ensures var s := Exec(c, run).value;
      && s.inCopy != [] && s.inCopy[0] < |s.calls|
      && var k := s.inCopy[0];
         var r, s' := RequestOf(s.calls[k]), Do(c, s, Parse);
         && k < |s'.calls| && s'.parsed == s.parsed + [k]
         && s'.calls[k].progress ==
              (if s.calls[k].job.methodId in c.methods then Handling(r.call.cbIndex, s.calls[k].job.args) else Skipped)
  {
    FifoAlways(c, run);
    ParseIsNext(c, Exec(c, run).value);
  }
}
