/** The call and reply protocol: any number of clients and one server over the shared request
    log and reply slots. Every region between lock() and unlock(), and every purely local step,
    is one action; a run is any sequence of enabled actions. */
module Protocol {
  import opened Bytes
  import opened IPCCallModel
  import opened Framing
  import opened CallSpaceModel
  import opened CallbackSpaceModel

  // ----- states -----

  /** The sizes of the two spaces, the methods the server has registered, and those among them
      whose wrapper replies: methods with a callback or a return value. */
  datatype Config = Config(
    queueSize: UInt16, maxReply: UInt16, callSz: SlotSize, capacity: nat,
    methods: set<UInt16>, answering: set<UInt16>)

  /** What callServer is given. `predicted` is the 16-bit argument size validateCall computes;
      the call has a callback or none. */
  datatype Job = Job(
    callId: UInt64, methodId: UInt16, clientId: UInt16, args: seq<Byte>, predicted: UInt16, hasCb: bool)

  datatype Outcome = InvalidPayload | TransportFailure | Timeout | Replied(data: seq<Byte>)

  /** How far the client is with a call's callback. */
  datatype Phase =
    | NoCallback
    | Issued                              // before pushCallback
    | Holding(slot: nat)                  // between pushCallback and the pending list
    | Listed(slot: nat, deadline: int)    // in the pending list
    | Expired(slot: nat)                  // erased as expired, closure not yet run
    | Popped(data: seq<Byte>)             // erased with a reply, closure not yet run
    | Completed(at: nat)                  // the callback was invoked: entry `at` of the history

  /** How far a call's request is. */
  datatype Progress =
    | NotReady                            // the slot is not yet enlisted
    | ToPush
    | Dropped                             // validateCall or the log refused it
    | Sent                                // in the log or in the server's copy
    | Skipped                             // parsed, but the method is unknown
    | Handling(cbIndex: nat, args: seq<Byte>)
    | Answered(data: seq<Byte>)

  /** One call. `index` is the slot its request carries. */
  datatype CallState = CallState(job: Job, phase: Phase, progress: Progress, index: Option<UInt16>)

  /** Shared memory (slots, log), the server's private copy with its parse position, and all
      calls ever issued. The rest is history: who holds each slot, which calls' frames are in
      the log and in the copy, which were accepted and parsed, what the parser saw, and every
      invocation of a callback. */
  datatype State = State(
    slots: seq<Slot>, log: seq<Byte>, copy: seq<Byte>, pos: nat, calls: seq<CallState>,
    owner: seq<Option<nat>>, inLog: seq<nat>, inCopy: seq<nat>, accepted: seq<nat>, parsed: seq<nat>,
    visited: seq<Request>, completions: seq<(nat, Outcome)>)

  function Init(c: Config): State {
    State(seq(c.queueSize, _ => NoData), [], [], 0, [], seq(c.queueSize, _ => None), [], [], [], [], [], [])
  }

  /** The request a call puts on the wire: without a callback it carries index 0. */
  function RequestOf(cs: CallState): Request {
    Request(Call(cs.job.callId, cs.job.methodId, cs.job.clientId, if cs.index.Some? then cs.index.value else 0),
            cs.job.args)
  }

  predicate Owns(cs: CallState) {
    cs.phase.Holding? || cs.phase.Listed? || cs.phase.Expired?
  }

  /** The slot index on the wire. */
  function Carries(cs: CallState): UInt16 {
    RequestOf(cs).call.cbIndex
  }

  /** A request that is not yet refused, skipped or answered; with a callback, one that has its
      slot. */
  predicate Outstanding(cs: CallState) {
    && (cs.job.hasCb ==> cs.index.Some?)
    && (cs.progress.NotReady? || cs.progress.ToPush? || cs.progress.Sent? || cs.progress.Handling?)
  }

  // ----- actions -----

  datatype Action =
    | Issue(job: Job)                             // callServer up to validateCall
    | Acquire(k: nat)                             // pushCb: pushCallback
    | Enlist(k: nat, deadline: int)               // pushCb: append to the pending list
    | Push(k: nat)                                // pushCallWithNoArgs, pushCallWithArgs
    | Drain                                       // readMemory: copy the log and clear it
    | Parse                                       // one iteration of onReadCallMemory
    | Answer(k: nat, data: seq<Byte>)             // a handler replies: onCallback
    | Expire(k: nat, now: int, active: bool)      // polling pass: an expired entry
    | Collect(k: nat, now: int)                   // polling pass: an entry whose reply is ready
    | RunExpired(k: nat)                          // an expired closure runs
    | RunReply(k: nat)                            // a reply closure runs

  /** The client's own steps for call k. */
  predicate ClientStep(a: Action, k: nat) {
    match a
    case Acquire(j) => j == k
    case Enlist(j, _) => j == k
    case Push(j) => j == k
    case Expire(j, _, _) => j == k
    case Collect(j, _) => j == k
    case RunExpired(j) => j == k
    case RunReply(j) => j == k
    case _ => false
  }

  predicate Enabled(c: Config, s: State, a: Action) {
    match a
    case Issue(_) => true
    case Acquire(k) => k < |s.calls| && s.calls[k].phase.Issued? && |s.slots| <= 0xFFFF && |s.owner| == |s.slots|
    case Enlist(k, _) => k < |s.calls| && s.calls[k].phase.Holding?
    case Push(k) => k < |s.calls| && s.calls[k].progress.ToPush?
    case Drain => s.pos >= |s.copy| && s.log != []
    case Parse => s.pos < |s.copy|
    case Answer(k, _) =>
      k < |s.calls| && s.calls[k].progress.Handling? && s.calls[k].job.methodId in c.answering
    case Expire(k, now, active) =>
      k < |s.calls| && s.calls[k].phase.Listed? && IsExpired(s.calls[k].phase.deadline, now, active)
    case Collect(k, now) =>
      && k < |s.calls| && s.calls[k].phase.Listed? && !IsExpired(s.calls[k].phase.deadline, now, true)
      && PopSlot(s.slots, s.calls[k].phase.slot).0.Some?
    case RunExpired(k) => k < |s.calls| && s.calls[k].phase.Expired?
    case RunReply(k) => k < |s.calls| && s.calls[k].phase.Popped?
  }

  function WithPhase(s: State, k: nat, p: Phase): State
    requires k < |s.calls|
  {
    s.(calls := s.calls[k := s.calls[k].(phase := p)])
  }

  function WithProgress(s: State, k: nat, p: Progress): State
    requires k < |s.calls|
  {
    s.(calls := s.calls[k := s.calls[k].(progress := p)])
  }

  /** The callback of call k is invoked. */
  function Complete(s: State, k: nat, o: Outcome): State
    requires k < |s.calls|
  {
    WithPhase(s, k, Completed(|s.completions|)).(completions := s.completions + [(k, o)])
  }

  function Release(owner: seq<Option<nat>>, i: nat): seq<Option<nat>> {
    if i < |owner| then owner[i := None] else owner
  }

  /** callServer: an oversized call fails at once; a call with a callback needs a slot first. */
  function DoIssue(c: Config, s: State, job: Job): State {
    var k := |s.calls|;
    if job.predicted > c.callSz - HEAD_SZ then
      if job.hasCb then
        Complete(s.(calls := s.calls + [CallState(job, Issued, Dropped, None)]), k, InvalidPayload)
      else s.(calls := s.calls + [CallState(job, NoCallback, Dropped, None)])
    else if job.hasCb then s.(calls := s.calls + [CallState(job, Issued, NotReady, None)])
    else s.(calls := s.calls + [CallState(job, NoCallback, ToPush, None)])
  }

  function DoAcquire(c: Config, s: State, k: nat): State
    requires Enabled(c, s, Acquire(k))
  {
    FirstFreeIsFree(s.slots, 0);
    match FirstFree(s.slots, 0)
    case None => WithProgress(Complete(s, k, TransportFailure), k, Dropped)
    case Some(i) =>
      s.(slots := PushSlot(s.slots).1,
         owner := s.owner[i := Some(k)],
         calls := s.calls[k := s.calls[k].(phase := Holding(i), index := Some(i))])
  }

  function DoPush(c: Config, s: State, k: nat): State
    requires Enabled(c, s, Push(k))
  {
    var (ok, log) := PushLog(s.log, FrameBytes(RequestOf(s.calls[k])), c.callSz, c.capacity);
    if ok then
      WithProgress(s, k, Sent).(log := log, inLog := s.inLog + [k], accepted := s.accepted + [k])
    else WithProgress(s, k, Dropped)
  }

  function DoParse(c: Config, s: State): State {
    match ParseStep(s.copy, s.pos)
    case Stop => s.(pos := |s.copy|, inCopy := [])
    case Frame(v) =>
      var s' := s.(pos := v.End(), visited := s.visited + [v.request]);
      if s.inCopy == [] then s'
      else
        var k := s.inCopy[0];
        var s'' := s'.(inCopy := s.inCopy[1..], parsed := s.parsed + [k]);
        if k >= |s.calls| then s''
        else if v.request.call.methodId in c.methods then
          WithProgress(s'', k, Handling(v.request.call.cbIndex, v.request.args))
        else WithProgress(s'', k, Skipped)
  }

  function Do(c: Config, s: State, a: Action): State
    requires Enabled(c, s, a)
  {
    match a
    case Issue(job) => DoIssue(c, s, job)
    case Acquire(k) => DoAcquire(c, s, k)
    case Enlist(k, deadline) =>
      WithProgress(WithPhase(s, k, Listed(s.calls[k].phase.slot, deadline)), k, ToPush)
    case Push(k) => DoPush(c, s, k)
    case Drain => s.(log := [], inLog := [], copy := s.log, pos := 0, inCopy := s.inLog)
    case Parse => DoParse(c, s)
    case Answer(k, data) =>
      WithProgress(s, k, Answered(data))
        .(slots := UpdateSlot(s.slots, s.calls[k].progress.cbIndex, data, c.maxReply))
    case Expire(k, _, _) => WithPhase(s, k, Expired(s.calls[k].phase.slot))
    case Collect(k, _) =>
      var (o, slots) := PopSlot(s.slots, s.calls[k].phase.slot);
      WithPhase(s, k, Popped(o.value)).(slots := slots, owner := Release(s.owner, s.calls[k].phase.slot))
    case RunExpired(k) =>
      Complete(s, k, Timeout)
        .(slots := ClearSlot(s.slots, s.calls[k].phase.slot), owner := Release(s.owner, s.calls[k].phase.slot))
    case RunReply(k) => Complete(s, k, Replied(s.calls[k].phase.data))
  }

  /** The state after a run, if every action was enabled when it was taken. The last action is a
      function of its own, so that a mention of Exec does not bring the actions into a proof. */
  function Exec(c: Config, run: seq<Action>): Option<State>
    decreases |run|, 1
  {
    if run == [] then Some(Init(c)) else ExecLast(c, run)
  }

  function ExecLast(c: Config, run: seq<Action>): Option<State>
    requires run != []
    decreases |run|, 0
  {
    match Exec(c, run[..|run| - 1])
    case None => None
    case Some(s) => if Enabled(c, s, run[|run| - 1]) then Some(Do(c, s, run[|run| - 1])) else None
  }

  /** A run, taken apart at its last action. */
  lemma {:induction false} LastAction(c: Config, run: seq<Action>) returns (before: seq<Action>, s: State, a: Action)
    requires Exec(c, run).Some? && run != []
    ensures before == run[..|run| - 1] && a == run[|run| - 1]
    ensures Exec(c, before) == Some(s) && Enabled(c, s, a) && Exec(c, run) == Some(Do(c, s, a))
  {
    assert Exec(c, run) == ExecLast(c, run);
    before, a := run[..|run| - 1], run[|run| - 1];
    s := Exec(c, before).value;
  }

  lemma {:induction false} ExecSnoc(c: Config, run: seq<Action>, s: State, a: Action)
    requires Exec(c, run) == Some(s) && Enabled(c, s, a)
    ensures Exec(c, run + [a]) == Some(Do(c, s, a))
  {
    assert (run + [a])[..|run|] == run;
    assert Exec(c, run + [a]) == ExecLast(c, run + [a]);
  }

  lemma {:induction false} ExecTwo(c: Config, run: seq<Action>, s: State, a: Action, b: Action)
    requires Exec(c, run) == Some(s) && Enabled(c, s, a) && Enabled(c, Do(c, s, a), b)
    ensures Exec(c, run + ([a] + [b])) == Some(Do(c, Do(c, s, a), b))
  {
    ExecSnoc(c, run, s, a);
    ExecSnoc(c, run + [a], Do(c, s, a), b);
    assert run + [a] + [b] == run + ([a] + [b]);
  }

  lemma {:induction false} ExecThree(c: Config, run: seq<Action>, s: State, x: Action, y: Action, z: Action)
    requires Exec(c, run) == Some(s) && Enabled(c, s, x) && Enabled(c, Do(c, s, x), y)
    requires Enabled(c, Do(c, Do(c, s, x), y), z)
    ensures Exec(c, run + ([x] + [y] + [z])) == Some(Do(c, Do(c, Do(c, s, x), y), z))
  {
    ExecTwo(c, run, s, x, y);
    ExecSnoc(c, run + ([x] + [y]), Do(c, Do(c, s, x), y), z);
    ExecConcat(c, run, [x] + [y], [z]);
  }

  /** A run in three pieces, joined the other way. */
  lemma {:induction false} ExecConcat(c: Config, run: seq<Action>, first: seq<Action>, rest: seq<Action>)
    ensures Exec(c, run + (first + rest)) == Exec(c, run + first + rest)
  {
    assert run + (first + rest) == run + first + rest;
  }

  /** A run with a continuation, taken apart at its last action. */
  lemma {:induction false} LastOfMore(c: Config, run: seq<Action>, more: seq<Action>)
      returns (before: seq<Action>, s: State, a: Action)
    requires Exec(c, run + more).Some? && more != []
    ensures before == more[..|more| - 1] && a == more[|more| - 1]
    ensures Exec(c, run + before) == Some(s) && Enabled(c, s, a) && Exec(c, run + more) == Some(Do(c, s, a))
  {
    var all;
    all, s, a := LastAction(c, run + more);
    before := more[..|more| - 1];
    assert all == run + before;
  }

  // ----- what actions leave alone -----

  /** Actions on the request log and the server's copy. */
  predicate Quiet(a: Action) {
    a.Push? || a.Drain? || a.Parse?
  }

  /** Nothing changed but the log, the copy and how far requests are. */
  ghost predicate SlotsKept(s: State, s': State) {
    && s'.slots == s.slots && s'.owner == s.owner && s'.completions == s.completions
    && |s'.calls| == |s.calls|
    && forall k | 0 <= k < |s.calls| :: s'.calls[k] == s.calls[k].(progress := s'.calls[k].progress)
  }

  lemma {:induction false} QuietKeepsSlots(c: Config, s: State, a: Action)
    requires Enabled(c, s, a) && Quiet(a)
    ensures SlotsKept(s, Do(c, s, a))
  {
  }

  /** Nothing changed in the log, the copy and their histories; old calls keep their requests. */
  ghost predicate QueueKept(s: State, s': State) {
    && s'.log == s.log && s'.copy == s.copy && s'.pos == s.pos && s'.inLog == s.inLog && s'.inCopy == s.inCopy
    && s'.accepted == s.accepted && s'.parsed == s.parsed && s'.visited == s.visited
    && |s.calls| <= |s'.calls|
    && forall k | 0 <= k < |s.calls| :: s'.calls[k].job == s.calls[k].job
  }

  lemma {:induction false} OthersKeepQueue(c: Config, s: State, a: Action)
    requires Enabled(c, s, a) && !Quiet(a)
    ensures QueueKept(s, Do(c, s, a))
  {
  }
}
