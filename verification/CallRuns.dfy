/** callServer does nothing that the protocol does not: each of its four cases is a run of at most
    four steps of the protocol. */
module CallRuns {
  import opened Bytes
  import opened Codec
  import opened IPCCallModel
  import opened SizePrediction
  import opened CallbackSpaceModel
  import opened Polling
  import opened ClientModel
  import opened Protocol
  import opened Ownership

  function JobOf(call: Call, args: seq<Value>, cb: Option<Waiter>): Job {
    Job(call.callId, call.methodId, call.clientId, EncAll(args), Predicted(args), cb.Some?)
  }

  /** The steps callServer takes as call k, given whether it is refused and whether it gets a slot. */
  function CallSteps(c: Config, k: nat, job: Job, cb: Option<Waiter>, free: Option<nat>): seq<Action> {
    if job.predicted > c.callSz - HEAD_SZ then [Issue(job)]
    else if cb.None? then [Issue(job)] + [Push(k)]
    else if free.None? then [Issue(job)] + [Acquire(k)]
    else [Issue(job)] + [Acquire(k)] + [Enlist(k, cb.value.deadline)] + [Push(k)]
  }

  /** State t is what callServer, as the next call and with the given pending list, leaves of
      state s. */
  ghost predicate Served(c: Config, s: State, t: State, subs: seq<CallbackInfo>, call: Call, args: seq<Value>,
      cb: Option<Waiter>)
    requires |s.slots| <= 0xFFFF
  {
    var k, e := |s.calls|, CallEffect(Effect(Nothing, s.slots, subs, s.log), call, args, cb, c.callSz, c.capacity);
    && t.slots == e.slots && t.log == e.log && |t.calls| == k + 1 && t.calls[..k] == s.calls
    && t.calls[k].job == JobOf(call, args, cb)
    && t.completions == s.completions +
         (match e.verdict
          case Nothing => []
          case FailedInvalidPayload => [(k, InvalidPayload)]
          case FailedTransportFailure => [(k, TransportFailure)])
    && e.subs == subs + (if t.calls[k].phase.Listed? && t.calls[k].phase.slot <= 0xFFFF && cb.Some?
                         then [CallbackInfo(t.calls[k].phase.slot, t.calls[k].phase.deadline, cb.value.id)]
                         else [])
  }

  lemma {:induction false} PredictedNothing()
    ensures Predicted([]) == 0 && EncAll([]) == []
  {
  }

  lemma {:induction false} RefusedIsRun(c: Config, s: State, subs: seq<CallbackInfo>,
      call: Call, args: seq<Value>, cb: Option<Waiter>)
    requires Predicted(args) > c.callSz - HEAD_SZ && |s.slots| <= 0xFFFF
    ensures Enabled(c, s, Issue(JobOf(call, args, cb)))
    ensures Served(c, s, Do(c, s, Issue(JobOf(call, args, cb))), subs, call, args, cb)
  {
    PredictedNothing();
  }

  lemma {:induction false} SilentIsRun(c: Config, s: State, subs: seq<CallbackInfo>,
      call: Call, args: seq<Value>)
    requires Predicted(args) <= c.callSz - HEAD_SZ && |s.slots| <= 0xFFFF
    ensures Enabled(c, s, Issue(JobOf(call, args, None)))
    ensures var s1 := Do(c, s, Issue(JobOf(call, args, None)));
      Enabled(c, s1, Push(|s.calls|)) && Served(c, s, Do(c, s1, Push(|s.calls|)), subs, call, args, None)
  {
  }

  lemma {:induction false} IssueIsRun(c: Config, s: State, call: Call, args: seq<Value>, w: Waiter)
    requires Predicted(args) <= c.callSz - HEAD_SZ && |s.owner| == |s.slots| <= 0xFFFF
    ensures var a := Issue(JobOf(call, args, Some(w)));
      Enabled(c, s, a) && Enabled(c, Do(c, s, a), Acquire(|s.calls|))
    ensures Do(c, s, Issue(JobOf(call, args, Some(w)))) ==
      s.(calls := s.calls + [CallState(JobOf(call, args, Some(w)), Issued, NotReady, None)])
  {
  }

  lemma {:induction false} NoSlotIsRun(c: Config, s: State, subs: seq<CallbackInfo>,
      call: Call, args: seq<Value>, w: Waiter)
    requires Predicted(args) <= c.callSz - HEAD_SZ && |s.owner| == |s.slots| <= 0xFFFF
    requires FirstFree(s.slots, 0).None?
    ensures var s1 := s.(calls := s.calls + [CallState(JobOf(call, args, Some(w)), Issued, NotReady, None)]);
      Enabled(c, s1, Acquire(|s.calls|)) && Served(c, s, Do(c, s1, Acquire(|s.calls|)), subs, call, args, Some(w))
  {
  }

  lemma {:induction false} SlotIsRun(c: Config, s: State, subs: seq<CallbackInfo>,
      call: Call, args: seq<Value>, w: Waiter, i: nat)
    requires Predicted(args) <= c.callSz - HEAD_SZ && |s.owner| == |s.slots| <= 0xFFFF
    requires FirstFree(s.slots, 0) == Some(i)
    ensures var k, job := |s.calls|, JobOf(call, args, Some(w));
      var s1 := s.(calls := s.calls + [CallState(job, Issued, NotReady, None)]);
      && Enabled(c, s1, Acquire(k))
      && var s2 := Do(c, s1, Acquire(k));
         && Enabled(c, s2, Enlist(k, w.deadline))
         && var s3 := Do(c, s2, Enlist(k, w.deadline));
            && Enabled(c, s3, Push(k))
            && Served(c, s, Do(c, s3, Push(k)), subs, call, args, Some(w))
  {
    FirstFreeIsFree(s.slots, 0);
  }

  /** After any run, callServer with any arguments and any pending list is a further run, with the
      same slots and log, the same immediate failure and the same pending entry. */
  lemma {:induction false} CallIsRun(c: Config, run: seq<Action>, subs: seq<CallbackInfo>,
      call: Call, args: seq<Value>, cb: Option<Waiter>)
    requires Exec(c, run).Some?
    ensures var s := Exec(c, run).value;
      var more := CallSteps(c, |s.calls|, JobOf(call, args, cb), cb, FirstFree(s.slots, 0));
      |s.slots| <= 0xFFFF && Exec(c, run + more).Some? && Served(c, s, Exec(c, run + more).value, subs, call, args, cb)
  {
    OwnershipAlways(c, run);
    var s, job := Exec(c, run).value, JobOf(call, args, cb);
    if Predicted(args) > c.callSz - HEAD_SZ {
      RefusedIsRun(c, s, subs, call, args, cb);
      ExecSnoc(c, run, s, Issue(job));
    } else if cb.None? {
      SilentIsRun(c, s, subs, call, args);
      ExecTwo(c, run, s, Issue(job), Push(|s.calls|));
    } else {
      CallbackIsRun(c, run, s, subs, call, args, cb.value);
    }
  }

  lemma {:induction false} ExecFour(c: Config, run: seq<Action>, s: State, w: Action, x: Action, y: Action, z: Action)
    requires Exec(c, run) == Some(s) && Enabled(c, s, w)
    requires Enabled(c, Do(c, s, w), x)
    requires Enabled(c, Do(c, Do(c, s, w), x), y)
    requires Enabled(c, Do(c, Do(c, Do(c, s, w), x), y), z)
    ensures Exec(c, run + ([w] + [x] + [y] + [z])) == Some(Do(c, Do(c, Do(c, Do(c, s, w), x), y), z))
  {
    ExecTwo(c, run, s, w, x);
    ExecTwo(c, run + ([w] + [x]), Do(c, Do(c, s, w), x), y, z);
    ExecConcat(c, run, [w] + [x], [y] + [z]);
    assert [w] + [x] + ([y] + [z]) == [w] + [x] + [y] + [z];
  }

  lemma {:induction false} CallbackIsRun(c: Config, run: seq<Action>, s: State, subs: seq<CallbackInfo>,
      call: Call, args: seq<Value>, w: Waiter)
    requires Exec(c, run) == Some(s) && |s.owner| == |s.slots| <= 0xFFFF
    requires Predicted(args) <= c.callSz - HEAD_SZ
    ensures var more := CallSteps(c, |s.calls|, JobOf(call, args, Some(w)), Some(w), FirstFree(s.slots, 0));
      Exec(c, run + more).Some? && Served(c, s, Exec(c, run + more).value, subs, call, args, Some(w))
  {
    var k, job := |s.calls|, JobOf(call, args, Some(w));
    IssueIsRun(c, s, call, args, w);
    if FirstFree(s.slots, 0).None? {
      NoSlotIsRun(c, s, subs, call, args, w);
      ExecTwo(c, run, s, Issue(job), Acquire(k));
    } else {
      SlotIsRun(c, s, subs, call, args, w, FirstFree(s.slots, 0).value);
      ExecFour(c, run, s, Issue(job), Acquire(k), Enlist(k, w.deadline), Push(k));
    }
  }
}
