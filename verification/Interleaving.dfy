/** The client's code runs in several locked regions, and others act between them. Here the regions
    of one call, one polling pass and one reply are steps of the protocol with any steps of others
    in between. */
module Interleaving {
  import opened Bytes
  import opened IPCCallModel
  import opened CallSpaceModel
  import opened CallbackSpaceModel
  import opened Polling
  import opened PollingRuns
  import opened Protocol
  import opened Ownership
  import opened Fifo

  // ----- callServer -----

  /** Steps of other calls, of the server and of handlers. */
  predicate NotOf(run: seq<Action>, k: nat) {
    forall j | 0 <= j < |run| :: !ClientStep(run[j], k)
  }

  /** Until its request is pushed, nobody else touches a call. */
  lemma {:induction false} OthersStep(c: Config, s: State, a: Action, k: nat)
    requires Enabled(c, s, a) && !ClientStep(a, k) && k < |s.calls|
    requires s.calls[k].progress.NotReady? || s.calls[k].progress.ToPush?
    requires a.Parse? ==> FifoInv(c, s)
    ensures k < |Do(c, s, a).calls| && Do(c, s, a).calls[k] == s.calls[k]
  {
    if a.Parse? {
      ParseIsNext(c, s);
      assert InQueue(s.calls[s.inCopy[0]].progress);
    }
  }

  lemma {:induction false} OthersLeaveCall(c: Config, run: seq<Action>, s: State, gap: seq<Action>, t: State, k: nat)
    requires Exec(c, run) == Some(s) && Exec(c, run + gap) == Some(t) && NotOf(gap, k) && k < |s.calls|
    requires s.calls[k].progress.NotReady? || s.calls[k].progress.ToPush?
    ensures k < |t.calls| && t.calls[k] == s.calls[k]
    decreases |gap|
  {
    if gap == [] {
      assert run + gap == run;
    } else {
      var before, mid, a := LastOfMore(c, run, gap);
      OthersLeaveCall(c, run, s, before, mid, k);
      FifoAlways(c, run + before);
      OthersStep(c, mid, a, k);
    }
  }

  /** Between issuing a call and getting a slot others may act: the call then gets the slot that
      is free by then, or fails if none is. */
  lemma {:induction false} AcquireAfterGap(c: Config, run: seq<Action>, s: State, gap: seq<Action>, t: State, k: nat)
    requires Exec(c, run) == Some(s) && k < |s.calls| && s.calls[k].phase.Issued? && s.calls[k].progress.NotReady?
    requires Exec(c, run + gap) == Some(t) && NotOf(gap, k)
    ensures Enabled(c, t, Acquire(k)) && k < |Do(c, t, Acquire(k)).calls|
    ensures var u := Do(c, t, Acquire(k));
      match PushSlot(t.slots)
      case (None, _) => u.slots == t.slots && u.completions == t.completions + [(k, TransportFailure)]
      case (Some(i), slots) => u.slots == slots && u.calls[k].phase == Holding(i) && u.calls[k].progress.NotReady?
  {
    OthersLeaveCall(c, run, s, gap, t, k);
    OwnershipAlways(c, run + gap);
    FirstFreeIsFree(t.slots, 0);
  }

  /** Between getting a slot and listing it others may act: the call lists the slot it got. */
  lemma {:induction false} EnlistAfterGap(c: Config, run: seq<Action>, s: State, gap: seq<Action>, t: State, k: nat,
      deadline: int)
    requires Exec(c, run) == Some(s) && k < |s.calls| && s.calls[k].phase.Holding? && s.calls[k].progress.NotReady?
    requires Exec(c, run + gap) == Some(t) && NotOf(gap, k)
    ensures Enabled(c, t, Enlist(k, deadline)) && k < |Do(c, t, Enlist(k, deadline)).calls|
    ensures var u := Do(c, t, Enlist(k, deadline));
      && u.slots == t.slots
      && u.calls[k] == s.calls[k].(phase := Listed(s.calls[k].phase.slot, deadline), progress := ToPush)
  {
    OthersLeaveCall(c, run, s, gap, t, k);
  }

  /** Between listing the callback and pushing the request others may act, the polling pass
      included, which may expire or even complete the call: its request is pushed all the same,
      to the log as it is by then. */
  lemma {:induction false} PushAfterGap(c: Config, run: seq<Action>, s: State, gap: seq<Action>, t: State, k: nat)
    requires Exec(c, run) == Some(s) && k < |s.calls| && s.calls[k].progress.ToPush? && !s.calls[k].phase.Issued?
    requires Exec(c, run + gap) == Some(t) && NotPush(gap, k)
    ensures Enabled(c, t, Push(k))
    ensures Do(c, t, Push(k)).log == PushLog(t.log, FrameBytes(RequestOf(s.calls[k])), c.callSz, c.capacity).1
  {
    ToPushStays(c, run, s, gap, t, k);
  }

  predicate NotPush(run: seq<Action>, k: nat) {
    forall j | 0 <= j < |run| :: run[j] != Push(k)
  }

  lemma {:induction false} ToPushStep(c: Config, s: State, a: Action, k: nat)
    requires Enabled(c, s, a) && a != Push(k) && k < |s.calls|
    requires s.calls[k].progress.ToPush? && !s.calls[k].phase.Issued?
    requires RequestInv(c, s, k)
    requires a.Parse? ==> FifoInv(c, s)
    ensures k < |Do(c, s, a).calls|
    ensures Do(c, s, a).calls[k] == s.calls[k].(phase := Do(c, s, a).calls[k].phase)
    ensures !Do(c, s, a).calls[k].phase.Issued?
  {
    if a.Parse? {
      ParseIsNext(c, s);
      assert InQueue(s.calls[s.inCopy[0]].progress);
    }
  }

  lemma {:induction false} ToPushStays(c: Config, run: seq<Action>, s: State, gap: seq<Action>, t: State, k: nat)
    requires Exec(c, run) == Some(s) && k < |s.calls| && s.calls[k].progress.ToPush? && !s.calls[k].phase.Issued?
    requires Exec(c, run + gap) == Some(t) && NotPush(gap, k)
    ensures k < |t.calls| && t.calls[k] == s.calls[k].(phase := t.calls[k].phase) && !t.calls[k].phase.Issued?
    decreases |gap|
  {
    if gap == [] {
      assert run + gap == run;
    } else {
      var before, mid, a := LastOfMore(c, run, gap);
      ToPushStays(c, run, s, before, mid, k);
      FifoAlways(c, run + before);
      assert RequestInv(c, mid, k);
      ToPushStep(c, mid, a, k);
    }
  }

  // ----- the polling pass -----

  /** Steps that leave the pending entries of calls ks to the pass. */
  predicate NotPolling(run: seq<Action>, ks: seq<nat>) {
    forall j | 0 <= j < |run| :: (run[j].Expire? || run[j].Collect?) ==> run[j].k !in ks
  }

  lemma {:induction false} ListedStays(c: Config, run: seq<Action>, s: State, gap: seq<Action>, t: State,
      ks: seq<nat>, k: nat)
    requires Exec(c, run) == Some(s) && Exec(c, run + gap) == Some(t) && NotPolling(gap, ks) && k in ks
    requires k < |s.calls| && s.calls[k].phase.Listed?
    ensures k < |t.calls| && t.calls[k].phase == s.calls[k].phase
    decreases |gap|
  {
    if gap == [] {
      assert run + gap == run;
    } else {
      var before, mid, a := LastOfMore(c, run, gap);
      ListedStays(c, run, s, before, mid, ks, k);
      ListedStep(c, mid, a, k);
    }
  }

  lemma {:induction false} ListedStep(c: Config, s: State, a: Action, k: nat)
    requires Enabled(c, s, a) && k < |s.calls| && s.calls[k].phase.Listed? && !((a.Expire? || a.Collect?) && a.k == k)
    ensures k < |Do(c, s, a).calls| && Do(c, s, a).calls[k].phase == s.calls[k].phase
  {
  }

  /** The entry of a listed call. */
  function EntryOf(cs: CallState, k: nat): CallbackInfo
    requires cs.phase.Listed? && cs.phase.slot <= 0xFFFF
  {
    CallbackInfo(cs.phase.slot, cs.phase.deadline, k)
  }

  /** One iteration with others acting before it: entry k meets the fate that the clock and the
      slots at that moment decide. */
  lemma {:induction false} VisitAfterGap(c: Config, run: seq<Action>, s: State, gap: seq<Action>, t: State,
      ks: seq<nat>, k: nat, look: Look) returns (more: seq<Action>, u: State)
    requires Exec(c, run) == Some(s) && Exec(c, run + gap) == Some(t) && NotPolling(gap, ks) && k in ks
    requires k < |s.calls| && s.calls[k].phase.Listed? && s.calls[k].phase.slot <= 0xFFFF
    ensures k < |t.calls| && t.calls[k].phase == s.calls[k].phase
    ensures |more| <= 1 && Exec(c, run + (gap + more)) == Some(u)
    ensures Left(t, u, EntryOf(s.calls[k], k), look)
    ensures more == ActionOf(look, Visit(EntryOf(s.calls[k], k), look, t.slots).0)
  {
    ListedStays(c, run, s, gap, t, ks, k);
    more, u := VisitIsRun(c, run + gap, t, EntryOf(s.calls[k], k), look);
    ExecConcat(c, run, gap, more);
  }

  /** The pass with others acting before each iteration: gaps[j] comes before the visit of entry j. */
  function Rounds(c: Config, run: seq<Action>, ks: seq<nat>, looks: seq<Look>, gaps: seq<seq<Action>>,
      n: nat): seq<Action>
    requires n <= |ks| <= |looks| && n <= |gaps|
    decreases n, 1
  {
    if n == 0 then run else OneRound(c, run, ks, looks, gaps, n)
  }

  function OneRound(c: Config, run: seq<Action>, ks: seq<nat>, looks: seq<Look>, gaps: seq<seq<Action>>,
      n: nat): seq<Action>
    requires 0 < n <= |ks| <= |looks| && n <= |gaps|
    decreases n, 0
  {
    var before, k := Rounds(c, run, ks, looks, gaps, n - 1) + gaps[n - 1], ks[n - 1];
    match Exec(c, before)
    case None => before
    case Some(t) =>
      if k < |t.calls| && t.calls[k].phase.Listed? && t.calls[k].phase.slot <= 0xFFFF then
        before + ActionOf(looks[n - 1], Visit(EntryOf(t.calls[k], k), looks[n - 1], t.slots).0)
      else before
  }

  /** The gaps can be taken where they stand, and leave the entries to the pass. */
  ghost predicate GapsOk(c: Config, run: seq<Action>, ks: seq<nat>, looks: seq<Look>, gaps: seq<seq<Action>>, n: nat)
    requires n <= |ks| <= |looks| && n <= |gaps|
  {
    n == 0 ||
    (&& GapsOk(c, run, ks, looks, gaps, n - 1) && NotPolling(gaps[n - 1], ks)
     && Exec(c, Rounds(c, run, ks, looks, gaps, n - 1) + gaps[n - 1]).Some?)
  }

  /** The pass among others: its first n iterations are a run, and each entry it has not reached is
      pending as it was when the pass began. */
  lemma {:induction false} PassAmongOthers(c: Config, run: seq<Action>, s: State, ks: seq<nat>, looks: seq<Look>,
      gaps: seq<seq<Action>>, n: nat) returns (t: State)
    requires Exec(c, run) == Some(s) && AllListed(s, ks) && Distinct(ks) && n <= |ks| <= |looks| && n <= |gaps|
    requires GapsOk(c, run, ks, looks, gaps, n)
    ensures Exec(c, Rounds(c, run, ks, looks, gaps, n)) == Some(t)
    ensures forall j | n <= j < |ks| :: ks[j] < |t.calls| && t.calls[ks[j]].phase == s.calls[ks[j]].phase
  {
    if n == 0 {
      t := s;
    } else {
      var mid := PassAmongOthers(c, run, s, ks, looks, gaps, n - 1);
      t := RoundAmongOthers(c, run, s, ks, looks, gaps, n, mid);
    }
  }

  lemma {:induction false} RoundAmongOthers(c: Config, run: seq<Action>, s: State, ks: seq<nat>, looks: seq<Look>,
      gaps: seq<seq<Action>>, n: nat, mid: State) returns (t: State)
    requires AllListed(s, ks) && Distinct(ks) && 0 < n <= |ks| <= |looks| && n <= |gaps|
    requires Exec(c, Rounds(c, run, ks, looks, gaps, n - 1)) == Some(mid) && NotPolling(gaps[n - 1], ks)
    requires Exec(c, Rounds(c, run, ks, looks, gaps, n - 1) + gaps[n - 1]).Some?
    requires forall j | n - 1 <= j < |ks| :: ks[j] < |mid.calls| && mid.calls[ks[j]].phase == s.calls[ks[j]].phase
    ensures Exec(c, Rounds(c, run, ks, looks, gaps, n)) == Some(t)
    ensures forall j | n <= j < |ks| :: ks[j] < |t.calls| && t.calls[ks[j]].phase == s.calls[ks[j]].phase
  {
    var before, gap, k := Rounds(c, run, ks, looks, gaps, n - 1), gaps[n - 1], ks[n - 1];
    var gone := Exec(c, before + gap).value;
    var more;
    more, t := VisitAfterGap(c, before, mid, gap, gone, ks, k, looks[n - 1]);
    ExecConcat(c, before, gap, more);
    assert Rounds(c, run, ks, looks, gaps, n) == OneRound(c, run, ks, looks, gaps, n) == before + gap + more;
    forall j | n <= j < |ks| ensures ks[j] < |t.calls| && t.calls[ks[j]].phase == s.calls[ks[j]].phase {
      ListedStays(c, before, mid, gap, gone, ks, ks[j]);
    }
  }

  // ----- closures -----

  /** The step that a closure takes. */
  function ClosureStep(task: Task): Action {
    match task
    case TimedOut(sub) => RunExpired(sub.id)
    case GotReply(sub, _) => RunReply(sub.id)
  }

  /** The phase of a call whose closure is to run. */
  function Scheduled(task: Task): Phase {
    match task
    case TimedOut(sub) => Expired(sub.cbIndex)
    case GotReply(_, data) => Popped(data)
  }

  /** A closure, whenever it runs: a step of the protocol with the slots and the invocation that
      the list of closures gives. */
  lemma {:induction false} ClosureIsRun(c: Config, run: seq<Action>, s: State, task: Task)
    requires Exec(c, run) == Some(s) && task.sub.id < |s.calls| && s.calls[task.sub.id].phase == Scheduled(task)
    ensures Enabled(c, s, ClosureStep(task))
    ensures Exec(c, run + [ClosureStep(task)]) == Some(Do(c, s, ClosureStep(task)))
    ensures var t := Do(c, s, ClosureStep(task));
      && t.slots == RunAll([task], s.slots, 1)
      && t.completions == s.completions +
           [(InvocationOf(task).0,
             match InvocationOf(task).1 { case None => Timeout case Some(data) => Replied(data) })]
  {
    assert RunAll([task], s.slots, 0) == s.slots;
    ExecSnoc(c, run, s, ClosureStep(task));
  }
}
