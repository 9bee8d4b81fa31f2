/** Reply matching: whether the reply handed to a call's callback is the one its own handler
    produced. A slot index carries no generation number, so a request that outlives its call's
    timeout can answer whoever holds the slot by then. */
module Matching {
  import opened Bytes
  import opened IPCCallModel
  import opened CallbackSpaceModel
  import opened Protocol
  import opened Ownership
  import opened Completion
  import opened Fifo

  predicate FrameFits(c: Config, job: Job) {
    HEAD_SZ + 2 + |job.args| <= c.callSz && HEAD_SZ + 2 + |job.args| <= c.capacity
  }

  /** A request that can still reach a handler and be answered: outstanding, its method is
      registered and replies, and its frame fits if it is yet to be pushed. */
  predicate CanAnswer(c: Config, cs: CallState) {
    && Outstanding(cs) && cs.job.methodId in c.methods && cs.job.methodId in c.answering
    && (cs.progress.NotReady? || cs.progress.ToPush? ==> FrameFits(c, cs.job))
  }

  /** No request but k's own can still be answered into slot i. */
  ghost predicate Unthreatened(c: Config, s: State, k: nat, i: nat) {
    forall j | 0 <= j < |s.calls| && j != k :: CanAnswer(c, s.calls[j]) ==> Carries(s.calls[j]) != i
  }

  // A call without a callback carries index 0, which is a slot like any other, and a replying
  // method answers it all the same. Such a call is a stray.
  predicate Stray(c: Config, job: Job) {
    !job.hasCb && job.methodId in c.answering
  }

  predicate Tidy(c: Config, run: seq<Action>) {
    forall j | 0 <= j < |run| :: run[j].Issue? ==> !Stray(c, run[j].job)
  }

  /** While k owns a slot, nobody else can answer into it, and a reply in it is k's own. */
  ghost predicate SlotSafe(c: Config, s: State, k: nat)
    requires k < |s.calls|
  {
    var cs := s.calls[k];
    Owns(cs) ==>
      && Unthreatened(c, s, k, cs.phase.slot)
      && (cs.phase.slot < |s.slots| && s.slots[cs.phase.slot].Ready? ==>
            cs.progress == Answered(s.slots[cs.phase.slot].data))
  }

  /** A reply that was taken for k, or handed to its callback, is k's own. */
  ghost predicate ReplySafe(s: State, k: nat)
    requires k < |s.calls|
  {
    var cs := s.calls[k];
    && (cs.phase.Popped? ==> cs.progress == Answered(cs.phase.data))
    && (cs.phase.Completed? && cs.phase.at < |s.completions| && s.completions[cs.phase.at].1.Replied? ==>
          cs.progress == Answered(s.completions[cs.phase.at].1.data))
  }

  ghost predicate Safe(c: Config, s: State, k: nat) {
    k < |s.calls| && !s.calls[k].phase.Issued? && SlotSafe(c, s, k) && ReplySafe(s, k)
  }

  ghost predicate Inv(c: Config, s: State) {
    OwnershipInv(c, s) && FifoInv(c, s) && CompletionInv(c, s)
  }

  lemma {:induction false} InvAlways(c: Config, run: seq<Action>)
    requires Exec(c, run).Some?
    ensures Inv(c, Exec(c, run).value)
  {
    CompletionAlways(c, run);
    FifoAlways(c, run);
  }

  // ----- requests only move forward -----

  /** Only acquiring a slot, or issuing a stray, makes a request one that can be answered. */
  lemma {:induction false} AnswerableBefore(c: Config, s: State, a: Action, j: nat)
    requires Enabled(c, s, a) && a != Acquire(j) && (a.Issue? ==> !Stray(c, a.job))
    requires a.Parse? ==> FifoInv(c, s)
    requires j < |s.calls| ==> RequestInv(c, s, j)
    requires j < |Do(c, s, a).calls| && CanAnswer(c, Do(c, s, a).calls[j])
    ensures j < |s.calls| && CanAnswer(c, s.calls[j]) && Carries(s.calls[j]) == Carries(Do(c, s, a).calls[j])
  {
    if a.Parse? {
      ParseIsNext(c, s);
      assert InQueue(s.calls[s.inCopy[0]].progress);
    } else if !Quiet(a) {
      AnswerableMove(c, s, a, j);
    }
  }

  lemma {:induction false} AnswerableMove(c: Config, s: State, a: Action, j: nat)
    requires Enabled(c, s, a) && !Quiet(a) && a != Acquire(j) && (a.Issue? ==> !Stray(c, a.job))
    requires j < |s.calls| ==> RequestInv(c, s, j)
    requires j < |Do(c, s, a).calls| && CanAnswer(c, Do(c, s, a).calls[j])
    ensures j < |s.calls| && CanAnswer(c, s.calls[j]) && Carries(s.calls[j]) == Carries(Do(c, s, a).calls[j])
  {
  }

  lemma {:induction false} UnthreatenedStays(c: Config, s: State, a: Action, k: nat, i: nat)
    requires Enabled(c, s, a) && !a.Acquire? && (a.Issue? ==> !Stray(c, a.job))
    requires Unthreatened(c, s, k, i) && FifoInv(c, s)
    ensures Unthreatened(c, Do(c, s, a), k, i)
  {
    var s' := Do(c, s, a);
    forall j | 0 <= j < |s'.calls| && j != k && CanAnswer(c, s'.calls[j])
      ensures Carries(s'.calls[j]) != i
    {
      assert j < |s.calls| ==> RequestInv(c, s, j);
      AnswerableBefore(c, s, a, j);
    }
  }

  /** A given answer is final. */
  lemma {:induction false} AnswerIsFinal(c: Config, s: State, a: Action, k: nat)
    requires Enabled(c, s, a) && k < |s.calls| && s.calls[k].progress.Answered?
    requires RequestInv(c, s, k)
    requires a.Parse? ==> FifoInv(c, s)
    ensures k < |Do(c, s, a).calls| && Do(c, s, a).calls[k].progress == s.calls[k].progress
  {
    if a.Parse? {
      ParseIsNext(c, s);
      assert InQueue(s.calls[s.inCopy[0]].progress);
    }
  }

  // ----- steps -----

  /** Actions that neither touch a slot nor make or break an owner. */
  predicate Passive(a: Action) {
    Quiet(a) || a.Issue? || a.Enlist? || a.Expire? || a.RunReply?
  }

  lemma {:induction false} PassiveKeeps(c: Config, s: State, a: Action, k: nat)
    requires Enabled(c, s, a) && Passive(a) && k < |s.calls|
    ensures var s' := Do(c, s, a);
      && s'.slots == s.slots && k < |s'.calls| && s.completions <= s'.completions
      && (Owns(s'.calls[k]) <==> Owns(s.calls[k]))
      && (Owns(s.calls[k]) ==> s'.calls[k].phase.slot == s.calls[k].phase.slot)
  {
  }

  lemma {:induction false} PassiveSlotStep(c: Config, s: State, a: Action, k: nat)
    requires FifoInv(c, s) && Enabled(c, s, a) && Passive(a) && (a.Issue? ==> !Stray(c, a.job))
    requires k < |s.calls| && SlotSafe(c, s, k)
    ensures k < |Do(c, s, a).calls| && SlotSafe(c, Do(c, s, a), k)
  {
    PassiveKeeps(c, s, a, k);
    assert RequestInv(c, s, k);
    var cs := s.calls[k];
    if Owns(cs) {
      UnthreatenedStays(c, s, a, k, cs.phase.slot);
      if cs.progress.Answered? {
        AnswerIsFinal(c, s, a, k);
      }
    }
  }

  /** Another call acquires another slot. */
  lemma {:induction false} AcquireSlotStep(c: Config, s: State, j: nat, k: nat)
    requires OwnershipInv(c, s) && Enabled(c, s, Acquire(j)) && j != k && k < |s.calls| && SlotSafe(c, s, k)
    ensures k < |DoAcquire(c, s, j).calls| && SlotSafe(c, DoAcquire(c, s, j), k)
  {
    FirstFreeIsFree(s.slots, 0);
    assert CallInv(s, k);
    var s' := DoAcquire(c, s, j);
    if FirstFree(s.slots, 0).Some? {
      assert SlotInv(s, FirstFree(s.slots, 0).value);
    }
    if Owns(s'.calls[k]) {
      forall i | 0 <= i < |s'.calls| && i != k && CanAnswer(c, s'.calls[i])
        ensures Carries(s'.calls[i]) != s'.calls[k].phase.slot
      {
        assert i != j ==> s'.calls[i] == s.calls[i];
      }
    }
  }

  lemma {:induction false} AnswerSlotStep(c: Config, s: State, j: nat, data: seq<Byte>, k: nat)
    requires Inv(c, s) && Enabled(c, s, Answer(j, data)) && k < |s.calls| && SlotSafe(c, s, k)
    ensures k < |Do(c, s, Answer(j, data)).calls| && SlotSafe(c, Do(c, s, Answer(j, data)), k)
  {
    assert CallInv(s, k) && CallInv(s, j) && RequestInv(c, s, j);
    var cs := s.calls[k];
    if Owns(cs) {
      UnthreatenedStays(c, s, Answer(j, data), k, cs.phase.slot);
    }
  }

  lemma {:induction false} ReleaseSlotStep(c: Config, s: State, a: Action, k: nat)
    requires Inv(c, s) && Enabled(c, s, a) && (a.Collect? || a.RunExpired?) && k < |s.calls| && SlotSafe(c, s, k)
    ensures k < |Do(c, s, a).calls| && SlotSafe(c, Do(c, s, a), k)
  {
    assert CallInv(s, k) && CallInv(s, a.k);
    var cs := s.calls[k];
    if Owns(cs) {
      UnthreatenedStays(c, s, a, k, cs.phase.slot);
    }
  }

  lemma {:induction false} SlotSafeStep(c: Config, s: State, a: Action, k: nat)
    requires Inv(c, s) && Enabled(c, s, a) && a != Acquire(k) && (a.Issue? ==> !Stray(c, a.job))
    requires k < |s.calls| && SlotSafe(c, s, k)
    ensures k < |Do(c, s, a).calls| && SlotSafe(c, Do(c, s, a), k)
  {
    match a
    case Acquire(j) => AcquireSlotStep(c, s, j, k);
    case Answer(j, data) => AnswerSlotStep(c, s, j, data, k);
    case Collect(_, _) => ReleaseSlotStep(c, s, a, k);
    case RunExpired(_) => ReleaseSlotStep(c, s, a, k);
    case _ => PassiveSlotStep(c, s, a, k);
  }

  /** How call k may change in one step: it may take the reply out of its slot, and it may hand
      on a reply it has taken. */
  ghost predicate ReplyMoves(s: State, s': State, k: nat) {
    k < |s.calls| && k < |s'.calls| &&
    var before, after := s.calls[k], s'.calls[k];
    && s.completions <= s'.completions
    && (after.phase.Popped? ==>
          before.phase == after.phase
          || (before.phase.Listed? && before.phase.slot < |s.slots|
              && s.slots[before.phase.slot] == Ready(after.phase.data)))
    && (after.phase.Completed? ==>
          after.phase.at < |s'.completions| &&
          (s'.completions[after.phase.at].1.Replied? ==>
             before.phase == after.phase || before.phase == Popped(s'.completions[after.phase.at].1.data)))
  }

  lemma {:induction false} ReplyMovesStep(c: Config, s: State, a: Action, k: nat)
    requires Enabled(c, s, a) && !Quiet(a) && k < |s.calls| && CallDone(c, s, k)
    ensures ReplyMoves(s, Do(c, s, a), k)
  {
  }

  lemma {:induction false} ReplyKept(c: Config, s: State, s': State, k: nat)
    requires ReplyMoves(s, s', k) && SlotSafe(c, s, k) && ReplySafe(s, k)
    requires s.calls[k].phase.Completed? ==> s.calls[k].phase.at < |s.completions|
    requires s.calls[k].progress.Answered? ==> s'.calls[k].progress == s.calls[k].progress
    ensures ReplySafe(s', k)
  {
  }

  lemma {:induction false} ReplySafeStep(c: Config, s: State, s': State, a: Action, k: nat)
    requires Enabled(c, s, a) && s' == Do(c, s, a) && k < |s.calls|
    requires ReplySafe(s, k) && SlotSafe(c, s, k) && CallDone(c, s, k) && RequestInv(c, s, k)
    requires a.Parse? ==> FifoInv(c, s)
    ensures k < |s'.calls| && ReplySafe(s', k)
  {
    if s.calls[k].progress.Answered? {
      AnswerIsFinal(c, s, a, k);
    }
    if Quiet(a) {
      QuietKeepsSlots(c, s, a);
    } else {
      ReplyMovesStep(c, s, a, k);
    }
    ReplyKept(c, s, s', k);
  }

  lemma {:induction false} NotIssuedAgain(c: Config, s: State, a: Action, k: nat)
    requires Enabled(c, s, a) && k < |s.calls| && !s.calls[k].phase.Issued?
    ensures k < |Do(c, s, a).calls| && !Do(c, s, a).calls[k].phase.Issued?
  {
  }

  lemma {:induction false} SafeStep(c: Config, s: State, a: Action, k: nat)
    requires Inv(c, s) && Enabled(c, s, a) && (a.Issue? ==> !Stray(c, a.job)) && Safe(c, s, k)
    ensures Safe(c, Do(c, s, a), k)
  {
    assert CallDone(c, s, k) && RequestInv(c, s, k);
    NotIssuedAgain(c, s, a, k);
    SlotSafeStep(c, s, a, k);
    ReplySafeStep(c, s, Do(c, s, a), a, k);
  }

  /** Once a call is safe it stays safe, whatever the run goes on with, strays excepted. */
  lemma {:induction false} SafeForever(c: Config, run: seq<Action>, s: State, k: nat, more: seq<Action>)
    requires Exec(c, run) == Some(s) && Safe(c, s, k) && Exec(c, run + more).Some? && Tidy(c, more)
    ensures Safe(c, Exec(c, run + more).value, k)
    decreases |more|
  {
    if more == [] {
      assert run + more == run;
    } else {
      var before, t, a := LastOfMore(c, run, more);
      SafeForever(c, run, s, k, before);
      InvAlways(c, run + before);
      SafeStep(c, t, a, k);
    }
  }

  /** A callback that was invoked with a reply, of a safe call. */
  lemma {:induction false} SafeReplyIsOwn(c: Config, s: State, k: nat, data: seq<Byte>)
    requires CompletionInv(c, s) && Safe(c, s, k) && (k, Replied(data)) in s.completions
    ensures s.calls[k].progress == Answered(data)
  {
    var j :| 0 <= j < |s.completions| && s.completions[j] == (k, Replied(data));
    assert EntryOk(s, j);
  }

  /** A call that waits on a pending slot, unthreatened, is safe. */
  lemma {:induction false} WaitingIsSafe(c: Config, s: State, k: nat)
    requires k < |s.calls|
    requires s.calls[k].phase.Holding? || s.calls[k].phase.Listed?
    requires s.calls[k].phase.slot < |s.slots| && s.slots[s.calls[k].phase.slot] == Pending
    requires Unthreatened(c, s, k, s.calls[k].phase.slot)
    ensures Safe(c, s, k)
  {
  }

  lemma {:induction false} AcquiredIsSafe(c: Config, s: State, k: nat, i: nat)
    requires Enabled(c, s, Acquire(k)) && FirstFree(s.slots, 0) == Some(i) && Unthreatened(c, s, k, i)
    ensures Safe(c, Do(c, s, Acquire(k)), k)
  {
    FirstFreeIsFree(s.slots, 0);
  }

  // ----- runs without timeouts -----

  predicate NoTimeout(run: seq<Action>) {
    forall j | 0 <= j < |run| :: !run[j].Expire?
  }

  /** Every outstanding request with a callback belongs to a call that still owns its slot, every
      call that got a slot is safe, no call is a stray, and nothing has expired. */
  ghost predicate Prompt(c: Config, s: State, k: nat)
    requires k < |s.calls|
  {
    var cs := s.calls[k];
    && (cs.job.hasCb && Outstanding(cs) ==> Owns(cs))
    && (cs.index.Some? ==> Safe(c, s, k))
    && !Stray(c, cs.job)
    && !cs.phase.Expired?
  }

  ghost predicate PromptInv(c: Config, s: State) {
    forall k | 0 <= k < |s.calls| :: Prompt(c, s, k)
  }

  lemma {:induction false} AcquiredClean(c: Config, s: State, j: nat)
    requires OwnershipInv(c, s) && PromptInv(c, s) && Enabled(c, s, Acquire(j)) && FirstFree(s.slots, 0).Some?
    ensures Unthreatened(c, s, j, FirstFree(s.slots, 0).value)
  {
    FirstFreeIsFree(s.slots, 0);
    var i := FirstFree(s.slots, 0).value;
    assert SlotInv(s, i);
    forall k | 0 <= k < |s.calls| && k != j && CanAnswer(c, s.calls[k]) ensures Carries(s.calls[k]) != i {
      assert Prompt(c, s, k) && CallInv(s, k);
    }
  }

  /** What a step does to one call, as far as promptness goes. */
  ghost predicate PromptMove(c: Config, s: State, s': State, k: nat) {
    k < |s.calls| && k < |s'.calls| &&
    var before, after := s.calls[k], s'.calls[k];
    && (after.job.hasCb && Outstanding(after) ==> Owns(after))
    && before.index == after.index && before.job == after.job && !after.phase.Expired?
  }

  lemma {:induction false} OutstandingBefore(c: Config, s: State, a: Action, j: nat)
    requires Enabled(c, s, a) && a != Acquire(j) && j < |s.calls| && RequestInv(c, s, j)
    requires a.Parse? ==> FifoInv(c, s)
    requires j < |Do(c, s, a).calls| && Outstanding(Do(c, s, a).calls[j])
    ensures Outstanding(s.calls[j])
  {
    if a.Parse? {
      ParseIsNext(c, s);
      assert InQueue(s.calls[s.inCopy[0]].progress);
    }
  }

  /** Outside the request queue, no slot is given up while its request is outstanding. */
  lemma {:induction false} MovePromptStep(c: Config, s: State, a: Action, k: nat)
    requires Enabled(c, s, a) && !Quiet(a) && a != Acquire(k) && !a.Expire? && k < |s.calls|
    requires Prompt(c, s, k) && (Owns(s.calls[k]) ==> s.calls[k].index.Some?)
    requires k < |Do(c, s, a).calls| && Outstanding(Do(c, s, a).calls[k]) ==> Outstanding(s.calls[k])
    ensures PromptMove(c, s, Do(c, s, a), k)
  {
  }

  lemma {:induction false} NewCallIsPrompt(c: Config, s: State, a: Action, k: nat)
    requires Enabled(c, s, a) && (a.Issue? ==> !Stray(c, a.job)) && |s.calls| <= k < |Do(c, s, a).calls|
    ensures Prompt(c, Do(c, s, a), k)
  {
  }

  lemma {:induction false} AcquirePromptStep(c: Config, s: State, k: nat)
    requires Inv(c, s) && PromptInv(c, s) && Enabled(c, s, Acquire(k))
    ensures k < |Do(c, s, Acquire(k)).calls| && Prompt(c, Do(c, s, Acquire(k)), k)
  {
    if FirstFree(s.slots, 0).Some? {
      AcquiredClean(c, s, k);
      AcquiredIsSafe(c, s, k, FirstFree(s.slots, 0).value);
    }
    assert CallInv(s, k) && Prompt(c, s, k);
  }

  lemma {:induction false} OldPromptStep(c: Config, s: State, a: Action, k: nat)
    requires Inv(c, s) && Enabled(c, s, a) && a != Acquire(k) && !a.Expire? && (a.Issue? ==> !Stray(c, a.job))
    requires k < |s.calls| && Prompt(c, s, k)
    ensures k < |Do(c, s, a).calls| && Prompt(c, Do(c, s, a), k)
  {
    var s' := Do(c, s, a);
    assert CallInv(s, k) && RequestInv(c, s, k);
    if k < |s'.calls| && Outstanding(s'.calls[k]) {
      OutstandingBefore(c, s, a, k);
    }
    if Quiet(a) {
      QuietKeepsSlots(c, s, a);
    } else {
      MovePromptStep(c, s, a, k);
    }
    if s.calls[k].index.Some? {
      SafeStep(c, s, a, k);
    }
  }

  lemma {:induction false} PromptStep(c: Config, s: State, a: Action, k: nat)
    requires Inv(c, s) && PromptInv(c, s) && Enabled(c, s, a) && !a.Expire? && (a.Issue? ==> !Stray(c, a.job))
    requires k < |Do(c, s, a).calls|
    ensures Prompt(c, Do(c, s, a), k)
  {
    if k >= |s.calls| {
      NewCallIsPrompt(c, s, a, k);
    } else if a == Acquire(k) {
      AcquirePromptStep(c, s, k);
    } else {
      assert Prompt(c, s, k);
      OldPromptStep(c, s, a, k);
    }
  }

  lemma {:induction false} PromptAlways(c: Config, run: seq<Action>)
    requires Exec(c, run).Some? && NoTimeout(run) && Tidy(c, run)
    ensures PromptInv(c, Exec(c, run).value)
    decreases |run|
  {
    if run != [] {
      var before, s, a := LastAction(c, run);
      PromptAlways(c, before);
      InvAlways(c, before);
      forall k | 0 <= k < |Do(c, s, a).calls| ensures Prompt(c, Do(c, s, a), k) {
        PromptStep(c, s, a, k);
      }
    }
  }

  /** What reply matching rests on, in runs without timeouts and strays: an outstanding request of
      a call with a callback has a pending slot, and no two such requests carry the same index. */
  lemma {:induction false} OneRequestPerPendingSlot(c: Config, run: seq<Action>, s: State, k: nat)
    requires Exec(c, run) == Some(s) && NoTimeout(run) && Tidy(c, run)
    requires k < |s.calls| && s.calls[k].job.hasCb && Outstanding(s.calls[k])
    ensures Carries(s.calls[k]) < |s.slots| && s.slots[Carries(s.calls[k])] == Pending
    ensures forall j | 0 <= j < |s.calls| && j != k && s.calls[j].job.hasCb && Outstanding(s.calls[j]) ::
      Carries(s.calls[j]) != Carries(s.calls[k])
  {
    InvAlways(c, run);
    PromptAlways(c, run);
    assert Prompt(c, s, k) && CallInv(s, k) && SlotInv(s, s.calls[k].phase.slot);
    forall j | 0 <= j < |s.calls| && j != k && s.calls[j].job.hasCb && Outstanding(s.calls[j])
      ensures Carries(s.calls[j]) != Carries(s.calls[k])
    {
      assert Prompt(c, s, j) && CallInv(s, j);
    }
  }

  /** Reply matching for runs in which no timeout fires and no stray is issued: every callback that
      is invoked with a reply gets the bytes its own handler produced, even though slots are
      reused. */
  lemma {:induction false} RepliesMatch(c: Config, run: seq<Action>, k: nat, data: seq<Byte>)
    requires Exec(c, run).Some? && NoTimeout(run) && Tidy(c, run)
    requires (k, Replied(data)) in Exec(c, run).value.completions
    ensures k < |Exec(c, run).value.calls|
    ensures Exec(c, run).value.calls[k].progress == Answered(data)
  {
    InvAlways(c, run);
    PromptAlways(c, run);
    var s := Exec(c, run).value;
    var j :| 0 <= j < |s.completions| && s.completions[j] == (k, Replied(data));
    assert EntryOk(s, j) && CallDone(c, s, k);
    assert Prompt(c, s, k);
    SafeReplyIsOwn(c, s, k, data);
  }
}
