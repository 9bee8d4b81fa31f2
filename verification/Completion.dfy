/** Completion: over every run each callback passed to callServer is invoked at most once, and
    none is lost. */
module Completion {
  import opened IPCCallModel
  import opened Protocol
  import opened Counting
  import opened Ownership

  predicate Oversized(c: Config, job: Job) {
    job.predicted > c.callSz - HEAD_SZ
  }

  /** A completed call has its entry in the history, and an oversized one failed at once. */
  ghost predicate CallDone(c: Config, s: State, k: nat)
    requires k < |s.calls|
  {
    var cs := s.calls[k];
    && (cs.phase.Completed? ==> cs.phase.at < |s.completions| && s.completions[cs.phase.at].0 == k)
    && (cs.job.hasCb ==>
          (Oversized(c, cs.job) <==> cs.phase.Completed? && s.completions[cs.phase.at].1 == InvalidPayload))
    && (cs.phase.Completed? ==> cs.job.hasCb)
    && (cs.phase.Popped? || (cs.phase.Completed? && s.completions[cs.phase.at].1.Replied?) ==> cs.index.Some?)
  }

  ghost predicate EntryOk(s: State, j: nat)
    requires j < |s.completions|
  {
    s.completions[j].0 < |s.calls| && s.calls[s.completions[j].0].phase == Completed(j)
  }

  ghost predicate CompletionInv(c: Config, s: State) {
    && (forall k | 0 <= k < |s.calls| :: CallDone(c, s, k))
    && (forall j | 0 <= j < |s.completions| :: EntryOk(s, j))
  }

  lemma {:induction false} CompletionStep(c: Config, s: State, a: Action)
    requires OwnershipInv(c, s) && CompletionInv(c, s) && Enabled(c, s, a)
    ensures CompletionInv(c, Do(c, s, a)) && s.completions <= Do(c, s, a).completions
  {
    var s' := Do(c, s, a);
    if Quiet(a) {
      QuietKeepsSlots(c, s, a);
    } else {
      HistoryGrows(c, s, a);
    }
    forall k | 0 <= k < |s'.calls| ensures CallDone(c, s', k) {
      if Quiet(a) {
        assert CallDone(c, s, k);
      } else {
        CallDoneStep(c, s, a, k);
      }
    }
    forall j | 0 <= j < |s'.completions| ensures EntryOk(s', j) {
      if Quiet(a) {
        assert EntryOk(s, j);
      } else {
        EntryStep(c, s, a, j);
      }
    }
  }

  lemma {:induction false} HistoryGrows(c: Config, s: State, a: Action)
    requires Enabled(c, s, a) && !Quiet(a)
    ensures s.completions <= Do(c, s, a).completions
  {
  }

  lemma {:induction false} CallDoneStep(c: Config, s: State, a: Action, k: nat)
    requires OwnershipInv(c, s) && CompletionInv(c, s) && Enabled(c, s, a) && !Quiet(a)
    requires k < |Do(c, s, a).calls|
    ensures CallDone(c, Do(c, s, a), k)
  {
    if k < |s.calls| {
      assert CallDone(c, s, k) && CallInv(s, k);
      OldCallDone(c, s, a, k);
    } else {
      NewCallDone(c, s, a, k);
    }
  }

  lemma {:induction false} OldCallDone(c: Config, s: State, a: Action, k: nat)
    requires Enabled(c, s, a) && !Quiet(a) && |s.slots| == |s.owner| && k < |s.calls|
    requires CallDone(c, s, k) && CallInv(s, k)
    ensures k < |Do(c, s, a).calls| && CallDone(c, Do(c, s, a), k)
  {
    if ClientStep(a, k) {
      OwnStepDone(c, s, a, k);
    } else {
      HistoryGrows(c, s, a);
      OthersKeepPhase(c, s, a, k);
    }
  }

  lemma {:induction false} OwnStepDone(c: Config, s: State, a: Action, k: nat)
    requires Enabled(c, s, a) && !Quiet(a) && ClientStep(a, k) && |s.slots| == |s.owner| && k < |s.calls|
    requires CallDone(c, s, k) && CallInv(s, k)
    ensures k < |Do(c, s, a).calls| && CallDone(c, Do(c, s, a), k)
  {
  }

  /** Only a call's own client moves its callback. */
  lemma {:induction false} OthersKeepPhase(c: Config, s: State, a: Action, k: nat)
    requires Enabled(c, s, a) && !Quiet(a) && !ClientStep(a, k) && k < |s.calls|
    ensures k < |Do(c, s, a).calls|
    ensures Do(c, s, a).calls[k] == s.calls[k].(progress := Do(c, s, a).calls[k].progress)
  {
  }

  lemma {:induction false} NewCallDone(c: Config, s: State, a: Action, k: nat)
    requires Enabled(c, s, a) && |s.calls| <= k < |Do(c, s, a).calls|
    ensures CallDone(c, Do(c, s, a), k)
  {
  }

  lemma {:induction false} EntryStep(c: Config, s: State, a: Action, j: nat)
    requires CompletionInv(c, s) && Enabled(c, s, a) && !Quiet(a)
    requires j < |Do(c, s, a).completions|
    ensures EntryOk(Do(c, s, a), j)
  {
    if j < |s.completions| {
      assert EntryOk(s, j);
    }
  }

  lemma {:induction false} CompletionAlways(c: Config, run: seq<Action>)
    requires Exec(c, run).Some?
    ensures OwnershipInv(c, Exec(c, run).value) && CompletionInv(c, Exec(c, run).value)
    decreases |run|
  {
    OwnershipAlways(c, run);
    if run != [] {
      var before, s, a := LastAction(c, run);
      CompletionAlways(c, before);
      CompletionStep(c, s, a);
    }
  }

  ghost function Callbacks(s: State): set<nat> {
    set k | k in Upto(|s.calls|) && k < |s.calls| && s.calls[k].job.hasCb
  }

  ghost function Done(s: State): set<nat> {
    set k | k in Upto(|s.calls|) && k < |s.calls| && s.calls[k].phase.Completed?
  }

  /** Callbacks whose call has no slot yet, and callbacks whose reply was popped but whose
      closure has not run. */
  ghost function InBetween(s: State): set<nat> {
    set k | k in Upto(|s.calls|) && k < |s.calls| && (s.calls[k].phase.Issued? || s.calls[k].phase.Popped?)
  }

  /** Completion conservation, after every run: no callback is invoked twice, and the callbacks
      issued are those invoked, those whose call owns a slot, and those in between. */
  lemma {:induction false} Conservation(c: Config, run: seq<Action>)
    requires Exec(c, run).Some?
    ensures var s := Exec(c, run).value;
      && (forall i, j | 0 <= i < j < |s.completions| :: s.completions[i].0 != s.completions[j].0)
      && (forall j | 0 <= j < |s.completions| :: s.completions[j].0 in Callbacks(s))
      && |Callbacks(s)| == |s.completions| + |Owners(s)| + |InBetween(s)|
  {
    CompletionAlways(c, run);
    var s := Exec(c, run).value;
    UptoIs(|s.calls|);
    forall j | 0 <= j < |s.completions| ensures EntryOk(s, j) && s.completions[j].0 in Callbacks(s) {
      assert EntryOk(s, j) && CallDone(c, s, s.completions[j].0);
    }
    CountDone(c, s);
    SplitCallbacks(c, s);
  }

  lemma {:induction false} CountDone(c: Config, s: State)
    requires CompletionInv(c, s)
    ensures |Done(s)| == |s.completions|
  {
    UptoIs(|s.calls|);
    UptoIs(|s.completions|);
    var entry := map k | k in Done(s) :: s.calls[k].phase.at;
    forall k | k in Done(s) ensures entry[k] in Upto(|s.completions|) && s.completions[entry[k]].0 == k {
      assert CallDone(c, s, k);
    }
    forall j | j in Upto(|s.completions|) ensures exists k :: k in Done(s) && entry[k] == j {
      assert EntryOk(s, j);
      assert s.completions[j].0 in Done(s);
    }
    SameSize(Done(s), Upto(|s.completions|), entry);
  }

  lemma {:induction false} SplitCallbacks(c: Config, s: State)
    requires OwnershipInv(c, s) && CompletionInv(c, s)
    ensures |Callbacks(s)| == |Done(s)| + |Owners(s)| + |InBetween(s)|
  {
    UptoIs(|s.calls|);
    forall k | 0 <= k < |s.calls|
      ensures k in Callbacks(s) <==> k in Done(s) || k in Owners(s) || k in InBetween(s)
    {
      assert CallInv(s, k);
    }
    assert Callbacks(s) == Done(s) + Owners(s) + InBetween(s);
    assert Done(s) !! Owners(s) && Done(s) + Owners(s) !! InBetween(s);
  }

  /** An invocation is final: a longer run only adds to the history. */
  lemma {:induction false} InvocationsAreFinal(c: Config, run: seq<Action>, n: nat)
    requires n <= |run| && Exec(c, run).Some?
    ensures Exec(c, run[..n]).Some?
    ensures Exec(c, run[..n]).value.completions <= Exec(c, run).value.completions
    decreases |run|
  {
    if n == |run| {
      assert run[..n] == run;
    } else {
      var before, s, a := LastAction(c, run);
      InvocationsAreFinal(c, before, n);
      assert before[..n] == run[..n];
      CompletionAlways(c, before);
      CompletionStep(c, s, a);
    }
  }

  /** A callback is failed with InvalidPayload exactly when the predicted argument size is more
      than validateCall allows, whatever else happens. */
  lemma {:induction false} InvalidPayloadExactly(c: Config, run: seq<Action>, k: nat)
    requires Exec(c, run).Some? && k < |Exec(c, run).value.calls| && Exec(c, run).value.calls[k].job.hasCb
    ensures var s := Exec(c, run).value;
      (k, InvalidPayload) in s.completions <==> Oversized(c, s.calls[k].job)
  {
    CompletionAlways(c, run);
    var s := Exec(c, run).value;
    assert CallDone(c, s, k);
    if (k, InvalidPayload) in s.completions {
      var j :| 0 <= j < |s.completions| && s.completions[j] == (k, InvalidPayload);
      assert EntryOk(s, j);
    }
  }
}
