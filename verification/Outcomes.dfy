/** How callbacks end: exactly when one fails with TransportFailure, and exactly when one times
    out. */
module Outcomes {
  import opened Bytes
  import opened CallbackSpaceModel
  import opened Protocol
  import opened Completion
  import opened Fifo

  /** Step n of the run is call k's attempt to get a slot, and no slot is free. */
  ghost predicate RefusedAt(c: Config, run: seq<Action>, k: nat, n: nat) {
    n < |run| && run[n] == Acquire(k) && Exec(c, run[..n]).Some? && AllInUse(Exec(c, run[..n]).value.slots)
  }

  lemma {:induction false} RefusalStep(c: Config, s: State, a: Action, k: nat)
    requires Enabled(c, s, a)
    ensures (k, TransportFailure) in Do(c, s, a).completions <==>
      (k, TransportFailure) in s.completions || (a == Acquire(k) && AllInUse(s.slots))
  {
    FirstFreeIsFree(s.slots, 0);
  }

  /** A callback fails with TransportFailure if and only if no slot was free when its call tried
      to get one. */
  lemma {:induction false} TransportFailureExactly(c: Config, run: seq<Action>, s: State, k: nat)
    requires Exec(c, run) == Some(s)
    ensures (k, TransportFailure) in s.completions <==> exists n :: RefusedAt(c, run, k, n)
    decreases |run|
  {
    if run != [] {
      var before, t, a := LastAction(c, run);
      TransportFailureExactly(c, before, t, k);
      RefusalStep(c, t, a, k);
      RefusedLast(c, before, a, k);
      assert run == before + [a];
    }
  }

  lemma {:induction false} RefusedLast(c: Config, before: seq<Action>, a: Action, k: nat)
    requires Exec(c, before).Some?
    ensures (exists n :: RefusedAt(c, before + [a], k, n)) <==>
      (exists n :: RefusedAt(c, before, k, n)) || (a == Acquire(k) && AllInUse(Exec(c, before).value.slots))
  {
    var run := before + [a];
    assert run[..|before|] == before;
    forall n: nat | n < |before| ensures RefusedAt(c, run, k, n) <==> RefusedAt(c, before, k, n) {
      assert run[..n] == before[..n];
    }
    assert RefusedAt(c, run, k, |before|) <==> a == Acquire(k) && AllInUse(Exec(c, before).value.slots);
  }

  /** Call k was listed with a deadline at step m of the run, and at step n a polling pass reached
      its entry later than that, or while the client was shutting down. */
  predicate ExpiredAt(run: seq<Action>, k: nat, m: nat, n: nat) {
    && m < n < |run| && run[m].Enlist? && run[m].k == k && run[n].Expire? && run[n].k == k
    && (run[m].deadline < run[n].now || !run[n].active)
  }

  /** Call k has timed out: its closure has run, or is about to. */
  ghost predicate TimedOut(s: State, k: nat) {
    (k, Timeout) in s.completions || (k < |s.calls| && s.calls[k].phase.Expired?)
  }

  lemma {:induction false} TimeoutStep(c: Config, s: State, a: Action, k: nat)
    requires Enabled(c, s, a)
    ensures TimedOut(Do(c, s, a), k) <==> TimedOut(s, k) || (a.Expire? && a.k == k)
  {
    if (k, Timeout) in s.completions {
      CompletionsGrow(c, s, a);
    }
  }

  lemma {:induction false} CompletionsGrow(c: Config, s: State, a: Action)
    requires Enabled(c, s, a)
    ensures s.completions <= Do(c, s, a).completions
  {
  }

  /** A callback times out if and only if some polling pass reached its entry at a time later than
      its deadline, or while the client was shutting down. */
  lemma {:induction false} TimeoutExactly(c: Config, run: seq<Action>, s: State, k: nat)
    requires Exec(c, run) == Some(s)
    ensures TimedOut(s, k) <==> exists m, n :: ExpiredAt(run, k, m, n)
    decreases |run|
  {
    if run != [] {
      var before, t, a := LastAction(c, run);
      TimeoutExactly(c, before, t, k);
      TimeoutStep(c, t, a, k);
      ExpiredLast(c, before, t, a, k);
      assert run == before + [a];
    }
  }

  lemma {:induction false} ExpiredLast(c: Config, before: seq<Action>, t: State, a: Action, k: nat)
    requires Exec(c, before) == Some(t) && Enabled(c, t, a)
    ensures (exists m, n :: ExpiredAt(before + [a], k, m, n)) <==>
      (exists m, n :: ExpiredAt(before, k, m, n)) || (a.Expire? && a.k == k)
  {
    var run := before + [a];
    forall m: nat, n: nat | n < |before| ensures ExpiredAt(run, k, m, n) <==> ExpiredAt(before, k, m, n) {
    }
    if a.Expire? && a.k == k {
      var m := EnlistedBefore(c, before, t, k);
      assert ExpiredAt(run, k, m, |before|);
    }
  }

  lemma {:induction false} ListedCame(c: Config, s: State, a: Action, k: nat)
    requires Enabled(c, s, a) && k < |Do(c, s, a).calls| && Do(c, s, a).calls[k].phase.Listed?
    ensures a == Enlist(k, Do(c, s, a).calls[k].phase.deadline) ||
      (k < |s.calls| && s.calls[k].phase == Do(c, s, a).calls[k].phase)
  {
  }

  /** The deadline of a listed call is the one it was listed with. */
  lemma {:induction false} EnlistedBefore(c: Config, run: seq<Action>, s: State, k: nat) returns (m: nat)
    requires Exec(c, run) == Some(s) && k < |s.calls| && s.calls[k].phase.Listed?
    ensures m < |run| && run[m] == Enlist(k, s.calls[k].phase.deadline)
    decreases |run|
  {
    var before, t, a := LastAction(c, run);
    ListedCame(c, t, a, k);
    if a == Enlist(k, s.calls[k].phase.deadline) {
      m := |run| - 1;
    } else {
      m := EnlistedBefore(c, before, t, k);
    }
  }

  /** A reply is never collected late: the clock was not past the deadline its call was listed
      with. */
  lemma {:induction false} CollectedInTime(c: Config, run: seq<Action>, k: nat, n: nat) returns (m: nat)
    requires Exec(c, run).Some? && n < |run| && run[n].Collect? && run[n].k == k
    ensures m < n && run[m].Enlist? && run[m].k == k && run[n].now <= run[m].deadline
    decreases |run|
  {
    var before, t, a := LastAction(c, run);
    if n < |before| {
      m := CollectedInTime(c, before, k, n);
    } else {
      m := EnlistedBefore(c, before, t, k);
    }
  }

  // ----- refused calls -----

  lemma {:induction false} DroppedStays(c: Config, s: State, a: Action, t: State, k: nat)
    requires Enabled(c, s, a) && t == Do(c, s, a) && k < |s.calls| && s.calls[k].progress.Dropped?
    requires !s.calls[k].phase.Holding? && !(s.inCopy != [] && s.inCopy[0] == k)
    ensures k < |t.calls| && t.calls[k].progress.Dropped?
  {
  }

  lemma {:induction false} RefusedAtOnce(c: Config, s: State, a: Action, t: State, k: nat)
    requires Enabled(c, s, a) && t == Do(c, s, a) && |s.calls| <= k < |t.calls| && Oversized(c, t.calls[k].job)
    ensures t.calls[k].progress.Dropped?
  {
  }

  /** A call that validateCall refuses never reaches the log, with a callback or without. */
  lemma {:induction false} RefusedIsNeverSent(c: Config, run: seq<Action>, s: State, k: nat)
    requires Exec(c, run) == Some(s) && k < |s.calls| && Oversized(c, s.calls[k].job)
    ensures s.calls[k].progress.Dropped? && k !in s.accepted
  {
    RefusedIsDropped(c, run, s, k);
    FifoAlways(c, run);
    if k in s.accepted {
      AcceptedAreSent(s, k);
    }
  }

  lemma {:induction false} RefusedIsDropped(c: Config, run: seq<Action>, s: State, k: nat)
    requires Exec(c, run) == Some(s) && k < |s.calls| && Oversized(c, s.calls[k].job)
    ensures s.calls[k].progress.Dropped?
    decreases |run|
  {
    var before, t, a := LastAction(c, run);
    if k < |t.calls| {
      JobStays(c, t, a, s, k);
      RefusedIsDropped(c, before, t, k);
      FifoAlways(c, before);
      NotNext(c, t, k);
      DroppedStays(c, t, a, s, k);
    } else {
      RefusedAtOnce(c, t, a, s, k);
    }
  }

  lemma {:induction false} NotNext(c: Config, s: State, k: nat)
    requires FifoInv(c, s) && k < |s.calls| && s.calls[k].progress.Dropped?
    ensures !s.calls[k].phase.Holding? && !(s.inCopy != [] && s.inCopy[0] == k)
  {
    assert RequestInv(c, s, k);
  }

  lemma {:induction false} JobStays(c: Config, s: State, a: Action, t: State, k: nat)
    requires Enabled(c, s, a) && t == Do(c, s, a) && k < |s.calls|
    ensures k < |t.calls| && t.calls[k].job == s.calls[k].job
  {
    if Quiet(a) {
      QuietKeepsSlots(c, s, a);
    } else {
      OthersKeepQueue(c, s, a);
    }
  }

  /** Accepted calls have been sent. */
  lemma {:induction false} AcceptedAreSent(s: State, k: nat)
    requires OrderInv(s) && k in s.accepted
    ensures k < |s.calls| && (InQueue(s.calls[k].progress) || Parsed(s.calls[k].progress))
  {
    assert k in s.parsed || k in s.inCopy || k in s.inLog;
  }
}
