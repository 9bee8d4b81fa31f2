/** The polling pass does nothing that the protocol does not: each iteration of its loop is one
    step of the protocol, or none. */
module PollingRuns {
  import opened Bytes
  import opened Polling
  import opened Protocol
  import opened Ownership

  /** The pending list of the given calls. */
  function SubsOf(s: State, ks: seq<nat>): seq<CallbackInfo>
    requires AllListed(s, ks)
  {
    seq(|ks|, j requires 0 <= j < |ks| => CallbackInfo(s.calls[ks[j]].phase.slot, s.calls[ks[j]].phase.deadline, ks[j]))
  }

  predicate AllListed(s: State, ks: seq<nat>) {
    forall j | 0 <= j < |ks| ::
      ks[j] < |s.calls| && s.calls[ks[j]].phase.Listed? && s.calls[ks[j]].phase.slot <= 0xFFFF
  }

  /** The pass always finds distinct slots in its list. */
  lemma {:induction false} PendingSlotsAreDistinct(c: Config, run: seq<Action>, ks: seq<nat>)
    requires Exec(c, run).Some? && AllListed(Exec(c, run).value, ks) && Distinct(ks)
    ensures DistinctSlots(SubsOf(Exec(c, run).value, ks))
  {
    OwnershipAlways(c, run);
    var s := Exec(c, run).value;
    forall i, j | 0 <= i < j < |ks| ensures SubsOf(s, ks)[i].cbIndex != SubsOf(s, ks)[j].cbIndex {
      assert CallInv(s, ks[i]) && CallInv(s, ks[j]);
    }
  }

  /** The phase in which the pass leaves an entry's call. */
  function PhaseAfter(sub: CallbackInfo, o: Option<Task>): Phase {
    match o
    case None => Listed(sub.cbIndex, sub.timeout)
    case Some(TimedOut(_)) => Expired(sub.cbIndex)
    case Some(GotReply(_, data)) => Popped(data)
  }

  /** The step of the protocol that one iteration takes, if any. */
  function ActionOf(look: Look, o: Option<Task>): seq<Action> {
    match o
    case None => []
    case Some(TimedOut(sub)) => [Expire(sub.id, look.now, look.active)]
    case Some(GotReply(sub, _)) => [Collect(sub.id, look.now)]
  }

  lemma {:induction false} VisitIsAction(c: Config, s: State, k: nat, look: Look)
    requires k < |s.calls| && s.calls[k].phase.Listed? && s.calls[k].phase.slot <= 0xFFFF
    ensures var sub := CallbackInfo(s.calls[k].phase.slot, s.calls[k].phase.deadline, k);
      var (o, slots) := Visit(sub, look, s.slots);
      && (o.None? ==> slots == s.slots)
      && (o.Some? ==>
            && |ActionOf(look, o)| == 1 && Enabled(c, s, ActionOf(look, o)[0])
            && var s' := Do(c, s, ActionOf(look, o)[0]);
               s'.slots == slots && s'.calls == s.calls[k := s.calls[k].(phase := PhaseAfter(sub, o))])
  {
  }

  /** The phase in which the pass leaves the call of entry j. */
  function LeftIn(s: State, ks: seq<nat>, looks: seq<Look>, j: nat): Phase
    requires AllListed(s, ks) && j < |ks| <= |looks|
  {
    var subs := SubsOf(s, ks);
    PhaseAfter(subs[j], Visit(subs[j], looks[j], PassOver(subs, looks, s.slots, j).slots).0)
  }

  /** The calls after the pass has visited the first n entries. */
  function CallsAfter(s: State, ks: seq<nat>, looks: seq<Look>, n: nat): (calls: seq<CallState>)
    requires AllListed(s, ks) && n <= |ks| <= |looks|
    ensures |calls| == |s.calls|
  {
    if n == 0 then s.calls
    else
      var k := ks[n - 1];
      CallsAfter(s, ks, looks, n - 1)[k := s.calls[k].(phase := LeftIn(s, ks, looks, n - 1))]
  }

  predicate Distinct(ks: seq<nat>) {
    forall i, j | 0 <= i < j < |ks| :: ks[i] != ks[j]
  }

  /** Each visited call is in the phase its entry's fate says. */
  lemma {:induction false} VisitedCall(s: State, ks: seq<nat>, looks: seq<Look>, n: nat, j: nat)
    requires AllListed(s, ks) && j < n <= |ks| <= |looks| && Distinct(ks)
    ensures CallsAfter(s, ks, looks, n)[ks[j]] == s.calls[ks[j]].(phase := LeftIn(s, ks, looks, j))
  {
    if j < n - 1 {
      VisitedCall(s, ks, looks, n - 1, j);
    }
  }

  /** No other call has changed. */
  lemma {:induction false} OtherCall(s: State, ks: seq<nat>, looks: seq<Look>, n: nat, k: nat)
    requires AllListed(s, ks) && n <= |ks| <= |looks| && k < |s.calls| && k !in ks[..n]
    ensures CallsAfter(s, ks, looks, n)[k] == s.calls[k]
  {
    if n > 0 {
      assert ks[n - 1] in ks[..n];
      assert ks[..n] == ks[..n - 1] + [ks[n - 1]];
      OtherCall(s, ks, looks, n - 1, k);
    }
  }

  /** State t' is t after the visit of the given entry. */
  predicate Left(t: State, t': State, sub: CallbackInfo, look: Look)
    requires sub.id < |t.calls|
  {
    var (o, slots) := Visit(sub, look, t.slots);
    t'.slots == slots && t'.calls == t.calls[sub.id := t.calls[sub.id].(phase := PhaseAfter(sub, o))]
  }

  /** One iteration, as one step of the protocol or none. */
  lemma {:induction false} VisitIsRun(c: Config, run: seq<Action>, t: State, sub: CallbackInfo, look: Look)
      returns (more: seq<Action>, t': State)
    requires Exec(c, run) == Some(t) && sub.id < |t.calls| && t.calls[sub.id].phase == Listed(sub.cbIndex, sub.timeout)
    ensures |more| <= 1 && Exec(c, run + more) == Some(t') && Left(t, t', sub, look)
    ensures more == ActionOf(look, Visit(sub, look, t.slots).0)
  {
    var o := Visit(sub, look, t.slots).0;
    VisitIsAction(c, t, sub.id, look);
    more := ActionOf(look, o);
    if o.Some? {
      assert more == [more[0]];
      t' := Do(c, t, more[0]);
      ExecSnoc(c, run, t, more[0]);
    } else {
      t' := t;
      assert run + [] == run;
    }
  }

  lemma {:induction false} PassedOneMore(s: State, t: State, t': State, ks: seq<nat>, looks: seq<Look>, n: nat)
    requires AllListed(s, ks) && 0 < n <= |ks| <= |looks|
    requires t.slots == PassOver(SubsOf(s, ks), looks, s.slots, n - 1).slots
    requires t.calls == CallsAfter(s, ks, looks, n - 1)
    requires t.calls[ks[n - 1]] == s.calls[ks[n - 1]] && Left(t, t', SubsOf(s, ks)[n - 1], looks[n - 1])
    ensures t'.slots == PassOver(SubsOf(s, ks), looks, s.slots, n).slots && t'.calls == CallsAfter(s, ks, looks, n)
  {
  }

  lemma {:induction false} NextEntry(s: State, t: State, ks: seq<nat>, looks: seq<Look>, n: nat)
    requires AllListed(s, ks) && 0 < n <= |ks| <= |looks| && ks[n - 1] !in ks[..n - 1]
    requires t.calls == CallsAfter(s, ks, looks, n - 1)
    ensures var sub := SubsOf(s, ks)[n - 1];
      && sub.id == ks[n - 1] < |t.calls| && t.calls[ks[n - 1]] == s.calls[ks[n - 1]]
      && t.calls[sub.id].phase == Listed(sub.cbIndex, sub.timeout)
  {
    OtherCall(s, ks, looks, n - 1, ks[n - 1]);
  }

  lemma {:induction false} PassGoesOn(c: Config, run: seq<Action>, s: State, t: State,
      ks: seq<nat>, looks: seq<Look>, n: nat)
      returns (more: seq<Action>, t': State)
    requires AllListed(s, ks) && 0 < n <= |ks| <= |looks| && ks[n - 1] !in ks[..n - 1] && Exec(c, run) == Some(t)
    requires t.slots == PassOver(SubsOf(s, ks), looks, s.slots, n - 1).slots
    requires t.calls == CallsAfter(s, ks, looks, n - 1)
    ensures |more| <= 1 && Exec(c, run + more) == Some(t')
    ensures t'.slots == PassOver(SubsOf(s, ks), looks, s.slots, n).slots && t'.calls == CallsAfter(s, ks, looks, n)
  {
    NextEntry(s, t, ks, looks, n);
    more, t' := VisitIsRun(c, run, t, SubsOf(s, ks)[n - 1], looks[n - 1]);
    PassedOneMore(s, t, t', ks, looks, n);
  }

  lemma {:induction false} PassSteps(c: Config, run: seq<Action>, s: State, ks: seq<nat>, looks: seq<Look>, n: nat)
      returns (more: seq<Action>, t: State)
    requires Exec(c, run) == Some(s) && AllListed(s, ks) && n <= |ks| <= |looks| && Distinct(ks)
    ensures |more| <= n && Exec(c, run + more) == Some(t)
    ensures t.slots == PassOver(SubsOf(s, ks), looks, s.slots, n).slots && t.calls == CallsAfter(s, ks, looks, n)
  {
    if n == 0 {
      more, t := [], s;
      assert run + [] == run;
    } else {
      var before, mid := PassSteps(c, run, s, ks, looks, n - 1);
      assert ks[n - 1] !in ks[..n - 1];
      var last;
      last, t := PassGoesOn(c, run + before, s, mid, ks, looks, n);
      more := before + last;
      ExecConcat(c, run, before, last);
    }
  }

  /** After any run, the pass over the pending entries of some calls is a further run of at most
      one step per entry, with the same slots; each visited call is in the phase that its entry's
      fate says, and no other call has changed. */
  lemma {:induction false} PassIsRun(c: Config, run: seq<Action>, s: State, ks: seq<nat>, looks: seq<Look>, n: nat)
      returns (more: seq<Action>, t: State)
    requires Exec(c, run) == Some(s) && AllListed(s, ks) && n <= |ks| <= |looks| && Distinct(ks)
    ensures |more| <= n && Exec(c, run + more) == Some(t)
    ensures t.slots == PassOver(SubsOf(s, ks), looks, s.slots, n).slots && |t.calls| == |s.calls|
    ensures forall j | 0 <= j < n :: t.calls[ks[j]] == s.calls[ks[j]].(phase := LeftIn(s, ks, looks, j))
    ensures forall k | 0 <= k < |s.calls| && k !in ks[..n] :: t.calls[k] == s.calls[k]
  {
    more, t := PassSteps(c, run, s, ks, looks, n);
    forall j | 0 <= j < n ensures t.calls[ks[j]] == s.calls[ks[j]].(phase := LeftIn(s, ks, looks, j)) {
      VisitedCall(s, ks, looks, n, j);
    }
    forall k: nat | k < |s.calls| && k !in ks[..n] ensures t.calls[k] == s.calls[k] {
      OtherCall(s, ks, looks, n, k);
    }
  }
}
