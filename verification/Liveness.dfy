/** No callback is stuck: from every reachable state each one can still be invoked by steps of
    its own client, whatever the server and the other clients do. */
module Liveness {
  import opened Bytes
  import opened Protocol
  import opened Ownership

  /** The most steps a call's callback is away from being invoked. */
  function StepsLeft(p: Phase): nat {
    match p
    case Issued => 4
    case Holding(_) => 3
    case Listed(_, _) => 2
    case Expired(_) => 1
    case Popped(_) => 1
    case NoCallback => 0
    case Completed(_) => 0
  }

  /** The client's next step for call k when no reply comes. */
  function NextStep(p: Phase, k: nat): Action
    requires StepsLeft(p) > 0
  {
    match p
    case Issued => Acquire(k)
    case Holding(_) => Enlist(k, 0)
    case Listed(_, deadline) => Expire(k, deadline + 1, true)
    case Expired(_) => RunExpired(k)
    case Popped(_) => RunReply(k)
  }

  lemma {:induction false} NextStepAdvances(c: Config, s: State, k: nat)
    requires |s.owner| == |s.slots| <= 0xFFFF && k < |s.calls| && StepsLeft(s.calls[k].phase) > 0
    ensures var a := NextStep(s.calls[k].phase, k);
      && Enabled(c, s, a) && k < |Do(c, s, a).calls|
      && Do(c, s, a).calls[k].job == s.calls[k].job
      && StepsLeft(Do(c, s, a).calls[k].phase) < StepsLeft(s.calls[k].phase)
  {
  }

  /** Only steps of call k's own client. */
  predicate OnlyClientSteps(run: seq<Action>, k: nat) {
    forall j | 0 <= j < |run| :: ClientStep(run[j], k)
  }

  lemma {:induction false} OneStepFurther(c: Config, run: seq<Action>, s: State, k: nat) returns (a: Action, t: State)
    requires Exec(c, run) == Some(s) && k < |s.calls| && s.calls[k].job.hasCb && !s.calls[k].phase.Completed?
    ensures OnlyClientSteps([a], k) && Exec(c, run + [a]) == Some(t)
    ensures k < |t.calls| && t.calls[k].job.hasCb
    ensures StepsLeft(t.calls[k].phase) < StepsLeft(s.calls[k].phase)
  {
    OwnershipAlways(c, run);
    assert CallInv(s, k);
    a := NextStep(s.calls[k].phase, k);
    NextStepAdvances(c, s, k);
    t := Do(c, s, a);
    ExecSnoc(c, run, s, a);
  }

  /** After any run, the callback of any call that was given one can be invoked within four
      further steps of its own client, even if the server is gone. */
  lemma {:induction false} EveryCallbackCanComplete(c: Config, run: seq<Action>, s: State, k: nat)
      returns (more: seq<Action>, t: State)
    requires Exec(c, run) == Some(s) && k < |s.calls| && s.calls[k].job.hasCb
    ensures |more| <= StepsLeft(s.calls[k].phase) <= 4 && OnlyClientSteps(more, k)
    ensures Exec(c, run + more) == Some(t) && k < |t.calls| && t.calls[k].phase.Completed?
    decreases StepsLeft(s.calls[k].phase)
  {
    if s.calls[k].phase.Completed? {
      more, t := [], s;
      assert run + [] == run;
    } else {
      var a, mid := OneStepFurther(c, run, s, k);
      var rest;
      rest, t := EveryCallbackCanComplete(c, run + [a], mid, k);
      more := [a] + rest;
      ExecConcat(c, run, [a], rest);
    }
  }
}
