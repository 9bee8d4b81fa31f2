/** How many calls the request log takes between two drains. */
module Admission {
  import opened IPCCallModel
  import opened Protocol

  /** The pushes, accepted or not, since the server last cleared the log. */
  function PushesSinceDrain(run: seq<Action>): nat {
    if run == [] then 0
    else
      var before, last := PushesSinceDrain(run[..|run| - 1]), run[|run| - 1];
      if last.Drain? then 0 else if last.Push? then before + 1 else before
  }

  lemma {:induction false} OneMoreFrame(n: nat, w: nat)
    ensures (n + 1) * w == n * w + w
  {
  }

  lemma {:induction false} BoundStep(c: Config, s: State, a: Action, n: nat)
    requires Enabled(c, s, a) && |s.log| <= n * c.callSz && (a.Push? ==> n > 0 && |s.log| <= (n - 1) * c.callSz)
    ensures |Do(c, s, a).log| <= (if a.Drain? then 0 else n * c.callSz)
  {
    if a.Push? {
      OneMoreFrame(n - 1, c.callSz);
    } else if !Quiet(a) {
      OthersKeepQueue(c, s, a);
    }
  }

  lemma {:induction false} LogIsBounded(c: Config, run: seq<Action>)
    requires Exec(c, run).Some?
    ensures |Exec(c, run).value.log| <= PushesSinceDrain(run) * c.callSz
    decreases |run|
  {
    if run != [] {
      var before, s, a := LastAction(c, run);
      LogIsBounded(c, before);
      var n := PushesSinceDrain(before);
      OneMoreFrame(n, c.callSz);
      BoundStep(c, s, a, if a.Push? then n + 1 else n);
    }
  }

  lemma {:induction false} Monotone(n: nat, m: nat, w: nat)
    requires n <= m
    ensures n * w <= m * w
  {
  }

  /** In every run the first `queue` calls pushed after a clear are accepted, for a log of `queue`
      slots and calls whose arguments are at most MAX_ARGS_SZ bytes. */
  lemma {:induction false} FirstCallsAreAccepted(c: Config, run: seq<Action>, k: nat, queue: nat)
    requires Exec(c, run).Some? && Enabled(c, Exec(c, run).value, Push(k))
    requires c.capacity == queue * c.callSz && PushesSinceDrain(run) < queue
    requires |Exec(c, run).value.calls[k].job.args| <= MaxArgsOf(c.callSz)
    ensures var s, s' := Exec(c, run).value, Do(c, Exec(c, run).value, Push(k));
      s'.calls[k].progress == Sent && s'.accepted == s.accepted + [k]
  {
    var n := PushesSinceDrain(run);
    LogIsBounded(c, run);
    OneMoreFrame(n, c.callSz);
    Monotone(n + 1, queue, c.callSz);
  }
}
