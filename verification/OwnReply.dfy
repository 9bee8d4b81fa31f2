/** Exactly when a waiting call is sure of its own reply, with timeouts and late answers included:
    it is unless another request can still be answered into its slot. And its own reply can always
    still arrive, if its own request can still be answered. */
module OwnReply {
  import opened Bytes
  import opened CallbackSpaceModel
  import opened IPCCallbackModel
  import opened Codec
  import opened Protocol
  import opened Ownership
  import opened Completion
  import opened Fifo
  import opened Matching
  import opened ServerRuns

  /** Call k holds or lists a pending slot and has not been answered. */
  ghost predicate Waiting(s: State, k: nat) {
    && k < |s.calls| && (s.calls[k].phase.Holding? || s.calls[k].phase.Listed?)
    && s.calls[k].phase.slot < |s.slots| && s.slots[s.calls[k].phase.slot] == Pending
    && !s.calls[k].progress.Answered?
  }

  /** After the run, k's callback has been invoked with the given reply. */
  predicate HandedReply(c: Config, run: seq<Action>, k: nat, data: seq<Byte>) {
    Exec(c, run).Some? && (k, Replied(data)) in Exec(c, run).value.completions
  }

  /** After the run, k's own handler has given the given answer. */
  predicate GaveAnswer(c: Config, run: seq<Action>, k: nat, data: seq<Byte>) {
    && Exec(c, run).Some? && k < |Exec(c, run).value.calls|
    && Exec(c, run).value.calls[k].progress == Answered(data)
  }

  // The shortest reply: a code and a payload size.
  const MIN_REPLY: nat := 4

  lemma {:induction false} RepliesAreNotShort(code: UInt16, msg: seq<Byte>, args: seq<Value>)
    ensures |ReplyBytes(code, msg, args)| >= MIN_REPLY
  {
    assert Enc(StrV(msg)) == EncBody(StrV(msg));
  }

  /** Handlers answer with replies. */
  ghost predicate Produced(run: seq<Action>) {
    forall j | 0 <= j < |run| && run[j].Answer? :: IsReply(run[j].data)
  }

  ghost predicate IsReply(data: seq<Byte>) {
    exists code, msg, args :: data == ReplyBytes(code, msg, args)
  }

  /** However the run goes on, with replies as answers and without strays, a reply that k's
      callback is invoked with is its own handler's. */
  ghost predicate AlwaysOwn(c: Config, run: seq<Action>, k: nat) {
    forall more, data | Tidy(c, more) && Produced(more) && HandedReply(c, run + more, k, data) ::
      GaveAnswer(c, run + more, k, data)
  }

  // ----- the server catches up -----

  /** Steps of the server's loop. */
  predicate ServerOnly(run: seq<Action>) {
    forall j | 0 <= j < |run| :: run[j].Parse? || run[j].Drain?
  }

  /** What the server's loop does to one call: a queued request is parsed, nothing else changes. */
  ghost predicate CaughtUp(before: CallState, after: CallState) {
    && after == before.(progress := after.progress)
    && (after.progress != before.progress ==>
          InQueue(before.progress) && (after.progress.Handling? || after.progress.Skipped?))
  }

  lemma {:induction false} LoopStep(c: Config, s: State, a: Action, k: nat)
    requires FifoInv(c, s) && Enabled(c, s, a) && (a.Parse? || a.Drain?) && k < |s.calls|
    ensures Do(c, s, a).slots == s.slots && k < |Do(c, s, a).calls|
    ensures CaughtUp(s.calls[k], Do(c, s, a).calls[k])
  {
    if a.Parse? {
      ParseIsNext(c, s);
      assert InQueue(s.calls[s.inCopy[0]].progress);
    }
  }

  lemma {:induction false} LoopRun(c: Config, run: seq<Action>, s: State, more: seq<Action>, t: State, k: nat)
    requires Exec(c, run) == Some(s) && Exec(c, run + more) == Some(t) && ServerOnly(more) && k < |s.calls|
    ensures t.slots == s.slots && k < |t.calls| && CaughtUp(s.calls[k], t.calls[k])
    decreases |more|
  {
    if more == [] {
      assert run + more == run;
    } else {
      var before, mid, a := LastOfMore(c, run, more);
      LoopRun(c, run, s, before, mid, k);
      FifoAlways(c, run + before);
      LoopStep(c, mid, a, k);
    }
  }

  lemma {:induction false} ParsesAreServer(n: nat)
    ensures ServerOnly(Parses(n))
  {
    if n > 0 {
      ParsesAreServer(n - 1);
    }
  }

  lemma {:induction false} EmptyLogHasNoCalls(c: Config, s: State)
    requires FifoInv(c, s) && s.log == []
    ensures s.inLog == []
  {
  }

  /** The server can always parse its copy to the end. */
  lemma {:induction false} FinishCopy(c: Config, run: seq<Action>, s: State) returns (more: seq<Action>, t: State)
    requires Exec(c, run) == Some(s)
    ensures Exec(c, run + more) == Some(t) && ServerOnly(more) && t.inCopy == [] && t.accepted == s.accepted
  {
    more := Parses(|s.inCopy|);
    ParsesAreServer(|s.inCopy|);
    ParseAll(c, run, s, |s.inCopy|);
    t := Exec(c, run + more).value;
  }

  /** The server can always catch up: everything accepted is parsed and the log is empty. */
  lemma {:induction false} CatchUp(c: Config, run: seq<Action>, s: State) returns (more: seq<Action>, t: State)
    requires Exec(c, run) == Some(s)
    ensures Exec(c, run + more) == Some(t) && ServerOnly(more)
    ensures t.log == [] && t.parsed == t.accepted == s.accepted
  {
    var first, mid := FinishCopy(c, run, s);
    FifoAlways(c, run + first);
    if mid.log == [] {
      EmptyLogHasNoCalls(c, mid);
      more, t := first, mid;
    } else {
      var rest;
      rest, t := DrainRest(c, run + first, mid);
      more := first + rest;
      ExecConcat(c, run, first, rest);
    }
  }

  lemma {:induction false} DrainRest(c: Config, run: seq<Action>, s: State) returns (more: seq<Action>, t: State)
    requires Exec(c, run) == Some(s) && s.inCopy == [] && s.log != []
    ensures Exec(c, run + more) == Some(t) && ServerOnly(more)
    ensures t.log == [] && t.parsed == t.accepted == s.accepted
  {
    FifoAlways(c, run);
    NothingLeft(c, s);
    ReadMemoryIsRun(c, run, s);
    more := [Drain] + Parses(|s.inLog|);
    ParsesAreServer(|s.inLog|);
    ExecConcat(c, run, [Drain], Parses(|s.inLog|));
    t := Exec(c, run + [Drain] + Parses(|s.inLog|)).value;
  }

  // ----- a request that can be answered, is -----

  lemma {:induction false} SentIsAccepted(c: Config, run: seq<Action>, s: State, k: nat)
    requires Exec(c, run) == Some(s) && k < |s.calls| && s.calls[k].progress.Sent?
    ensures k in s.accepted
    decreases |run|
  {
    if run != [] {
      var before, t, a := LastAction(c, run);
      SentBefore(c, t, a, k);
      if k < |t.calls| && t.calls[k].progress.Sent? {
        SentIsAccepted(c, before, t, k);
      }
    }
  }

  lemma {:induction false} SentBefore(c: Config, s: State, a: Action, k: nat)
    requires Enabled(c, s, a) && k < |Do(c, s, a).calls| && Do(c, s, a).calls[k].progress.Sent?
    ensures s.accepted <= Do(c, s, a).accepted
    ensures (k < |s.calls| && s.calls[k].progress.Sent?) || k in Do(c, s, a).accepted
  {
    if !Quiet(a) {
      OthersKeepQueue(c, s, a);
      OthersDoNotSend(c, s, a, k);
    }
  }

  lemma {:induction false} OthersDoNotSend(c: Config, s: State, a: Action, k: nat)
    requires Enabled(c, s, a) && !Quiet(a) && k < |Do(c, s, a).calls| && Do(c, s, a).calls[k].progress.Sent?
    ensures k < |s.calls| && s.calls[k].progress.Sent?
  {
  }

  /** A sent request of a registered method reaches its handler. */
  lemma {:induction false} SentIsHandled(c: Config, run: seq<Action>, s: State, j: nat)
      returns (more: seq<Action>, t: State)
    requires Exec(c, run) == Some(s) && j < |s.calls| && s.calls[j].progress.Sent?
    requires s.calls[j].job.methodId in c.methods
    ensures Exec(c, run + more) == Some(t) && ServerOnly(more)
    ensures j < |t.calls| && t.calls[j].progress.Handling?
  {
    more, t := CatchUp(c, run, s);
    SentIsAccepted(c, run, s, j);
    LoopRun(c, run, s, more, t, j);
    FifoAlways(c, run + more);
    assert RequestInv(c, t, j);
    ParsedIsParsed(t, j);
  }

  lemma {:induction false} ParsedIsParsed(t: State, j: nat)
    requires OrderInv(t) && j in t.parsed
    ensures j < |t.calls| && Parsed(t.calls[j].progress)
  {
  }

  /** With an empty log a request that fits is accepted. */
  lemma {:induction false} PushedWhenEmpty(c: Config, s: State, j: nat)
    requires j < |s.calls| && s.calls[j].progress.ToPush? && s.log == [] && FrameFits(c, s.calls[j].job)
    ensures Enabled(c, s, Push(j)) && Do(c, s, Push(j)).slots == s.slots
    ensures Do(c, s, Push(j)).calls == s.calls[j := s.calls[j].(progress := Sent)]
  {
  }

  /** Call k while others' requests move: its phase and slot stay, and it stays unanswered. */
  ghost predicate StillWaiting(s: State, t: State, k: nat) {
    && Waiting(s, k) && Waiting(t, k) && t.calls[k].phase == s.calls[k].phase
  }

  lemma {:induction false} LoopKeepsWaiting(c: Config, run: seq<Action>, s: State, more: seq<Action>, t: State, k: nat)
    requires Exec(c, run) == Some(s) && Exec(c, run + more) == Some(t) && ServerOnly(more) && Waiting(s, k)
    ensures StillWaiting(s, t, k)
  {
    LoopRun(c, run, s, more, t, k);
  }

  /** Neither strays nor answers other than the given one. */
  predicate OnlyAnswers(run: seq<Action>, data: seq<Byte>) {
    forall j | 0 <= j < |run| :: !run[j].Issue? && (run[j].Answer? ==> run[j].data == data)
  }

  lemma {:induction false} OnlyAnswersConcat(x: seq<Action>, y: seq<Action>, data: seq<Byte>)
    requires OnlyAnswers(x, data) && OnlyAnswers(y, data)
    ensures OnlyAnswers(x + y, data)
  {
  }

  /** A request that fits can be sent while k waits. */
  lemma {:induction false} PushIsSent(c: Config, run: seq<Action>, s: State, j: nat, k: nat, data: seq<Byte>)
      returns (more: seq<Action>, t: State)
    requires Exec(c, run) == Some(s) && Waiting(s, k) && j < |s.calls|
    requires s.calls[j].progress.ToPush? && CanAnswer(c, s.calls[j])
    ensures Exec(c, run + more) == Some(t) && StillWaiting(s, t, k) && OnlyAnswers(more, data)
    ensures j < |t.calls| && t.calls[j] == s.calls[j].(progress := Sent)
  {
    var first, mid := CatchUp(c, run, s);
    LoopRun(c, run, s, first, mid, j);
    LoopKeepsWaiting(c, run, s, first, mid, k);
    PushedWhenEmpty(c, mid, j);
    ExecSnoc(c, run + first, mid, Push(j));
    ExecConcat(c, run, first, [Push(j)]);
    OnlyAnswersConcat(first, [Push(j)], data);
    more, t := first + [Push(j)], Do(c, mid, Push(j));
  }

  /** A request that was sent reaches its handler while k waits. */
  lemma {:induction false} SentWhileWaiting(c: Config, run: seq<Action>, s: State, j: nat, k: nat, data: seq<Byte>)
      returns (more: seq<Action>, t: State)
    requires Exec(c, run) == Some(s) && Waiting(s, k) && j < |s.calls|
    requires s.calls[j].progress.Sent? && s.calls[j].job.methodId in c.methods
    ensures Exec(c, run + more) == Some(t) && StillWaiting(s, t, k) && OnlyAnswers(more, data)
    ensures j < |t.calls| && t.calls[j] == s.calls[j].(progress := t.calls[j].progress) && t.calls[j].progress.Handling?
  {
    more, t := SentIsHandled(c, run, s, j);
    LoopRun(c, run, s, more, t, j);
    LoopKeepsWaiting(c, run, s, more, t, k);
  }

  lemma {:induction false} PushIsHandled(c: Config, run: seq<Action>, s: State, j: nat, k: nat, data: seq<Byte>)
      returns (more: seq<Action>, t: State)
    requires Exec(c, run) == Some(s) && Waiting(s, k) && j < |s.calls|
    requires s.calls[j].progress.ToPush? && CanAnswer(c, s.calls[j])
    ensures Exec(c, run + more) == Some(t) && StillWaiting(s, t, k) && OnlyAnswers(more, data)
    ensures j < |t.calls| && t.calls[j] == s.calls[j].(progress := t.calls[j].progress) && t.calls[j].progress.Handling?
  {
    var first, mid := PushIsSent(c, run, s, j, k, data);
    var rest;
    rest, t := SentWhileWaiting(c, run + first, mid, j, k, data);
    ExecConcat(c, run, first, rest);
    OnlyAnswersConcat(first, rest, data);
    more := first + rest;
  }

  /** A request with the slot on which k waits, listed, is past pushCb. */
  lemma {:induction false} RequestHasLeft(c: Config, run: seq<Action>, s: State, j: nat, k: nat)
    requires Exec(c, run) == Some(s) && Waiting(s, k) && s.calls[k].phase.Listed? && j < |s.calls|
    requires Outstanding(s.calls[j]) && Carries(s.calls[j]) == s.calls[k].phase.slot
    ensures !s.calls[j].progress.NotReady?
  {
    OwnershipAlways(c, run);
    FifoAlways(c, run);
    assert CallInv(s, j) && CallInv(s, k) && RequestInv(c, s, j);
  }

  /** Whatever can be answered into the slot on which k waits can reach a handler while it waits. */
  lemma {:induction false} RequestIsHandled(c: Config, run: seq<Action>, s: State, j: nat, k: nat, data: seq<Byte>)
      returns (more: seq<Action>, t: State)
    requires Exec(c, run) == Some(s) && Waiting(s, k) && s.calls[k].phase.Listed? && j < |s.calls|
    requires CanAnswer(c, s.calls[j]) && Carries(s.calls[j]) == s.calls[k].phase.slot
    ensures Exec(c, run + more) == Some(t) && StillWaiting(s, t, k) && OnlyAnswers(more, data)
    ensures j < |t.calls| && t.calls[j] == s.calls[j].(progress := t.calls[j].progress) && t.calls[j].progress.Handling?
  {
    RequestHasLeft(c, run, s, j, k);
    match s.calls[j].progress
    case Sent =>
      more, t := SentWhileWaiting(c, run, s, j, k, data);
    case ToPush =>
      more, t := PushIsHandled(c, run, s, j, k, data);
    case Handling(_, _) =>
      more, t := [], s;
      assert run + more == run;
  }

  // ----- and then it answers -----

  /** Exactly when an answer reaches a waiting call. Call k waits on a pending slot and has not
      been answered; any handler j may answer. Call k can then collect a reply if and only if the
      answer fits, k has not expired, and j carries the index of k's slot; its callback is then
      invoked with j's answer, which is its own if and only if j is k. */
  lemma {:induction false} AnswerReaches(c: Config, s: State, j: nat, k: nat, data: seq<Byte>, now: int)
    requires Enabled(c, s, Answer(j, data)) && k < |s.calls| && s.calls[k].phase.Listed?
    requires s.calls[k].phase.slot < |s.slots| && s.slots[s.calls[k].phase.slot] == Pending
    requires !s.calls[k].progress.Answered?
    ensures var s1 := Do(c, s, Answer(j, data));
      && (Enabled(c, s1, Collect(k, now)) <==>
            |data| <= c.maxReply && now <= s.calls[k].phase.deadline
            && s.calls[j].progress.cbIndex == s.calls[k].phase.slot)
      && (Enabled(c, s1, Collect(k, now)) ==>
            var s2 := Do(c, s1, Collect(k, now));
            Enabled(c, s2, RunReply(k)) &&
            var s3 := Do(c, s2, RunReply(k));
            && s3.completions == s.completions + [(k, Replied(data))]
            && (s3.calls[k].progress == Answered(data) <==> j == k))
  {
  }

  /** A call that holds its slot can list it and keeps waiting. */
  lemma {:induction false} EnlistWaits(c: Config, s: State, k: nat, i: nat)
    requires Waiting(s, k) && s.calls[k].phase.Holding?
    ensures Enabled(c, s, Enlist(k, 0))
    ensures var t := Do(c, s, Enlist(k, 0));
      && Waiting(t, k) && t.calls[k].phase == Listed(s.calls[k].phase.slot, 0)
      && (Unthreatened(c, s, k, i) <==> Unthreatened(c, t, k, i))
  {
    var t := Do(c, s, Enlist(k, 0));
    assert forall j | 0 <= j < |s.calls| && j != k :: t.calls[j] == s.calls[j];
  }

  lemma {:induction false} HandlerHasIndex(c: Config, run: seq<Action>, s: State, j: nat)
    requires Exec(c, run) == Some(s) && j < |s.calls| && s.calls[j].progress.Handling?
    ensures s.calls[j].progress.cbIndex == Carries(s.calls[j])
  {
    FifoAlways(c, run);
    assert RequestInv(c, s, j);
  }

  /** A request in a handler, with the slot on which k waits: its answer is handed to k, and is
      k's own if and only if the request is. */
  lemma {:induction false} AnswerArrives(c: Config, run: seq<Action>, s: State, j: nat, k: nat, data: seq<Byte>)
      returns (more: seq<Action>, t: State)
    requires Exec(c, run) == Some(s) && Waiting(s, k) && s.calls[k].phase.Listed? && |data| <= c.maxReply
    requires j < |s.calls| && s.calls[j].progress.Handling? && s.calls[j].job.methodId in c.answering
    requires Carries(s.calls[j]) == s.calls[k].phase.slot
    ensures Exec(c, run + more) == Some(t) && OnlyAnswers(more, data)
    ensures k < |t.calls| && (k, Replied(data)) in t.completions
    ensures t.calls[k].progress == Answered(data) <==> j == k
  {
    HandlerHasIndex(c, run, s, j);
    var now := s.calls[k].phase.deadline;
    AnswerReaches(c, s, j, k, data, now);
    ExecThree(c, run, s, Answer(j, data), Collect(k, now), RunReply(k));
    t := Do(c, Do(c, Do(c, s, Answer(j, data)), Collect(k, now)), RunReply(k));
    more := [Answer(j, data)] + [Collect(k, now)] + [RunReply(k)];
  }

  /** Whatever can be answered into the slot on which a listed call waits can complete it, with any
      answer that fits. */
  lemma {:induction false} RequestArrives(c: Config, run: seq<Action>, s: State, j: nat, k: nat, data: seq<Byte>)
      returns (more: seq<Action>, t: State)
    requires Exec(c, run) == Some(s) && Waiting(s, k) && s.calls[k].phase.Listed? && |data| <= c.maxReply
    requires j < |s.calls| && CanAnswer(c, s.calls[j]) && Carries(s.calls[j]) == s.calls[k].phase.slot
    ensures Exec(c, run + more) == Some(t) && OnlyAnswers(more, data)
    ensures k < |t.calls| && (k, Replied(data)) in t.completions
    ensures t.calls[k].progress == Answered(data) <==> j == k
  {
    var first, mid := RequestIsHandled(c, run, s, j, k, data);
    var rest;
    rest, t := AnswerArrives(c, run + first, mid, j, k, data);
    more := first + rest;
    ExecConcat(c, run, first, rest);
    OnlyAnswersConcat(first, rest, data);
  }

  /** Progress: after any run, a listed call that waits on its slot and whose request can be
      answered can still be handed its own handler's reply, whatever that reply is, if it fits. */
  lemma {:induction false} OwnReplyCanArrive(c: Config, run: seq<Action>, s: State, k: nat, data: seq<Byte>)
      returns (more: seq<Action>, t: State)
    requires Exec(c, run) == Some(s) && Waiting(s, k) && s.calls[k].phase.Listed?
    requires CanAnswer(c, s.calls[k]) && |data| <= c.maxReply
    ensures Exec(c, run + more) == Some(t) && k < |t.calls|
    ensures (k, Replied(data)) in t.completions && t.calls[k].progress == Answered(data)
  {
    OwnershipAlways(c, run);
    assert CallInv(s, k);
    more, t := RequestArrives(c, run, s, k, k, data);
  }

  lemma {:induction false} OnlyRepliesArePossible(c: Config, run: seq<Action>, data: seq<Byte>)
    requires OnlyAnswers(run, data) && IsReply(data)
    ensures Tidy(c, run) && Produced(run)
  {
  }

  lemma {:induction false} ThreatenedIsNotOwn(c: Config, run: seq<Action>, s: State, k: nat)
    requires Exec(c, run) == Some(s) && Waiting(s, k) && s.calls[k].phase.Listed? && c.maxReply >= MIN_REPLY
    requires !Unthreatened(c, s, k, s.calls[k].phase.slot)
    ensures !AlwaysOwn(c, run, k)
  {
    var j :| 0 <= j < |s.calls| && j != k && CanAnswer(c, s.calls[j])
             && Carries(s.calls[j]) == s.calls[k].phase.slot;
    var data := ReplyBytes(0, [], []);
    assert |data| == MIN_REPLY && IsReply(data);
    var more, t := RequestArrives(c, run, s, j, k, data);
    OnlyRepliesArePossible(c, more, data);
    assert HandedReply(c, run + more, k, data) && !GaveAnswer(c, run + more, k, data);
  }

  /** What is true of every continuation is true of those that begin with a given step. */
  lemma {:induction false} AlwaysOwnLater(c: Config, run: seq<Action>, a: Action, k: nat)
    requires AlwaysOwn(c, run, k) && !a.Issue? && !a.Answer?
    ensures AlwaysOwn(c, run + [a], k)
  {
    forall more, data | Tidy(c, more) && Produced(more) && HandedReply(c, run + [a] + more, k, data)
      ensures GaveAnswer(c, run + [a] + more, k, data)
    {
      ExecConcat(c, run, [a], more);
      FirstStep(c, a, more);
      assert HandedReply(c, run + ([a] + more), k, data);
    }
  }

  lemma {:induction false} FirstStep(c: Config, a: Action, more: seq<Action>)
    requires Tidy(c, more) && Produced(more) && !a.Issue? && !a.Answer?
    ensures Tidy(c, [a] + more) && Produced([a] + more)
  {
  }

  // ----- when nothing can go wrong -----

  lemma {:induction false} SafeIsOwn(c: Config, run: seq<Action>, s: State, k: nat, more: seq<Action>, data: seq<Byte>)
    requires Exec(c, run) == Some(s) && Safe(c, s, k) && Tidy(c, more) && HandedReply(c, run + more, k, data)
    ensures GaveAnswer(c, run + more, k, data)
  {
    SafeForever(c, run, s, k, more);
    InvAlways(c, run + more);
    SafeReplyIsOwn(c, Exec(c, run + more).value, k, data);
  }

  lemma {:induction false} UnthreatenedIsOwn(c: Config, run: seq<Action>, s: State, k: nat)
    requires Exec(c, run) == Some(s) && Waiting(s, k)
    requires Unthreatened(c, s, k, s.calls[k].phase.slot)
    ensures AlwaysOwn(c, run, k)
  {
    WaitingIsSafe(c, s, k);
    forall more, data | Tidy(c, more) && Produced(more) && HandedReply(c, run + more, k, data)
      ensures GaveAnswer(c, run + more, k, data)
    {
      SafeIsOwn(c, run, s, k, more, data);
    }
  }

  /** No reply is on its way from k's slot to its callback. */
  ghost predicate Unreplied(s: State, k: nat) {
    k < |s.calls| &&
    var p := s.calls[k].phase;
    && !p.Issued? && !p.Popped? && (Owns(s.calls[k]) ==> p.slot < |s.slots| && !s.slots[p.slot].Ready?)
    && (p.Completed? ==> p.at < |s.completions| && !s.completions[p.at].1.Replied?)
  }

  lemma {:induction false} UnrepliedStep(c: Config, s: State, a: Action, k: nat)
    requires Enabled(c, s, a) && Unreplied(s, k) && (a.Answer? ==> |a.data| > c.maxReply)
    ensures Unreplied(Do(c, s, a), k)
  {
    if Quiet(a) {
      QuietKeepsSlots(c, s, a);
    } else {
      UnrepliedMove(c, s, a, k);
    }
  }

  lemma {:induction false} UnrepliedMove(c: Config, s: State, a: Action, k: nat)
    requires Enabled(c, s, a) && !Quiet(a) && Unreplied(s, k) && (a.Answer? ==> |a.data| > c.maxReply)
    ensures Unreplied(Do(c, s, a), k)
  {
    FirstFreeIsFree(s.slots, 0);
  }

  /** Where no reply fits, no callback is handed one. */
  lemma {:induction false} NothingArrives(c: Config, run: seq<Action>, s: State, k: nat, more: seq<Action>)
    requires Exec(c, run) == Some(s) && Unreplied(s, k) && c.maxReply < MIN_REPLY
    requires Exec(c, run + more).Some? && Produced(more)
    ensures Unreplied(Exec(c, run + more).value, k)
    decreases |more|
  {
    if more == [] {
      assert run + more == run;
    } else {
      var before, t, a := LastOfMore(c, run, more);
      NothingArrives(c, run, s, k, before);
      if a.Answer? {
        assert IsReply(more[|more| - 1].data);
        var code, msg, args :| a.data == ReplyBytes(code, msg, args);
        RepliesAreNotShort(code, msg, args);
      }
      UnrepliedStep(c, t, a, k);
    }
  }

  lemma {:induction false} NothingArrivesIsOwn(c: Config, run: seq<Action>, s: State, k: nat)
    requires Exec(c, run) == Some(s) && Waiting(s, k) && c.maxReply < MIN_REPLY
    ensures AlwaysOwn(c, run, k)
  {
    forall more, data ensures !(Produced(more) && HandedReply(c, run + more, k, data)) {
      if Produced(more) && Exec(c, run + more).Some? {
        NothingArrives(c, run, s, k, more);
        UnrepliedIsNotHanded(c, run + more, k, data);
      }
    }
  }

  lemma {:induction false} UnrepliedIsNotHanded(c: Config, run: seq<Action>, k: nat, data: seq<Byte>)
    requires Exec(c, run).Some? && Unreplied(Exec(c, run).value, k)
    ensures !HandedReply(c, run, k, data)
  {
    if HandedReply(c, run, k, data) {
      HandedIsCompleted(c, run, k, data);
    }
  }

  lemma {:induction false} HandedIsCompleted(c: Config, run: seq<Action>, k: nat, data: seq<Byte>)
    requires HandedReply(c, run, k, data)
    ensures var t := Exec(c, run).value;
      && k < |t.calls| && t.calls[k].phase.Completed?
      && t.calls[k].phase.at < |t.completions| && t.completions[t.calls[k].phase.at].1 == Replied(data)
  {
    CompletionAlways(c, run);
    var t := Exec(c, run).value;
    var j :| 0 <= j < |t.completions| && t.completions[j] == (k, Replied(data));
    assert EntryOk(t, j);
  }

  /** Reply matching exactly. After any run, timeouts and strays included, let call k hold or list
      a pending slot, not yet answered. However the run goes on, with replies as answers and
      without further strays, its callback is handed only its own handler's answer, if and only if
      no other outstanding request that carries the slot can still reach a handler that replies
      (its method is registered and replies and, if it is yet to be pushed, its frame fits), or
      the slots are too small for any reply. */
  lemma {:induction false} OwnReplyIff(c: Config, run: seq<Action>, s: State, k: nat)
    requires Exec(c, run) == Some(s) && Waiting(s, k)
    ensures AlwaysOwn(c, run, k) <==>
      c.maxReply < MIN_REPLY || Unthreatened(c, s, k, s.calls[k].phase.slot)
  {
    if c.maxReply < MIN_REPLY {
      NothingArrivesIsOwn(c, run, s, k);
    } else if Unthreatened(c, s, k, s.calls[k].phase.slot) {
      UnthreatenedIsOwn(c, run, s, k);
    } else if s.calls[k].phase.Listed? {
      ThreatenedIsNotOwn(c, run, s, k);
    } else {
      EnlistWaits(c, s, k, s.calls[k].phase.slot);
      ExecSnoc(c, run, s, Enlist(k, 0));
      ThreatenedIsNotOwn(c, run + [Enlist(k, 0)], Do(c, s, Enlist(k, 0)), k);
      if AlwaysOwn(c, run, k) {
        AlwaysOwnLater(c, run, Enlist(k, 0), k);
      }
    }
  }

  lemma {:induction false} AcquiredWaits(c: Config, s: State, k: nat, i: nat)
    requires Enabled(c, s, Acquire(k)) && FirstFree(s.slots, 0) == Some(i) && !s.calls[k].progress.Answered?
    ensures var t := Do(c, s, Acquire(k));
      && Waiting(t, k) && t.calls[k].phase == Holding(i)
      && (Unthreatened(c, s, k, i) <==> Unthreatened(c, t, k, i))
  {
    FirstFreeIsFree(s.slots, 0);
    var t := Do(c, s, Acquire(k));
    assert forall j | 0 <= j < |s.calls| && j != k :: t.calls[j] == s.calls[j];
  }

  /** The same at the moment a call gets its slot, in any run: from then on its callback is handed
      only its own handler's answer, if and only if no other request can still be answered into
      the slot it gets, or the slots are too small for any reply. */
  lemma {:induction false} OwnFromTheStartIff(c: Config, run: seq<Action>, s: State, k: nat, i: nat)
    requires Exec(c, run) == Some(s) && Enabled(c, s, Acquire(k)) && FirstFree(s.slots, 0) == Some(i)
    ensures AlwaysOwn(c, run + [Acquire(k)], k) <==> c.maxReply < MIN_REPLY || Unthreatened(c, s, k, i)
  {
    FifoAlways(c, run);
    assert RequestInv(c, s, k);
    AcquiredWaits(c, s, k, i);
    ExecSnoc(c, run, s, Acquire(k));
    OwnReplyIff(c, run + [Acquire(k)], Do(c, s, Acquire(k)), k);
  }

  /** Why strays are excluded: a call that waits on slot 0 loses its certainty as soon as one is
      issued that fits and whose method is registered. */
  lemma {:induction false} StrayThreatensSlotZero(c: Config, run: seq<Action>, s: State, k: nat, job: Job)
    requires Exec(c, run) == Some(s) && Waiting(s, k) && s.calls[k].phase.slot == 0 && c.maxReply >= MIN_REPLY
    requires Stray(c, job) && job.methodId in c.methods && FrameFits(c, job) && !Oversized(c, job)
    ensures Exec(c, run + [Issue(job)]).Some? && !AlwaysOwn(c, run + [Issue(job)], k)
  {
    var t := Do(c, s, Issue(job));
    ExecSnoc(c, run, s, Issue(job));
    StrayIsOutstanding(c, s, k, job);
    OwnReplyIff(c, run + [Issue(job)], t, k);
  }

  lemma {:induction false} StrayIsOutstanding(c: Config, s: State, k: nat, job: Job)
    requires Waiting(s, k) && s.calls[k].phase.slot == 0
    requires Stray(c, job) && job.methodId in c.methods && FrameFits(c, job) && !Oversized(c, job)
    ensures var t := Do(c, s, Issue(job));
      Waiting(t, k) && t.calls[k] == s.calls[k] && !Unthreatened(c, t, k, 0)
  {
    var t := Do(c, s, Issue(job));
    assert CanAnswer(c, t.calls[|s.calls|]) && Carries(t.calls[|s.calls|]) == 0;
  }
}
