/** A run in which a request that outlives its call's timeout answers the next call that is given
    the same slot. */
module StaleReply {
  import opened Bytes
  import opened CallbackSpaceModel
  import opened IPCCallbackModel
  import opened Protocol
  import opened Fifo
  import opened OwnReply

  // One slot; two calls of the same method.
  const SMALL := Config(1, 4, 16, 64, {0}, {0})
  const JOB := Job(0, 0, 0, [], 0, true)

  /** The first call's request reaches its handler. */
  const SENT := [Issue(JOB)] + [Acquire(0)] + [Enlist(0, 0)]
  const ARRIVES := SENT + [Push(0)] + [Drain] + [Parse]

  /** It times out and frees the slot. */
  const FREED := [Expire(0, 1, true)] + [RunExpired(0)]

  /** A second call is given the slot. */
  const REUSED := [Issue(JOB)] + [Acquire(1)] + [Enlist(1, 1)]

  /** The first handler answers with an empty success. */
  const REPLY := ReplyBytes(0, [], [])
  const ANSWERED := [Answer(0, REPLY)] + [Collect(1, 1)] + [RunReply(1)]

  ghost function First(phase: Phase, progress: Progress): CallState {
    CallState(JOB, phase, progress, Some(0))
  }

  lemma {:induction false} Listing() returns (s: State)
    ensures Exec(SMALL, SENT) == Some(s)
    ensures s == Init(SMALL).(slots := [Pending], owner := [Some(0)], calls := [First(Listed(0, 0), ToPush)])
  {
    var before := Init(SMALL);
    assert FirstFree(Do(SMALL, before, Issue(JOB)).slots, 0) == Some(0);
    ExecThree(SMALL, [], before, Issue(JOB), Acquire(0), Enlist(0, 0));
    assert [] + SENT == SENT;
    s := Do(SMALL, Do(SMALL, Do(SMALL, before, Issue(JOB)), Acquire(0)), Enlist(0, 0));
  }

  lemma {:induction false} Draining() returns (s: State)
    ensures Exec(SMALL, SENT + [Push(0)] + [Drain]) == Some(s)
    ensures s.slots == [Pending] && s.owner == [Some(0)] && s.completions == [] && s.inCopy == [0]
    ensures s.calls == [First(Listed(0, 0), Sent)]
  {
    var c := SMALL;
    var s3 := Listing();
    var s4 := Do(c, s3, Push(0));
    ExecSnoc(c, SENT, s3, Push(0));
    assert s4.inLog == [0] && s4.log != [];
    s := Do(c, s4, Drain);
    ExecSnoc(c, SENT + [Push(0)], s4, Drain);
  }

  lemma {:induction false} Arrives() returns (s: State)
    ensures Exec(SMALL, ARRIVES) == Some(s)
    ensures s.slots == [Pending] && s.owner == [Some(0)] && s.completions == []
    ensures s.calls == [First(Listed(0, 0), Handling(0, []))]
  {
    var before := Draining();
    ParseGoesOn(SMALL, SENT + [Push(0)] + [Drain], before);
    s := ParseNext(SMALL, before);
  }

  lemma {:induction false} Freed() returns (s: State)
    ensures Exec(SMALL, ARRIVES + FREED) == Some(s)
    ensures s.slots == [NoData] && s.owner == [None] && s.completions == [(0, Timeout)]
    ensures s.calls == [First(Completed(0), Handling(0, []))]
  {
    var before := Arrives();
    ExecTwo(SMALL, ARRIVES, before, Expire(0, 1, true), RunExpired(0));
    s := Do(SMALL, Do(SMALL, before, Expire(0, 1, true)), RunExpired(0));
  }

  lemma {:induction false} Reused() returns (s: State)
    ensures Exec(SMALL, ARRIVES + FREED + REUSED) == Some(s)
    ensures s.slots == [Pending] && s.completions == [(0, Timeout)]
    ensures s.calls == [First(Completed(0), Handling(0, [])), CallState(JOB, Listed(0, 1), ToPush, Some(0))]
  {
    var before := Freed();
    assert FirstFree(Do(SMALL, before, Issue(JOB)).slots, 0) == Some(0);
    ExecThree(SMALL, ARRIVES + FREED, before, Issue(JOB), Acquire(1), Enlist(1, 1));
    s := Do(SMALL, Do(SMALL, Do(SMALL, before, Issue(JOB)), Acquire(1)), Enlist(1, 1));
  }

  /** Reply matching fails once a timeout fires: in this run the second call completes with the
      first call's answer, before its own request was even pushed. */
  lemma {:induction false} TimedOutCallAnswersAnother()
    ensures var run := ARRIVES + FREED + REUSED + ANSWERED;
      && Exec(SMALL, run).Some?
      && var s := Exec(SMALL, run).value;
         && s.completions == [(0, Timeout), (1, Replied(REPLY))]
         && |s.calls| == 2 && s.calls[0].progress == Answered(REPLY) && s.calls[1].progress == ToPush
  {
    var before := Reused();
    assert |REPLY| == 4;
    AnswerReaches(SMALL, before, 0, 1, REPLY, 1);
    ExecThree(SMALL, ARRIVES + FREED + REUSED, before, Answer(0, REPLY), Collect(1, 1), RunReply(1));
  }
}
