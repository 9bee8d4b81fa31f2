/** The server's drain and dispatch, as steps of the protocol. */
module ServerRuns {
  import opened Bytes
  import opened Framing
  import opened Protocol
  import opened Fifo

  function Parses(n: nat): (run: seq<Action>)
    ensures |run| == n
  {
    if n == 0 then [] else Parses(n - 1) + [Parse]
  }

  lemma {:induction false} SlotsKeptTwice(s: State, t: State, t': State)
    requires SlotsKept(s, t) && SlotsKept(t, t')
    ensures SlotsKept(s, t')
  {
  }

  /** State t is s after the first n requests of the private copy were parsed. */
  ghost predicate ParsedUpTo(s: State, t: State, n: nat) {
    && n <= |s.inCopy| && t.log == s.log && t.accepted == s.accepted && SlotsKept(s, t)
    && t.inCopy == s.inCopy[n..] && t.parsed == s.parsed + s.inCopy[..n]
  }

  lemma {:induction false} ParsedOneMore(s: State, t: State, t': State, n: nat)
    requires n < |s.inCopy| && ParsedUpTo(s, t, n) && ParsedUpTo(t, t', 1)
    ensures ParsedUpTo(s, t', n + 1)
  {
    SlotsKeptTwice(s, t, t');
    assert s.inCopy[n..][1..] == s.inCopy[n + 1..];
    assert s.inCopy[..n + 1] == s.inCopy[..n] + s.inCopy[n..][..1];
  }

  lemma {:induction false} ParsedFirst(c: Config, t: State)
    requires FifoInv(c, t) && t.inCopy != []
    ensures Enabled(c, t, Parse) && ParsedUpTo(t, Do(c, t, Parse), 1)
  {
    NothingLeft(c, t);
    ParseIsNext(c, t);
    QuietKeepsSlots(c, t, Parse);
    assert t.inCopy[..1] == [t.inCopy[0]];
  }

  lemma {:induction false} NextParse(c: Config, run: seq<Action>, t: State)
    requires Exec(c, run) == Some(t) && t.inCopy != []
    ensures Exec(c, run + [Parse]).Some? && ParsedUpTo(t, Exec(c, run + [Parse]).value, 1)
  {
    FifoAlways(c, run);
    ParsedFirst(c, t);
    ExecSnoc(c, run, t, Parse);
  }

  /** Parsing the first n requests of the private copy. */
  lemma {:induction false} ParseAll(c: Config, run: seq<Action>, s: State, n: nat)
    requires Exec(c, run) == Some(s) && n <= |s.inCopy|
    ensures Exec(c, run + Parses(n)).Some? && ParsedUpTo(s, Exec(c, run + Parses(n)).value, n)
  {
    if n == 0 {
      assert run + [] == run;
    } else {
      ParseAll(c, run, s, n - 1);
      var before := run + Parses(n - 1);
      var t := Exec(c, before).value;
      NextParse(c, before, t);
      assert before + [Parse] == run + Parses(n);
      ParsedOneMore(s, t, Exec(c, before + [Parse]).value, n - 1);
    }
  }

  /** The state after readMemory's locked region. */
  function Drained(s: State): State {
    s.(log := [], inLog := [], copy := s.log, pos := 0, inCopy := s.inLog)
  }

  lemma {:induction false} DrainFirst(c: Config, run: seq<Action>, s: State)
    requires Exec(c, run) == Some(s) && Enabled(c, s, Drain)
    ensures Exec(c, run + [Drain]) == Some(Drained(s))
  {
    ExecSnoc(c, run, s, Drain);
  }

  lemma {:induction false} DrainAll(c: Config, run: seq<Action>, s: State)
    requires Exec(c, run) == Some(s) && Enabled(c, s, Drain)
    ensures Exec(c, run + [Drain] + Parses(|s.inLog|)).Some?
    ensures ParsedUpTo(Drained(s), Exec(c, run + [Drain] + Parses(|s.inLog|)).value, |s.inLog|)
  {
    DrainFirst(c, run, s);
    ParseAll(c, run + [Drain], Drained(s), |s.inLog|);
  }

  /** readMemory does nothing that the protocol does not: draining a log and parsing it to the
      end is a further run. The server then has seen, after what it had seen before, exactly the
      frames that its loop finds in the log, and every call accepted so far is parsed. */
  lemma {:induction false} ReadMemoryIsRun(c: Config, run: seq<Action>, s: State)
    requires Exec(c, run) == Some(s) && Enabled(c, s, Drain)
    ensures Exec(c, run + [Drain] + Parses(|s.inLog|)).Some?
    ensures var t := Exec(c, run + [Drain] + Parses(|s.inLog|)).value;
      && t.log == [] && SlotsKept(s, t) && t.parsed == s.accepted == t.accepted
      && t.visited == s.visited + RequestsOf(Framing.Parse(s.log, 0))
  {
    DrainAll(c, run, s);
    var later := run + [Drain] + Parses(|s.inLog|);
    SeenAfter(c, run, s, later, Exec(c, later).value);
  }

  lemma {:induction false} SeenAfter(c: Config, run: seq<Action>, s: State, later: seq<Action>, t: State)
    requires Exec(c, run) == Some(s) && Exec(c, later) == Some(t)
    requires Enabled(c, s, Drain) && ParsedUpTo(Drained(s), t, |s.inLog|)
    ensures t.log == [] && SlotsKept(s, t) && t.parsed == s.accepted == t.accepted
    ensures t.visited == s.visited + RequestsOf(Framing.Parse(s.log, 0))
  {
    FifoAlways(c, run);
    FifoAlways(c, later);
    NothingLeft(c, s);
    AllSeen(c, s, t);
  }

  lemma {:induction false} AllSeen(c: Config, s: State, t: State)
    requires FifoInv(c, s) && FifoInv(c, t) && s.inCopy == []
    requires Enabled(c, s, Drain) && ParsedUpTo(Drained(s), t, |s.inLog|)
    ensures t.log == [] && SlotsKept(s, t) && t.parsed == s.accepted == t.accepted
    ensures t.visited == s.visited + RequestsOf(Framing.Parse(s.log, 0))
  {
    SlotsKeptTwice(s, Drained(s), t);
    assert s.inLog[..|s.inLog|] == s.inLog;
    assert s.accepted == s.parsed + [] + s.inLog == s.parsed + s.inLog;
    SeenIsLog(c, s, t);
  }

  lemma {:induction false} SeenIsLog(c: Config, s: State, t: State)
    requires FifoInv(c, s) && FifoInv(c, t) && SlotsKept(s, t) && t.parsed == s.parsed + s.inLog
    ensures t.visited == s.visited + RequestsOf(Framing.Parse(s.log, 0))
  {
    ReqsSendable(c, s, s.inLog);
    FramingRoundTrip(Reqs(s.calls, s.inLog));
    ReqsKept(s.calls, t.calls, s.parsed);
    ReqsKept(s.calls, t.calls, s.inLog);
    ReqsConcat(t.calls, s.parsed, s.inLog);
  }

  lemma {:induction false} ReqsConcat(calls: seq<CallState>, js: seq<nat>, ks: seq<nat>)
    requires InRange(calls, js) && InRange(calls, ks)
    ensures InRange(calls, js + ks) && Reqs(calls, js + ks) == Reqs(calls, js) + Reqs(calls, ks)
    decreases |ks|
  {
    if ks == [] {
      assert js + ks == js;
    } else {
      var n := |ks| - 1;
      ReqsConcat(calls, js, ks[..n]);
      ReqsSnoc(calls, ks[..n], ks[n]);
      ReqsSnoc(calls, js + ks[..n], ks[n]);
      assert ks[..n] + [ks[n]] == ks && js + ks[..n] + [ks[n]] == js + ks;
    }
  }
}
