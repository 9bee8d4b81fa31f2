/** The client's drain loop, as steps of EventDelivery. */
module EventRuns {
  import opened Bytes
  import opened EventRingBufferModel
  import opened EventDelivery
  import opened EventClientModel

  /** One iteration of the loop takes the oldest event and schedules its task. */
  function AfterEvent(d: Drain): Drain
    requires RingOk(d.ring) && PopRing(d.ring).0.Some?
  {
    var (o, r) := PopRing(d.ring);
    d.(ring := r, popped := d.popped + [o.value], matched := d.matched + [o.value],
       tasks := AddTask(d.tasks, d.listeners, o.value))
  }

  const ITERATION := [PopEvent] + [CopyOut] + [MatchTargets]

  lemma {:induction false} EventIsRun(start: Ring, acts: seq<Act>, maxData: nat, d: Drain)
    requires DrainRun(start, acts, maxData) == Some(d) && CanDo(d, PopEvent)
    ensures DrainRun(start, acts + ITERATION, maxData) == Some(AfterEvent(d))
  {
    var d1 := Perform(d, PopEvent, maxData);
    var d2 := Perform(d1, CopyOut, maxData);
    DrainSnoc(start, acts, maxData, d, PopEvent);
    DrainSnoc(start, acts + [PopEvent], maxData, d1, CopyOut);
    DrainConcat(start, acts, [PopEvent], [CopyOut], maxData);
    DrainSnoc(start, acts + ([PopEvent] + [CopyOut]), maxData, d2, MatchTargets);
    DrainConcat(start, acts, [PopEvent] + [CopyOut], [MatchTargets], maxData);
    assert d2.hand.event == PopRing(d.ring).0.value;
  }

  /** After any run with no task left over, the loop's first n iterations are a further run and
      schedule exactly the tasks that the drain loop schedules for the first n waiting events. */
  lemma {:induction false} DrainLoopIsRun(start: Ring, acts: seq<Act>, maxData: nat, d: Drain, n: nat)
      returns (more: seq<Act>, t: Drain)
    requires DrainRun(start, acts, maxData) == Some(d) && RingOk(d.ring) && n <= |Queue(d.ring)|
    requires d.hand.Free? && !d.running && d.tasks == []
    ensures |more| == 3 * n && DrainRun(start, acts + more, maxData) == Some(t)
    ensures RingOk(t.ring) && Queue(t.ring) == Queue(d.ring)[n..] && t.hand.Free? && !t.running
    ensures t.listeners == d.listeners && t.accepted == d.accepted && t.delivered == d.delivered
    ensures t.tasks == TasksOf(d.listeners, Queue(d.ring)[..n])
  {
    if n == 0 {
      more, t := [], d;
      assert acts + [] == acts;
    } else {
      var before, mid := DrainLoopIsRun(start, acts, maxData, d, n - 1);
      var q := Queue(d.ring);
      PopRefines(mid.ring);
      EventIsRun(start, acts + before, maxData, mid);
      DrainConcat(start, acts, before, ITERATION, maxData);
      more, t := before + ITERATION, AfterEvent(mid);
      assert q[..n][..n - 1] == q[..n - 1] && q[n - 1..][1..] == q[n..];
    }
  }

  /** The loop's own steps, and the broadcasts that come in between. */
  predicate InLoop(acts: seq<Act>) {
    forall j | 0 <= j < |acts| :: acts[j].Notify? || acts[j].PopEvent? || acts[j].CopyOut? || acts[j].MatchTargets?
  }

  lemma {:induction false} LastAct(start: Ring, acts: seq<Act>, more: seq<Act>, maxData: nat)
      returns (before: seq<Act>, d: Drain, a: Act)
    requires DrainRun(start, acts + more, maxData).Some? && more != []
    ensures before == more[..|more| - 1] && a == more[|more| - 1]
    ensures DrainRun(start, acts + before, maxData) == Some(d) && CanDo(d, a)
    ensures DrainRun(start, acts + more, maxData) == Some(Perform(d, a, maxData))
  {
    before, a := more[..|more| - 1], more[|more| - 1];
    assert (acts + more)[..|acts + more| - 1] == acts + before;
    d := DrainRun(start, acts + before, maxData).value;
  }

  lemma {:induction false} LoopStep(d: Drain, a: Act, maxData: nat, from: nat)
    requires CanDo(d, a) && InLoop([a]) && from <= |d.matched|
    requires d.tasks == TasksOf(d.listeners, d.matched[from..])
    ensures var t := Perform(d, a, maxData);
      t.listeners == d.listeners && d.matched <= t.matched && t.tasks == TasksOf(d.listeners, t.matched[from..])
  {
    assert [a][0] == a;
    if a.MatchTargets? {
      var es, e := d.matched[from..], d.hand.event;
      assert (d.matched + [e])[from..] == es + [e];
      assert (es + [e])[..|es|] == es;
    }
  }

  /** The drain loop under any interleaving with broadcasts: it schedules exactly the tasks for
      the events it has matched since it began, in order. */
  lemma {:induction false} LoopAmongBroadcasts(start: Ring, acts: seq<Act>, maxData: nat, d: Drain,
      more: seq<Act>, t: Drain)
    requires DrainRun(start, acts, maxData) == Some(d) && d.tasks == [] && InLoop(more)
    requires DrainRun(start, acts + more, maxData) == Some(t)
    ensures t.listeners == d.listeners && d.matched <= t.matched
    ensures t.tasks == TasksOf(d.listeners, t.matched[|d.matched|..])
    decreases |more|
  {
    if more == [] {
      assert acts + more == acts;
      assert d.matched[|d.matched|..] == [];
    } else {
      var before, mid, a := LastAct(start, acts, more, maxData);
      LoopAmongBroadcasts(start, acts, maxData, d, before, mid);
      assert [a][0] == more[|more| - 1];
      LoopStep(mid, a, maxData, |d.matched|);
    }
  }

  /** When it finds the ring empty, these are all events accepted and not matched before it began,
      those broadcast meanwhile included. */
  lemma {:induction false} LoopEndsComplete(start: Ring, acts: seq<Act>, maxData: nat, d: Drain,
      more: seq<Act>, t: Drain)
    requires RingOk(start) && Queue(start) == [] && DrainRun(start, acts, maxData) == Some(d) && d.tasks == []
    requires InLoop(more) && DrainRun(start, acts + more, maxData) == Some(t)
    requires t.hand.Free? && RingOk(t.ring) && PopRing(t.ring).0.None?
    ensures |d.matched| <= |t.accepted| && t.tasks == TasksOf(d.listeners, t.accepted[|d.matched|..])
  {
    LoopAmongBroadcasts(start, acts, maxData, d, more, t);
    DrainAlways(start, acts + more, maxData);
    assert Queue(t.ring) == [];
    assert t.accepted == t.popped + [] == t.matched;
  }
}
