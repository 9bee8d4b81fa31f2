/** One client among many: its event delivery over the whole event space, with the broadcasts of
    the server and with other clients registering, unregistering and popping. */
module EventSystem {
  import opened Bytes
  import opened EventRingBufferModel
  import opened EventSpaceModel
  import opened EventDelivery

  /** The whole space, and what client c keeps to itself. The ring and its history are those in
      the space (View). */
  datatype System = System(space: Space, own: Drain)

  datatype Step = Shared(op: SpaceOp) | Own(act: Act)

  ghost predicate Registered(space: Space, c: nat) {
    SpaceOk(space) && c < |space.clients| && space.clients[c].registered
  }

  /** What client c sees. */
  ghost function View(s: System, c: nat): Drain
    requires Registered(s.space, c)
  {
    s.own.(ring := s.space.clients[c].ring, accepted := s.space.accepted[c], popped := s.space.popped[c])
  }

  /** The steps while client c stays registered: any operation of others on the space, and the
      client's own steps. */
  ghost predicate CanStep(s: System, c: nat, step: Step) {
    Registered(s.space, c) &&
    match step
    case Shared(op) => op != PopOp(c) && op != UnregisterOp(c)
    case Own(act) => !act.Notify? && CanDo(View(s, c), act)
  }

  ghost function TakeStep(s: System, c: nat, step: Step, maxData: nat): System
    requires CanStep(s, c, step)
  {
    match step
    case Shared(op) => s.(space := SpaceStep(s.space, op, maxData))
    case Own(act) =>
      System(if act.PopEvent? then SpaceStep(s.space, PopOp(c), maxData) else s.space,
             Perform(View(s, c), act, maxData))
  }

  ghost function SystemRun(start: System, c: nat, steps: seq<Step>, maxData: nat): Option<System> {
    if steps == [] then Some(start)
    else
      match SystemRun(start, c, steps[..|steps| - 1], maxData)
      case None => None
      case Some(s) =>
        if CanStep(s, c, steps[|steps| - 1]) then Some(TakeStep(s, c, steps[|steps| - 1], maxData)) else None
  }

  /** The step of client c's own delivery that a step of the system is, if any. */
  ghost function Projected(s: System, step: Step): seq<Act> {
    match step
    case Own(act) => [act]
    case Shared(BroadcastOp(e)) => if s.space.available then [Notify(e)] else []
    case Shared(_) => []
  }

  lemma {:induction false} SharedStep(s: System, c: nat, op: SpaceOp, maxData: nat)
    requires CanStep(s, c, Shared(op))
    ensures var s' := TakeStep(s, c, Shared(op), maxData);
      && Registered(s'.space, c)
      && View(s', c) == (if op.BroadcastOp? && s.space.available then Perform(View(s, c), Notify(op.e), maxData)
                         else View(s, c))
  {
    StepKeepsSpace(s.space, op, maxData);
    FirstUnregisteredIs(s.space.clients, 0);
    if op.BroadcastOp? {
      OfferFirstIs(s.space.clients, |s.space.clients|, op.e, maxData);
    }
  }

  lemma {:induction false} OwnStep(s: System, c: nat, act: Act, maxData: nat)
    requires CanStep(s, c, Own(act))
    ensures var s' := TakeStep(s, c, Own(act), maxData);
      Registered(s'.space, c) && View(s', c) == Perform(View(s, c), act, maxData)
  {
    if act.PopEvent? {
      StepKeepsSpace(s.space, PopOp(c), maxData);
    }
  }

  /** Client c has just been registered and has no listeners. */
  ghost predicate Fresh(s: System, c: nat) {
    && Registered(s.space, c) && s.space.accepted[c] == [] == s.space.popped[c]
    && s.own == Start(s.space.clients[c].ring)
  }

  /** The run of client c's own delivery that a run of the system is: its own steps, and a Notify
      for each broadcast of an available space. */
  ghost function Projection(start: System, c: nat, steps: seq<Step>, maxData: nat): seq<Act> {
    if steps == [] then []
    else
      var before := steps[..|steps| - 1];
      match SystemRun(start, c, before, maxData)
      case None => []
      case Some(s) => Projection(start, c, before, maxData) + Projected(s, steps[|steps| - 1])
  }

  /** Every run of the system is, for client c, the projected run of event delivery on its own ring. */
  lemma {:induction false} SystemIsDrain(start: System, c: nat, steps: seq<Step>, maxData: nat, s: System)
    requires Fresh(start, c) && SystemRun(start, c, steps, maxData) == Some(s)
    ensures Registered(s.space, c)
    ensures DrainRun(start.space.clients[c].ring, Projection(start, c, steps, maxData), maxData) == Some(View(s, c))
    decreases |steps|
  {
    if steps != [] {
      var before, step := steps[..|steps| - 1], steps[|steps| - 1];
      var mid := SystemRun(start, c, before, maxData).value;
      SystemIsDrain(start, c, before, maxData, mid);
      OneStep(start.space.clients[c].ring, Projection(start, c, before, maxData), mid, c, step, maxData);
    }
  }

  lemma {:induction false} OneStep(ring: Ring, acts: seq<Act>, s: System, c: nat, step: Step, maxData: nat)
    requires CanStep(s, c, step) && DrainRun(ring, acts, maxData) == Some(View(s, c))
    ensures Registered(TakeStep(s, c, step, maxData).space, c)
    ensures DrainRun(ring, acts + Projected(s, step), maxData) == Some(View(TakeStep(s, c, step, maxData), c))
  {
    var more := Projected(s, step);
    match step {
      case Shared(op) => SharedStep(s, c, op, maxData);
      case Own(act) => OwnStep(s, c, act, maxData);
    }
    if more == [] {
      assert acts + more == acts;
    } else {
      assert more == [more[0]];
      DrainSnoc(ring, acts, maxData, View(s, c), more[0]);
    }
  }

  /** The number of client c's subscriptions in a run of the system. */
  function SubscriptionsOf(steps: seq<Step>): nat {
    if steps == [] then 0
    else
      var last := steps[|steps| - 1];
      SubscriptionsOf(steps[..|steps| - 1]) + (if last.Own? && last.act.Subscribe? then 1 else 0)
  }

  lemma {:induction false} SubscriptionsConcat(acts: seq<Act>, more: seq<Act>)
    requires |more| <= 1
    ensures Subscriptions(acts + more) == Subscriptions(acts) + (if more != [] && more[0].Subscribe? then 1 else 0)
  {
    if more == [] {
      assert acts + more == acts;
    } else {
      assert (acts + more)[..|acts|] == acts;
    }
  }

  lemma {:induction false} ProjectedCount(start: System, c: nat, steps: seq<Step>, maxData: nat)
    requires SystemRun(start, c, steps, maxData).Some?
    ensures Subscriptions(Projection(start, c, steps, maxData)) == SubscriptionsOf(steps)
    decreases |steps|
  {
    if steps != [] {
      var before, step := steps[..|steps| - 1], steps[|steps| - 1];
      ProjectedCount(start, c, before, maxData);
      SubscriptionsConcat(Projection(start, c, before, maxData),
                          Projected(SystemRun(start, c, before, maxData).value, step));
    }
  }

  /** In the run acts, step |before| is the given one, and the steps in front of it are before. */
  predicate StandsAt(acts: seq<Act>, before: seq<Act>, a: Act) {
    |before| < |acts| && acts[..|before|] == before && acts[|before|] == a
  }

  lemma {:induction false} StandsAtStill(acts: seq<Act>, before: seq<Act>, a: Act, more: seq<Act>)
    requires StandsAt(acts, before, a)
    ensures StandsAt(acts + more, before, a)
  {
  }

  /** Where a subscription stands in the projected run. */
  lemma {:induction false} ProjectedSubscription(start: System, c: nat, steps: seq<Step>, maxData: nat,
      n: nat, id: UInt16)
    requires SystemRun(start, c, steps, maxData).Some? && n < |steps| && steps[n] == Own(Subscribe(id))
    ensures SystemRun(start, c, steps[..n], maxData).Some?
    ensures StandsAt(Projection(start, c, steps, maxData), Projection(start, c, steps[..n], maxData), Subscribe(id))
    decreases |steps|
  {
    var before, step := steps[..|steps| - 1], steps[|steps| - 1];
    var s := SystemRun(start, c, before, maxData).value;
    if n < |before| {
      assert before[..n] == steps[..n];
      ProjectedSubscription(start, c, before, maxData, n, id);
      StandsAtStill(Projection(start, c, before, maxData), Projection(start, c, steps[..n], maxData), Subscribe(id),
                    Projected(s, step));
    }
  }

  /** Listener delivery order with any number of clients: if step n of the run is client c's
      subscription to an event id, then, whatever the server broadcasts and the other clients do,
      what that listener was passed, followed by what is scheduled for it, is the sequence of
      events with that id among those matched after step n; and what was matched is a prefix of
      what the space records as accepted for c. */
  lemma {:induction false} ListenersAmongClients(start: System, c: nat, steps: seq<Step>, maxData: nat,
      s: System, n: nat, id: UInt16)
    requires Fresh(start, c) && Queue(start.space.clients[c].ring) == []
    requires SystemRun(start, c, steps, maxData) == Some(s) && n < |steps| && steps[n] == Own(Subscribe(id))
    ensures Registered(s.space, c) && SystemRun(start, c, steps[..n], maxData).Some?
    ensures var j, missed := SubscriptionsOf(steps[..n]), |SystemRun(start, c, steps[..n], maxData).value.own.matched|;
      && |s.own.listeners| == SubscriptionsOf(steps) > j
      && missed <= |s.own.matched| && s.own.matched <= s.space.accepted[c]
      && PassedTo(j, s.own.delivered) + Scheduled(j, s.own.tasks) == Filter(id, s.own.matched[missed..])
  {
    AtSubscription(start, c, steps, maxData, s, n, id);
    ListenersGetTheirEvents(start.space.clients[c].ring, Projection(start, c, steps, maxData), maxData,
                            |Projection(start, c, steps[..n], maxData)|, id);
  }

  lemma {:induction false} AtSubscription(start: System, c: nat, steps: seq<Step>, maxData: nat,
      s: System, n: nat, id: UInt16)
    requires Fresh(start, c)
    requires SystemRun(start, c, steps, maxData) == Some(s) && n < |steps| && steps[n] == Own(Subscribe(id))
    ensures Registered(s.space, c) && SystemRun(start, c, steps[..n], maxData).Some?
    ensures var ring, acts := start.space.clients[c].ring, Projection(start, c, steps, maxData);
      var before, mid := Projection(start, c, steps[..n], maxData), SystemRun(start, c, steps[..n], maxData).value;
      && DrainRun(ring, acts, maxData) == Some(View(s, c)) && Subscriptions(acts) == SubscriptionsOf(steps)
      && StandsAt(acts, before, Subscribe(id))
      && Subscriptions(before) == SubscriptionsOf(steps[..n])
      && Registered(mid.space, c) && DrainRun(ring, before, maxData) == Some(View(mid, c))
  {
    SystemIsDrain(start, c, steps, maxData, s);
    ProjectedSubscription(start, c, steps, maxData, n, id);
    SystemIsDrain(start, c, steps[..n], maxData, SystemRun(start, c, steps[..n], maxData).value);
    ProjectedCount(start, c, steps, maxData);
    ProjectedCount(start, c, steps[..n], maxData);
  }

  /** And once client c has drained its ring and run its tasks, that listener was passed exactly
      the events with that id that the space records as accepted for c and that were not yet
      matched when it was added. */
  lemma {:induction false} DrainedAmongClients(start: System, c: nat, steps: seq<Step>, maxData: nat,
      s: System, n: nat, id: UInt16)
    requires Fresh(start, c) && Queue(start.space.clients[c].ring) == []
    requires SystemRun(start, c, steps, maxData) == Some(s) && n < |steps| && steps[n] == Own(Subscribe(id))
    requires s.own.hand.Free? && s.own.tasks == [] && Registered(s.space, c)
    requires PopRing(s.space.clients[c].ring).0.None?
    ensures SystemRun(start, c, steps[..n], maxData).Some?
    ensures var j, missed := SubscriptionsOf(steps[..n]), |SystemRun(start, c, steps[..n], maxData).value.own.matched|;
      && missed <= |s.space.accepted[c]|
      && PassedTo(j, s.own.delivered) == Filter(id, s.space.accepted[c][missed..])
  {
    AtSubscription(start, c, steps, maxData, s, n, id);
    DrainedListenersAreComplete(start.space.clients[c].ring, Projection(start, c, steps, maxData), maxData,
                                |Projection(start, c, steps[..n], maxData)|, id);
  }
}
