/** Events on their way to a client's listeners (ClientIPC.cpp, readEvData): the server keeps
    pushing while the client pops, copies after unlocking, collects targets and runs the tasks. */
module EventDelivery {
  import opened Bytes
  import opened EventRingBufferModel

  // ----- listeners and tasks -----

  // A listener is known by its place in the list; the list holds the event ids.

  datatype EventTask = EventTask(targets: seq<nat>, event: Event)

  /** The listeners with the given event id, in the order they were added. */
  function Targets(ls: seq<UInt16>, id: UInt16): seq<nat> {
    if ls == [] then []
    else
      var n := |ls| - 1;
      Targets(ls[..n], id) + (if ls[n] == id then [n] else [])
  }

  predicate Increasing(ks: seq<nat>) {
    forall i, j | 0 <= i < j < |ks| :: ks[i] < ks[j]
  }

  lemma {:induction false} TargetsIn(ls: seq<UInt16>, id: UInt16)
    ensures forall j: nat :: j in Targets(ls, id) <==> j < |ls| && ls[j] == id
    decreases |ls|
  {
    if ls != [] {
      TargetsIn(ls[..|ls| - 1], id);
    }
  }

  lemma {:induction false} TargetsAre(ls: seq<UInt16>, id: UInt16)
    ensures Increasing(Targets(ls, id))
    ensures forall j: nat :: j in Targets(ls, id) <==> j < |ls| && ls[j] == id
    decreases |ls|
  {
    TargetsIn(ls, id);
    if ls != [] {
      var n := |ls| - 1;
      TargetsAre(ls[..n], id);
      AppendLarger(Targets(ls[..n], id), n);
    }
  }

  lemma {:induction false} AppendLarger(ks: seq<nat>, n: nat)
    requires Increasing(ks) && forall k | k in ks :: k < n
    ensures Increasing(ks + [n]) && ks + [] == ks
  {
    assert forall i | 0 <= i < |ks| :: ks[i] in ks;
  }

  /** The task for an event, if anyone listens to it. */
  function AddTask(tasks: seq<EventTask>, ls: seq<UInt16>, e: Event): seq<EventTask> {
    var targets := Targets(ls, e.id);
    if targets == [] then tasks else tasks + [EventTask(targets, e)]
  }

  /** One task: the event is passed to each target in turn. */
  function Deliver(delivered: seq<(nat, Event)>, targets: seq<nat>, e: Event): seq<(nat, Event)> {
    if targets == [] then delivered
    else
      var n := |targets| - 1;
      Deliver(delivered, targets[..n], e) + [(targets[n], e)]
  }

  /** The targets are served in their order, after whatever was delivered before. */
  lemma {:induction false} DeliverIs(delivered: seq<(nat, Event)>, targets: seq<nat>, e: Event)
    ensures Deliver(delivered, targets, e) ==
      delivered + seq(|targets|, i requires 0 <= i < |targets| => (targets[i], e))
    decreases |targets|
  {
    if targets != [] {
      DeliverIs(delivered, targets[..|targets| - 1], e);
    }
  }

  // ----- what one listener sees -----

  /** The events passed to listener j. */
  function PassedTo(j: nat, delivered: seq<(nat, Event)>): seq<Event> {
    if delivered == [] then []
    else
      var n := |delivered| - 1;
      PassedTo(j, delivered[..n]) + (if delivered[n].0 == j then [delivered[n].1] else [])
  }

  /** The events that scheduled tasks will pass to listener j. */
  function Scheduled(j: nat, tasks: seq<EventTask>): seq<Event> {
    if tasks == [] then []
    else
      var n := |tasks| - 1;
      Scheduled(j, tasks[..n]) + (if j in tasks[n].targets then [tasks[n].event] else [])
  }

  /** The events with the given id, in order. */
  function Filter(id: UInt16, es: seq<Event>): seq<Event> {
    if es == [] then []
    else
      var n := |es| - 1;
      Filter(id, es[..n]) + (if es[n].id == id then [es[n]] else [])
  }

  lemma {:induction false} FilterSnoc(id: UInt16, es: seq<Event>, e: Event)
    ensures Filter(id, es + [e]) == Filter(id, es) + (if e.id == id then [e] else [])
  {
    assert (es + [e])[..|es|] == es;
  }

  lemma {:induction false} ScheduledSnoc(j: nat, tasks: seq<EventTask>, t: EventTask)
    ensures Scheduled(j, tasks + [t]) == Scheduled(j, tasks) + (if j in t.targets then [t.event] else [])
  {
    assert (tasks + [t])[..|tasks|] == tasks;
  }

  lemma {:induction false} ScheduledCons(j: nat, tasks: seq<EventTask>)
    requires tasks != []
    ensures Scheduled(j, tasks) ==
      (if j in tasks[0].targets then [tasks[0].event] else []) + Scheduled(j, tasks[1..])
    decreases |tasks|
  {
    var n := |tasks| - 1;
    if n == 0 {
      assert tasks[1..] == [] && Scheduled(j, tasks[..0]) == [];
    } else {
      ScheduledCons(j, tasks[..n]);
      assert tasks[..n][1..] == tasks[1..][..n - 1] && tasks[1..][n - 1] == tasks[n];
      assert Scheduled(j, tasks[1..]) ==
        Scheduled(j, tasks[..n][1..]) + (if j in tasks[n].targets then [tasks[n].event] else []);
    }
  }

  /** A task passes its event to each target once and to nobody else. */
  lemma {:induction false} DeliverOnce(j: nat, delivered: seq<(nat, Event)>, targets: seq<nat>, e: Event)
    requires Increasing(targets)
    ensures PassedTo(j, Deliver(delivered, targets, e)) ==
      PassedTo(j, delivered) + (if j in targets then [e] else [])
    decreases |targets|
  {
    if targets == [] {
      assert PassedTo(j, delivered) + [] == PassedTo(j, delivered);
    } else {
      var n := |targets| - 1;
      var before := Deliver(delivered, targets[..n], e);
      DeliverOnce(j, delivered, targets[..n], e);
      assert (before + [(targets[n], e)])[..|before|] == before;
      assert targets == targets[..n] + [targets[n]];
    }
  }

  // ----- states -----

  /** The popped event a client is working on: a view of the ring's cell, with the id and size read
      at the pop, or a copy. */
  datatype Hand = Free | InRing(slot: nat, id: UInt16, sz: nat) | Local(event: Event)

  /** One client: its ring, its listeners and tasks. The rest is history: what the ring accepted,
      what was popped, what was matched against the listeners, how much of that each listener
      missed because it was added later, and what listeners were passed. */
  datatype Drain = Drain(
    ring: Ring, hand: Hand, listeners: seq<UInt16>, tasks: seq<EventTask>, running: bool,
    accepted: seq<Event>, popped: seq<Event>, matched: seq<Event>, missed: seq<nat>, delivered: seq<(nat, Event)>)

  function Start(ring: Ring): Drain {
    Drain(ring, Free, [], [], false, [], [], [], [], [])
  }

  datatype Act =
    | Notify(event: Event)          // the server broadcasts an event
    | Subscribe(eventId: UInt16)    // subscribeToEventUpdates
    | PopEvent                      // the locked pop
    | CopyOut                       // the memcpy after the lock is released
    | MatchTargets                  // collect the targets, schedule the task
    | EndOfDrain                    // pop found the ring empty
    | RunTask                       // the oldest task runs

  /** The first sz bytes of what the cell holds by now. */
  function Viewed(data: seq<Byte>, sz: nat): seq<Byte> {
    if sz <= |data| then data[..sz] else data
  }

  predicate CanDo(d: Drain, a: Act) {
    RingOk(d.ring) &&
    match a
    case Notify(_) => true
    case Subscribe(_) => true
    case PopEvent => d.hand.Free? && !d.running && PopRing(d.ring).0.Some?
    case CopyOut => d.hand.InRing? && d.hand.slot < |d.ring.cells|
    case MatchTargets => d.hand.Local?
    case EndOfDrain => d.hand.Free? && !d.running && PopRing(d.ring).0.None? && d.tasks != []
    case RunTask => d.running && d.tasks != []
  }

  function Perform(d: Drain, a: Act, maxData: nat): Drain
    requires CanDo(d, a)
  {
    match a
    case Notify(e) =>
      var (ok, r) := PushRing(d.ring, e, maxData);
      d.(ring := r, accepted := if ok then d.accepted + [e] else d.accepted)
    case Subscribe(id) => d.(listeners := d.listeners + [id], missed := d.missed + [|d.matched|])
    case PopEvent =>
      var (o, r) := PopRing(d.ring);
      d.(ring := r, hand := InRing(d.ring.read, o.value.id, |o.value.data|), popped := d.popped + [o.value])
    case CopyOut => d.(hand := Local(Event(d.hand.id, Viewed(d.ring.cells[d.hand.slot].data, d.hand.sz))))
    case MatchTargets =>
      d.(hand := Free, matched := d.matched + [d.hand.event], tasks := AddTask(d.tasks, d.listeners, d.hand.event))
    case EndOfDrain => d.(running := true)
    case RunTask =>
      d.(tasks := d.tasks[1..], running := |d.tasks| > 1,
         delivered := Deliver(d.delivered, d.tasks[0].targets, d.tasks[0].event))
  }

  ghost function DrainRun(start: Ring, acts: seq<Act>, maxData: nat): Option<Drain> {
    if acts == [] then Some(Start(start))
    else
      match DrainRun(start, acts[..|acts| - 1], maxData)
      case None => None
      case Some(d) => if CanDo(d, acts[|acts| - 1]) then Some(Perform(d, acts[|acts| - 1], maxData)) else None
  }

  lemma {:induction false} DrainSnoc(start: Ring, acts: seq<Act>, maxData: nat, d: Drain, a: Act)
    requires DrainRun(start, acts, maxData) == Some(d) && CanDo(d, a)
    ensures DrainRun(start, acts + [a], maxData) == Some(Perform(d, a, maxData))
  {
    assert (acts + [a])[..|acts|] == acts;
  }

  lemma {:induction false} DrainConcat(start: Ring, acts: seq<Act>, first: seq<Act>, rest: seq<Act>, maxData: nat)
    ensures DrainRun(start, acts + (first + rest), maxData) == DrainRun(start, acts + first + rest, maxData)
  {
    assert acts + (first + rest) == acts + first + rest;
  }

  // ----- the invariant -----

  /** The ring's history, and the event in hand: its cell still holds what was popped. */
  ghost predicate HandInv(d: Drain) {
    && RingOk(d.ring) && d.popped + Queue(d.ring) == d.accepted
    && match d.hand
       case Free => d.matched == d.popped
       case InRing(slot, id, sz) =>
         && d.popped != [] && d.matched == d.popped[..|d.popped| - 1]
         && slot == Behind(d.ring) && d.ring.cells[slot] == d.popped[|d.popped| - 1]
         && id == d.popped[|d.popped| - 1].id && sz == |d.popped[|d.popped| - 1].data|
       case Local(e) => d.popped != [] && d.matched == d.popped[..|d.popped| - 1] && e == d.popped[|d.popped| - 1]
  }

  /** What listener j was passed, followed by what is scheduled for it, is what was matched since
      it was added, filtered by its event id. */
  ghost predicate ListenerInv(d: Drain, j: nat)
    requires j < |d.listeners| == |d.missed|
  {
    && d.missed[j] <= |d.matched|
    && PassedTo(j, d.delivered) + Scheduled(j, d.tasks) == Filter(d.listeners[j], d.matched[d.missed[j]..])
  }

  /** Nobody else is a target or was passed anything, and no task is for nobody. */
  ghost predicate NoStrangers(d: Drain) {
    && (forall t | t in d.tasks ::
          t.targets != [] && Increasing(t.targets) && forall j | j in t.targets :: j < |d.listeners|)
    && (forall p | p in d.delivered :: p.0 < |d.listeners|)
  }

  ghost predicate DrainInv(d: Drain) {
    && HandInv(d) && NoStrangers(d) && |d.missed| == |d.listeners|
    && forall j | 0 <= j < |d.listeners| :: ListenerInv(d, j)
  }

  lemma {:induction false} NotifyHand(d: Drain, e: Event, maxData: nat)
    requires HandInv(d)
    ensures HandInv(Perform(d, Notify(e), maxData))
  {
    PushRefines(d.ring, e, maxData);
    PushesLeaveBehind(d.ring, [e], maxData);
  }

  lemma {:induction false} PopHand(d: Drain, maxData: nat)
    requires HandInv(d) && CanDo(d, PopEvent)
    ensures HandInv(Perform(d, PopEvent, maxData))
  {
    PopRefines(d.ring);
    assert Queue(d.ring) == [Queue(d.ring)[0]] + Queue(d.ring)[1..];
    assert (d.popped + [Queue(d.ring)[0]])[..|d.popped|] == d.popped;
  }

  lemma {:induction false} HandStep(d: Drain, a: Act, maxData: nat)
    requires HandInv(d) && CanDo(d, a)
    ensures HandInv(Perform(d, a, maxData))
  {
    match a
    case Notify(e) => NotifyHand(d, e, maxData);
    case PopEvent => PopHand(d, maxData);
    case MatchTargets => assert d.popped[..|d.popped| - 1] + [d.popped[|d.popped| - 1]] == d.popped;
    case _ =>
  }

  lemma {:induction false} DeliveredAre(delivered: seq<(nat, Event)>, targets: seq<nat>, e: Event)
    ensures forall p | p in Deliver(delivered, targets, e) :: p in delivered || p.0 in targets
    decreases |targets|
  {
    if targets != [] {
      DeliveredAre(delivered, targets[..|targets| - 1], e);
    }
  }

  lemma {:induction false} StrangersStep(d: Drain, a: Act, maxData: nat)
    requires NoStrangers(d) && CanDo(d, a)
    ensures NoStrangers(Perform(d, a, maxData))
  {
    match a
    case MatchTargets => TargetsAre(d.listeners, d.hand.event.id);
    case RunTask => DeliveredAre(d.delivered, d.tasks[0].targets, d.tasks[0].event);
    case _ =>
  }

  lemma {:induction false} MoveOver<T>(x: seq<T>, y: seq<T>, z: seq<T>)
    ensures (x + y) + z == x + (y + z)
  {
  }

  /** The task for an event reaches exactly the listeners with its id. */
  lemma {:induction false} AddTaskSchedules(tasks: seq<EventTask>, ls: seq<UInt16>, e: Event, j: nat)
    requires j < |ls|
    ensures Scheduled(j, AddTask(tasks, ls, e)) ==
      Scheduled(j, tasks) + (if ls[j] == e.id then [e] else [])
  {
    TargetsIn(ls, e.id);
    ScheduledSnoc(j, tasks, EventTask(Targets(ls, e.id), e));
    assert Scheduled(j, tasks) + [] == Scheduled(j, tasks);
  }

  lemma {:induction false} FilterSince(id: UInt16, es: seq<Event>, since: nat, e: Event)
    requires since <= |es|
    ensures Filter(id, (es + [e])[since..]) == Filter(id, es[since..]) + (if e.id == id then [e] else [])
  {
    assert (es + [e])[since..] == es[since..] + [e];
    FilterSnoc(id, es[since..], e);
  }

  lemma {:induction false} MatchStep(d: Drain, j: nat, maxData: nat)
    requires CanDo(d, MatchTargets) && j < |d.listeners| == |d.missed| && ListenerInv(d, j)
    ensures ListenerInv(Perform(d, MatchTargets, maxData), j)
  {
    var e, id := d.hand.event, d.listeners[j];
    AddTaskSchedules(d.tasks, d.listeners, e, j);
    FilterSince(id, d.matched, d.missed[j], e);
    MoveOver(PassedTo(j, d.delivered), Scheduled(j, d.tasks), if id == e.id then [e] else []);
  }

  lemma {:induction false} RunStep(d: Drain, j: nat, maxData: nat)
    requires CanDo(d, RunTask) && Increasing(d.tasks[0].targets) && j < |d.listeners| == |d.missed|
    requires ListenerInv(d, j)
    ensures ListenerInv(Perform(d, RunTask, maxData), j)
  {
    var t := d.tasks[0];
    var now := if j in t.targets then [t.event] else [];
    DeliverOnce(j, d.delivered, t.targets, t.event);
    ScheduledCons(j, d.tasks);
    MoveOver(PassedTo(j, d.delivered), now, Scheduled(j, d.tasks[1..]));
  }

  /** A listener that is just being added has seen nothing. */
  lemma {:induction false} FreshListener(d: Drain)
    requires NoStrangers(d)
    ensures PassedTo(|d.listeners|, d.delivered) == [] && Scheduled(|d.listeners|, d.tasks) == []
  {
    PassedNothing(|d.listeners|, d.delivered);
    ScheduledNothing(|d.listeners|, d.tasks);
  }

  lemma {:induction false} PassedNothing(j: nat, delivered: seq<(nat, Event)>)
    requires forall p | p in delivered :: p.0 < j
    ensures PassedTo(j, delivered) == []
    decreases |delivered|
  {
    if delivered != [] {
      PassedNothing(j, delivered[..|delivered| - 1]);
    }
  }

  lemma {:induction false} ScheduledNothing(j: nat, tasks: seq<EventTask>)
    requires forall t | t in tasks :: j !in t.targets
    ensures Scheduled(j, tasks) == []
    decreases |tasks|
  {
    if tasks != [] {
      ScheduledNothing(j, tasks[..|tasks| - 1]);
    }
  }

  lemma {:induction false} ListenerStep(d: Drain, a: Act, j: nat, maxData: nat)
    requires DrainInv(d) && CanDo(d, a) && j < |Perform(d, a, maxData).listeners|
    ensures |Perform(d, a, maxData).missed| == |Perform(d, a, maxData).listeners|
    ensures ListenerInv(Perform(d, a, maxData), j)
  {
    if j < |d.listeners| {
      assert ListenerInv(d, j);
      match a
      case MatchTargets => MatchStep(d, j, maxData);
      case RunTask => assert d.tasks[0] in d.tasks; RunStep(d, j, maxData);
      case _ =>
    } else {
      FreshListener(d);
      assert d.matched[|d.matched|..] == [];
    }
  }

  lemma {:induction false} DrainAlways(start: Ring, acts: seq<Act>, maxData: nat)
    requires RingOk(start) && Queue(start) == [] && DrainRun(start, acts, maxData).Some?
    ensures DrainInv(DrainRun(start, acts, maxData).value)
    decreases |acts|
  {
    if acts != [] {
      var before, a := acts[..|acts| - 1], acts[|acts| - 1];
      DrainAlways(start, before, maxData);
      var d := DrainRun(start, before, maxData).value;
      HandStep(d, a, maxData);
      StrangersStep(d, a, maxData);
      assert |Perform(d, a, maxData).missed| == |Perform(d, a, maxData).listeners|;
      forall j | 0 <= j < |Perform(d, a, maxData).listeners| ensures ListenerInv(Perform(d, a, maxData), j) {
        ListenerStep(d, a, j, maxData);
      }
    }
  }

  // ----- tasks before pops -----

  /** While tasks run there is one left, and no event is in hand. */
  ghost predicate RunningInv(d: Drain) {
    d.running ==> d.tasks != [] && d.hand.Free?
  }

  lemma {:induction false} RunningAlways(start: Ring, acts: seq<Act>, maxData: nat)
    requires DrainRun(start, acts, maxData).Some?
    ensures RunningInv(DrainRun(start, acts, maxData).value)
    decreases |acts|
  {
    if acts != [] {
      RunningAlways(start, acts[..|acts| - 1], maxData);
    }
  }

  /** The number of tasks run. */
  function TasksRun(acts: seq<Act>): nat {
    if acts == [] then 0 else TasksRun(acts[..|acts| - 1]) + (if acts[|acts| - 1].RunTask? then 1 else 0)
  }

  /** The end of a drain: however the run goes on, until as many tasks have run as the drain
      scheduled, nothing is popped and no task is added; when they have run, the client can pop
      again. */
  lemma {:induction false} TasksRunBeforePops(start: Ring, acts: seq<Act>, maxData: nat, d: Drain,
      more: seq<Act>, t: Drain)
    requires DrainRun(start, acts, maxData) == Some(d) && d.running
    requires DrainRun(start, acts + more, maxData) == Some(t) && TasksRun(more) <= |d.tasks|
    requires TasksRun(more) == |d.tasks| ==> more != [] && more[|more| - 1].RunTask?
    ensures t.popped == d.popped && t.hand.Free? && t.tasks == d.tasks[TasksRun(more)..]
    ensures t.running <==> TasksRun(more) < |d.tasks|
    decreases |more|
  {
    RunningAlways(start, acts, maxData);
    if more == [] {
      assert acts + more == acts;
    } else {
      var before, a := more[..|more| - 1], more[|more| - 1];
      assert (acts + more)[..|acts + more| - 1] == acts + before;
      TasksRunBeforePops(start, acts, maxData, d, before, DrainRun(start, acts + before, maxData).value);
    }
  }

  // ----- what a subscriber gets -----

  /** The number of subscriptions in a run. */
  function Subscriptions(acts: seq<Act>): nat {
    if acts == [] then 0
    else Subscriptions(acts[..|acts| - 1]) + (if acts[|acts| - 1].Subscribe? then 1 else 0)
  }

  /** A step only adds: a listener for a subscription, nothing otherwise. */
  lemma {:induction false} ListenersGrow(d: Drain, a: Act, maxData: nat)
    requires CanDo(d, a)
    ensures var t := Perform(d, a, maxData);
      && t.listeners == d.listeners + (if a.Subscribe? then [a.eventId] else [])
      && t.missed == d.missed + (if a.Subscribe? then [|d.matched|] else [])
  {
  }

  /** The listeners are the subscriptions. If step n of a run subscribes to an event id, the
      listener numbered by the subscriptions before it listens to that id and missed what was
      matched before; and there are no other listeners. */
  lemma {:induction false} ListenersAreSubscriptions(start: Ring, acts: seq<Act>, maxData: nat, n: nat, id: UInt16)
    requires DrainRun(start, acts, maxData).Some?
    ensures var d := DrainRun(start, acts, maxData).value;
      |d.listeners| == |d.missed| == Subscriptions(acts)
    ensures n < |acts| && acts[n] == Subscribe(id) ==>
      var d, before := DrainRun(start, acts, maxData).value, DrainRun(start, acts[..n], maxData);
      var j := Subscriptions(acts[..n]);
      before.Some? && j < |d.listeners| && d.listeners[j] == id && d.missed[j] == |before.value.matched|
    decreases |acts|
  {
    if acts != [] {
      var before, a := acts[..|acts| - 1], acts[|acts| - 1];
      ListenersAreSubscriptions(start, before, maxData, n, id);
      ListenersGrow(DrainRun(start, before, maxData).value, a, maxData);
      if n < |before| {
        assert before[..n] == acts[..n];
      }
    }
  }

  /** Listener delivery order, for every interleaving of broadcasts, subscriptions and drains: if
      step n of the run subscribes to an event id, what that listener was passed, followed by what
      is scheduled for it, is the sequence of events with that id among those matched after step n;
      and what was matched is a prefix of what the ring accepted, unchanged although it was copied
      after the lock was released. */
  lemma {:induction false} ListenersGetTheirEvents(start: Ring, acts: seq<Act>, maxData: nat, n: nat, id: UInt16)
    requires RingOk(start) && Queue(start) == [] && DrainRun(start, acts, maxData).Some?
    requires n < |acts| && acts[n] == Subscribe(id)
    ensures DrainRun(start, acts[..n], maxData).Some?
    ensures var d, j := DrainRun(start, acts, maxData).value, Subscriptions(acts[..n]);
      var missed := |DrainRun(start, acts[..n], maxData).value.matched|;
      && |d.listeners| == Subscriptions(acts) > j
      && missed <= |d.matched| && d.matched <= d.accepted
      && PassedTo(j, d.delivered) + Scheduled(j, d.tasks) == Filter(id, d.matched[missed..])
  {
    DrainAlways(start, acts, maxData);
    ListenersAreSubscriptions(start, acts, maxData, n, id);
    assert ListenerInv(DrainRun(start, acts, maxData).value, Subscriptions(acts[..n]));
  }

  /** Nobody else is passed anything: every delivery, made or scheduled, is to a subscriber, and
      every scheduled task is for somebody, with its targets in the order of subscription. */
  lemma {:induction false} OnlySubscribersArePassed(start: Ring, acts: seq<Act>, maxData: nat)
    requires RingOk(start) && Queue(start) == [] && DrainRun(start, acts, maxData).Some?
    ensures forall p | p in DrainRun(start, acts, maxData).value.delivered :: p.0 < Subscriptions(acts)
    ensures forall t | t in DrainRun(start, acts, maxData).value.tasks ::
      t.targets != [] && Increasing(t.targets) && forall j | j in t.targets :: j < Subscriptions(acts)
  {
    DrainAlways(start, acts, maxData);
    ListenersAreSubscriptions(start, acts, maxData, |acts|, 0);
  }

  /** Once the ring is drained and the tasks have run, a listener was passed exactly the events
      with the id it subscribed to that were accepted and not yet matched when it was added, or
      accepted later, in order and each once. */
  lemma {:induction false} DrainedListenersAreComplete(start: Ring, acts: seq<Act>, maxData: nat, n: nat, id: UInt16)
    requires RingOk(start) && Queue(start) == [] && DrainRun(start, acts, maxData).Some?
    requires n < |acts| && acts[n] == Subscribe(id)
    requires var d := DrainRun(start, acts, maxData).value;
      d.hand.Free? && d.tasks == [] && RingOk(d.ring) && PopRing(d.ring).0.None?
    ensures DrainRun(start, acts[..n], maxData).Some?
    ensures var d, j := DrainRun(start, acts, maxData).value, Subscriptions(acts[..n]);
      var missed := |DrainRun(start, acts[..n], maxData).value.matched|;
      missed <= |d.accepted| && PassedTo(j, d.delivered) == Filter(id, d.accepted[missed..])
  {
    ListenersGetTheirEvents(start, acts, maxData, n, id);
    DrainAlways(start, acts, maxData);
    var d := DrainRun(start, acts, maxData).value;
    assert Scheduled(Subscriptions(acts[..n]), []) == [] && Queue(d.ring) == [];
    assert d.accepted == d.popped + [] == d.popped;
  }
}
