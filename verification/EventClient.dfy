/** Events end to end: notifyEvent on the server (IServerIPCBase.h), the client's drain loop
    (ClientIPC.cpp, readEvData), and the listener's decoding (IClientIPC.hpp). */
module EventClientModel {
  import opened Bytes
  import opened Codec
  import opened Tuple
  import opened Serializer
  import opened Deserializer
  import opened EventRingBufferModel
  import opened EventSpaceModel
  import opened EventDelivery

  // ----- the server -----

  /** notifyEvent. The result says whether the arguments were written inside the buffer; if not,
      the source writes past its end before every ring refuses them, and here no ring is touched. */
  method NotifyEvent(space: EventSpace, eventId: UInt16, args: seq<Value>) returns (inside: bool)
    requires space.Valid()
    modifies space.Repr
    ensures space.Valid() && space.available == old(space.available)
    ensures inside <==> |EncAll(args)| <= space.maxData
    ensures space.Clients() ==
      if !inside then old(space.Clients())
      else Broadcast(old(space.Clients()), old(space.available), Event(eventId, EncAll(args)), space.maxData).1
  {
    if |EncAll(args)| > space.maxData {
      return false;
    }
    var data, n := SerializeArgs(args, space.maxData);
    var _ := space.Push(eventId, data, n);
    return true;
  }

  /** The zeroed local buffer of notifyEvent, filled with the arguments. */
  method SerializeArgs(args: seq<Value>, eventSz: UInt16) returns (data: array<Byte>, n: UInt16)
    requires |EncAll(args)| <= eventSz
    ensures fresh(data) && n <= data.Length && data[..n] == EncAll(args)
  {
    data := new Byte[eventSz](_ => 0);
    ghost var zeros := data[..];
    n := SerializeVariadic(args, data, 0);
    SpliceIs(zeros, 0, EncAll(args));
  }

  // ----- the listener -----

  /** The local copy of an event: EVENT_SZ bytes, zero behind the payload. */
  function Padded(data: seq<Byte>, eventSz: nat): (s: seq<Byte>)
    requires |data| <= eventSz
    ensures |s| == eventSz && s[..|data|] == data
    ensures forall k | |data| <= k < eventSz :: s[k] == 0
  {
    data + seq(eventSz - |data|, _ => 0)
  }

  /** What event_fn passes to onNotify. */
  function ListenerArgs(ts: seq<Type>, e: Event, eventSz: nat): Read<seq<Value>>
    requires |e.data| <= eventSz
  {
    if ts == [] then Got([], 0) else DecTuple(ts, Padded(e.data, eventSz), 0)
  }

  /** Events end to end: a listener with the types of notifyEvent's arguments receives exactly
      those arguments, although one side encodes head first and the other decodes as a fold, if
      and only if they are representable; arguments that fit a slot are. */
  lemma {:induction false} ListenerGetsArguments(ts: seq<Type>, vs: seq<Value>, id: UInt16, eventSz: UInt16)
    requires Typed(ts, vs) && |EncVariadic(vs)| <= eventSz
    ensures ListenerArgs(ts, Event(id, EncVariadic(vs)), eventSz) == Got(vs, |EncVariadic(vs)|)
      <==> RepresentableTuple(ts, vs)
    ensures FullSizeAll(vs) <= MAX_SAFE_SLOT ==> RepresentableTuple(ts, vs)
  {
    EncShapesAgree(vs);
    if FullSizeAll(vs) <= MAX_SAFE_SLOT {
      TupleFits(ts, vs);
    }
    if ts == [] {
      assert vs == [] && EncAll([]) == [];
    } else {
      var local := Padded(EncAll(vs), eventSz);
      SliceIs(local, 0, |EncAll(vs)|);
      TupleRoundTripIff(ts, vs, local, 0);
    }
  }

  // ----- one drain -----

  /** The tasks of a drain that pops the given events. */
  function TasksOf(ls: seq<UInt16>, es: seq<Event>): seq<EventTask> {
    if es == [] then []
    else AddTask(TasksOf(ls, es[..|es| - 1]), ls, es[|es| - 1])
  }

  /** What running tasks passes to listeners, in order. */
  function DeliverAll(tasks: seq<EventTask>): seq<(nat, Event)> {
    if tasks == [] then []
    else
      var n := |tasks| - 1;
      Deliver(DeliverAll(tasks[..n]), tasks[n].targets, tasks[n].event)
  }

  /** Running the tasks of one drain passes to each listener the popped events with its id, in
      order and each once. */
  lemma {:induction false} DrainDelivers(ls: seq<UInt16>, es: seq<Event>, j: nat)
    requires j < |ls|
    ensures PassedTo(j, DeliverAll(TasksOf(ls, es))) == Filter(ls[j], es)
    decreases |es|
  {
    if es != [] {
      var before, e := es[..|es| - 1], es[|es| - 1];
      DrainDelivers(ls, before, j);
      var tasks, targets := TasksOf(ls, before), Targets(ls, e.id);
      TargetsAre(ls, e.id);
      DeliverOnce(j, DeliverAll(tasks), targets, e);
      assert (tasks + [EventTask(targets, e)])[..|tasks|] == tasks;
    }
  }

  // ----- the client -----

  class EventClient {
    const space: EventSpace
    var clientId: Option<nat>
    var listeners: seq<UInt16>

    ghost predicate Valid()
      reads this, space, space.Repr
    {
      space.Valid() && this !in space.Repr
    }

    /** The events waiting in this client's ring, if its id is registered. */
    ghost function Waiting(): seq<Event>
      requires Valid()
      reads this, space, space.Repr
    {
      var cs := space.Clients();
      if clientId.Some? && clientId.value < |cs| && cs[clientId.value].registered then Queue(cs[clientId.value].ring)
      else []
    }

    /** Other clients' rings and registrations are as they were. */
    ghost predicate OthersAre(before: seq<EventSpaceModel.Client>)
      requires Valid()
      reads this, space, space.Repr
    {
      |before| == |space.rings| &&
      forall i | 0 <= i < |before| && Some(i) != clientId :: space.Clients()[i] == before[i]
    }

    constructor (space: EventSpace)
      requires space.Valid()
      ensures Valid() && this.space == space && clientId == None && listeners == []
    {
      this.space := space;
      this.clientId := None;
      this.listeners := [];
    }

    /** subscribeToEventUpdates: the first subscription registers the client, and fails if it
        cannot; then one listener with the given event id is added at the end of the list. */
    method Subscribe(eventId: UInt16) returns (r: Option<nat>)
      requires Valid()
      modifies `clientId, `listeners, space.Repr
      ensures Valid() && space.available == old(space.available) && r == clientId
      ensures old(clientId).None? ==> (clientId, space.Clients()) == Register(old(space.Clients()))
      ensures old(clientId).Some? ==> clientId == old(clientId) && space.Clients() == old(space.Clients())
      ensures listeners == if r.Some? then old(listeners) + [eventId] else old(listeners)
    {
      if clientId.None? {
        clientId := space.RegisterClient();
        if clientId.None? {
          return None;
        }
      }
      listeners := listeners + [eventId];
      return clientId;
    }

    /** unsubscribeFromEventUpdates: frees the given id; the client keeps its own and its listeners. */
    method Unsubscribe(id: nat)
      requires Valid()
      modifies space.Repr
      ensures Valid() && space.available == old(space.available)
      ensures space.Clients() == Unregister(old(space.Clients()), id)
    {
      space.UnregisterClient(id);
    }

    /** The locked pop: a view of the oldest waiting event. */
    method PopView() returns (view: Option<BufferView>)
      requires Valid() && clientId.Some?
      modifies space.Repr
      ensures Valid() && space.available == old(space.available)
      ensures view.None? <==> old(Waiting()) == []
      ensures Waiting() == if view.None? then [] else old(Waiting())[1..]
      ensures OthersAre(old(space.Clients()))
      ensures view.Some? ==>
        && Shown(view.value)
        && Event(view.value.eventId, space.rings[clientId.value].ViewData(view.value)) == old(Waiting())[0]
    {
      PopForIs(space.Clients(), clientId.value);
      view := space.Pop(clientId.value);
    }

    /** The view is of a cell of this client's ring. */
    ghost predicate Shown(view: BufferView)
      reads this
    {
      && clientId.Some? && clientId.value < |space.rings| && view.sz <= space.maxData
      && view.slot < space.rings[clientId.value].maxQueue
    }

    /** The copy made after the lock is released. */
    method CopyOut(view: BufferView) returns (event: Event)
      requires Valid() && Shown(view)
      ensures event == Event(view.eventId, space.rings[clientId.value].ViewData(view))
      ensures |event.data| <= space.maxData
    {
      var local := new Byte[space.maxData](_ => 0);
      var data := space.rings[clientId.value].ViewData(view);
      forall k | 0 <= k < view.sz {
        local[k] := data[k];
      }
      assert local[..view.sz] == data;
      return Event(view.eventId, local[..view.sz]);
    }

    /** Pops the oldest waiting event, if there is one, and copies it. */
    method TakeEvent() returns (event: Option<Event>)
      requires Valid() && clientId.Some?
      modifies space.Repr
      ensures Valid() && space.available == old(space.available)
      ensures event == if old(Waiting()) == [] then None else Some(old(Waiting())[0])
      ensures Waiting() == if old(Waiting()) == [] then [] else old(Waiting())[1..]
      ensures OthersAre(old(space.Clients()))
      ensures event.Some? ==> |event.value.data| <= space.maxData
    {
      var view := PopView();
      if view.None? {
        return None;
      }
      var e := CopyOut(view.value);
      return Some(e);
    }

    /** The listeners an event is for. */
    method FindTargets(eventId: UInt16) returns (targets: seq<nat>)
      ensures targets == Targets(listeners, eventId)
    {
      targets := [];
      for n := 0 to |listeners|
        invariant targets == Targets(listeners[..n], eventId)
      {
        assert listeners[..n + 1][..n] == listeners[..n];
        if listeners[n] == eventId {
          targets := targets + [n];
        }
      }
      assert listeners[..|listeners|] == listeners;
    }

    /** One iteration of the drain loop, after n of the events waiting at its start. */
    method ReadEvent(before: seq<EventTask>, ghost all: seq<Event>, ghost n: nat)
      returns (tasks: seq<EventTask>, found: bool)
      requires Valid() && clientId.Some? && n <= |all| && Waiting() == all[n..]
      requires before == TasksOf(listeners, all[..n])
      modifies space.Repr
      ensures Valid() && space.available == old(space.available)
      ensures OthersAre(old(space.Clients()))
      ensures found <==> n < |all|
      ensures found ==> Waiting() == all[n + 1..] && tasks == TasksOf(listeners, all[..n + 1])
      ensures !found ==> Waiting() == [] && tasks == before
    {
      var event := TakeEvent();
      if event.None? {
        return before, false;
      }
      assert all[..n + 1][..n] == all[..n];
      var targets := FindTargets(event.value.id);
      tasks := if targets == [] then before else before + [EventTask(targets, event.value)];
      found := true;
    }

    /** The drain loop: pops until the ring is empty and schedules a task per event that has a
        listener. A client that has not subscribed has no id and does nothing. */
    method ReadEvents() returns (tasks: seq<EventTask>)
      requires Valid()
      modifies space.Repr
      ensures Valid() && space.available == old(space.available)
      ensures tasks == TasksOf(listeners, old(Waiting())) && Waiting() == []
      ensures OthersAre(old(space.Clients()))
    {
      tasks := [];
      ghost var all, before, n := Waiting(), space.Clients(), 0;
      assert all[..0] == [];
      var found := clientId.Some?;
      while found
        invariant Valid() && space.available == old(space.available) && OthersAre(before)
        invariant n <= |all| && Waiting() == all[n..] && tasks == TasksOf(listeners, all[..n])
        invariant found ==> clientId.Some?
        invariant !found ==> n == |all|
        decreases found, |all| - n
      {
        tasks, found := ReadEvent(tasks, all, n);
        n := if found then n + 1 else n;
      }
      assert all[..n] == all;
    }

    /** The tasks, run in order after the drain. */
    method RunTasks(tasks: seq<EventTask>) returns (delivered: seq<(nat, Event)>)
      ensures delivered == DeliverAll(tasks)
    {
      delivered := [];
      for n := 0 to |tasks|
        invariant delivered == DeliverAll(tasks[..n])
      {
        assert tasks[..n + 1][..n] == tasks[..n];
        delivered := RunTask(tasks[n], delivered);
      }
      assert tasks[..|tasks|] == tasks;
    }

    method RunTask(task: EventTask, before: seq<(nat, Event)>) returns (delivered: seq<(nat, Event)>)
      ensures delivered == Deliver(before, task.targets, task.event)
    {
      delivered := before;
      for n := 0 to |task.targets|
        invariant delivered == Deliver(before, task.targets[..n], task.event)
      {
        assert task.targets[..n + 1][..n] == task.targets[..n];
        delivered := delivered + [(task.targets[n], task.event)];
      }
      assert task.targets[..|task.targets|] == task.targets;
    }

    /** event_fn: decodes the arguments from the padded copy. */
    method EventFn(ts: seq<Type>, event: Event) returns (r: Read<seq<Value>>)
      requires |event.data| <= space.maxData
      ensures r == ListenerArgs(ts, event, space.maxData)
    {
      if ts == [] {
        return Got([], 0);
      }
      var local := new Byte[space.maxData](k => if k < |event.data| && k >= 0 then event.data[k] else 0);
      assert local[..] == Padded(event.data, space.maxData);
      r := DeserializeTuple(ts, local, 0);
    }
  }
}
