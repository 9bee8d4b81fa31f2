/** space/EventRingBuffer.h: one client's ring of events. A ring of n cells holds at most n - 1
    events; the cell just behind the read index stays untouched. */
module EventRingBufferModel {
  import opened Bytes

  datatype Event = Event(id: UInt16, data: seq<Byte>)

  // ----- the ring as a value -----

  datatype Ring = Ring(cells: seq<Event>, read: nat, write: nat)

  predicate RingOk(r: Ring) {
    r.read < |r.cells| && r.write < |r.cells|
  }

  /** (i + 1) % n. */
  function Next(i: nat, n: nat): nat {
    if i + 1 == n then 0 else i + 1
  }

  function PushRing(r: Ring, e: Event, maxData: nat): (bool, Ring)
    requires RingOk(r)
  {
    if |e.data| > maxData then (false, r)
    else
      var next := Next(r.write, |r.cells|);
      if next == r.read then (false, r)
      else (true, Ring(r.cells[r.write := e], r.read, next))
  }

  function PopRing(r: Ring): (Option<Event>, Ring)
    requires RingOk(r)
  {
    if r.read == r.write then (None, r)
    else (Some(r.cells[r.read]), r.(read := Next(r.read, |r.cells|)))
  }

  function ResetRing(r: Ring): Ring {
    r.(read := 0, write := 0)
  }

  /** The number of queued events. */
  function Count(r: Ring): nat
    requires RingOk(r)
  {
    if r.read <= r.write then r.write - r.read else r.write + |r.cells| - r.read
  }

  /** The queued event j places behind the read index. */
  function At(r: Ring, j: nat): Event
    requires RingOk(r) && j < |r.cells|
  {
    if r.read + j < |r.cells| then r.cells[r.read + j] else r.cells[r.read + j - |r.cells|]
  }

  /** The queued events, oldest first. */
  function Queue(r: Ring): (q: seq<Event>)
    requires RingOk(r)
    ensures |q| == Count(r) < |r.cells|
  {
    seq(Count(r), j requires 0 <= j < Count(r) => At(r, j))
  }

  // ----- the ring is a bounded FIFO -----

  /** push accepts if and only if the payload fits and fewer than n - 1 events are queued; an
      accepted event goes to the end of the queue. */
  lemma {:induction false} PushRefines(r: Ring, e: Event, maxData: nat)
    requires RingOk(r)
    ensures var (ok, r') := PushRing(r, e, maxData);
      && RingOk(r') && |r'.cells| == |r.cells|
      && (ok <==> |e.data| <= maxData && |Queue(r)| < |r.cells| - 1)
      && Queue(r') == (if ok then Queue(r) + [e] else Queue(r))
  {
    var (ok, r') := PushRing(r, e, maxData);
    if ok {
      assert Count(r') == Count(r) + 1;
      assert forall j | 0 <= j < Count(r) :: At(r', j) == At(r, j);
      assert At(r', Count(r)) == e;
    }
  }

  /** pop returns the oldest queued event, or nothing if the queue is empty. */
  lemma {:induction false} PopRefines(r: Ring)
    requires RingOk(r)
    ensures var (o, r') := PopRing(r);
      && RingOk(r') && |r'.cells| == |r.cells|
      && (o.None? <==> Queue(r) == [])
      && (o.None? ==> r' == r)
      && (o.Some? ==> o.value == Queue(r)[0] && Queue(r') == Queue(r)[1..])
  {
    var (o, r') := PopRing(r);
    if o.Some? {
      assert Count(r') == Count(r) - 1;
      assert forall j | 0 <= j < Count(r') :: At(r', j) == At(r, j + 1);
    }
  }

  datatype Op = RingPush(e: Event) | RingPop | RingReset

  /** What a caller sees of one operation. */
  datatype Answer = Pushed(ok: bool) | Popped(e: Option<Event>) | Done

  function RingStep(r: Ring, op: Op, maxData: nat): (Answer, Ring)
    requires RingOk(r)
  {
    match op
    case RingPush(e) => var (ok, r') := PushRing(r, e, maxData); (Pushed(ok), r')
    case RingPop => var (o, r') := PopRing(r); (Popped(o), r')
    case RingReset => (Done, ResetRing(r))
  }

  /** The reference: a queue that accepts payloads up to maxData while it is shorter than capacity. */
  function FifoStep(q: seq<Event>, op: Op, maxData: nat, capacity: nat): (Answer, seq<Event>) {
    match op
    case RingPush(e) =>
      if |e.data| <= maxData && |q| < capacity then (Pushed(true), q + [e]) else (Pushed(false), q)
    case RingPop => if q == [] then (Popped(None), q) else (Popped(Some(q[0])), q[1..])
    case RingReset => (Done, [])
  }

  function FifoRun(q: seq<Event>, ops: seq<Op>, maxData: nat, capacity: nat): seq<Answer>
    decreases |ops|
  {
    if ops == [] then []
    else
      var (a, q') := FifoStep(q, ops[0], maxData, capacity);
      [a] + FifoRun(q', ops[1..], maxData, capacity)
  }

  lemma {:induction false} StepKeepsRing(r: Ring, op: Op, maxData: nat)
    requires RingOk(r)
    ensures RingOk(RingStep(r, op, maxData).1) && |RingStep(r, op, maxData).1.cells| == |r.cells|
    ensures var (a, r') := RingStep(r, op, maxData);
      FifoStep(Queue(r), op, maxData, |r.cells| - 1) == (a, Queue(r'))
  {
    match op
    case RingPush(e) => PushRefines(r, e, maxData);
    case RingPop => PopRefines(r);
    case RingReset => assert Queue(ResetRing(r)) == [];
  }

  function RingRun(r: Ring, ops: seq<Op>, maxData: nat): seq<Answer>
    requires RingOk(r)
    decreases |ops|
  {
    if ops == [] then []
    else
      StepKeepsRing(r, ops[0], maxData);
      var (a, r') := RingStep(r, ops[0], maxData);
      [a] + RingRun(r', ops[1..], maxData)
  }

  /** For every ring size and every sequence of operations, a caller cannot tell the ring from a
      FIFO of capacity n - 1. */
  lemma {:induction false} RingIsBoundedFifo(r: Ring, ops: seq<Op>, maxData: nat)
    requires RingOk(r)
    ensures RingRun(r, ops, maxData) == FifoRun(Queue(r), ops, maxData, |r.cells| - 1)
    decreases |ops|
  {
    if ops != [] {
      StepKeepsRing(r, ops[0], maxData);
      RingIsBoundedFifo(RingStep(r, ops[0], maxData).1, ops[1..], maxData);
    }
  }

  // ----- the popped cell is left alone -----

  /** The ring after a series of pushes, accepted or not. */
  function PushAll(r: Ring, es: seq<Event>, maxData: nat): (r': Ring)
    requires RingOk(r)
    ensures RingOk(r') && |r'.cells| == |r.cells| && r'.read == r.read
    decreases |es|
  {
    if es == [] then r else PushAll(PushRing(r, es[0], maxData).1, es[1..], maxData)
  }

  /** The cell behind the read index. */
  function Behind(r: Ring): nat
    requires RingOk(r)
  {
    if r.read == 0 then |r.cells| - 1 else r.read - 1
  }

  lemma {:induction false} PushesLeaveBehind(r: Ring, es: seq<Event>, maxData: nat)
    requires RingOk(r)
    ensures PushAll(r, es, maxData).cells[Behind(r)] == r.cells[Behind(r)]
    decreases |es|
  {
    if es != [] {
      PushesLeaveBehind(PushRing(r, es[0], maxData).1, es[1..], maxData);
    }
  }

  /** Event-view stability: the cell a pop returned keeps its event through any number of later
      pushes, so a client that copies it after unlocking copies what was pushed. */
  lemma {:induction false} ViewIsStable(r: Ring, es: seq<Event>, maxData: nat)
    requires RingOk(r) && PopRing(r).0.Some?
    ensures PushAll(PopRing(r).1, es, maxData).cells[r.read] == PopRing(r).0.value == Queue(r)[0]
  {
    assert Behind(PopRing(r).1) == r.read;
    PushesLeaveBehind(PopRing(r).1, es, maxData);
    PopRefines(r);
  }

  // ----- the shared memory -----

  // A slot is an event id, a size and the payload.
  const HEADER: nat := 4

  predicate SlotOk(slot: seq<Byte>, maxData: nat) {
    |slot| == HEADER + maxData && PayloadSize(slot) <= maxData
  }

  function PayloadSize(slot: seq<Byte>): UInt16
    requires |slot| >= HEADER
  {
    U16At(slot, 2)
  }

  function EventOf(slot: seq<Byte>, maxData: nat): Event
    requires SlotOk(slot, maxData)
  {
    Event(U16At(slot, 0), slot[HEADER..HEADER + PayloadSize(slot)])
  }

  /** What pop returns: the id and size, and the slot whose payload can be read. */
  datatype BufferView = BufferView(eventId: UInt16, slot: nat, sz: UInt16)

  lemma {:induction false} NextIsModulo(i: nat, n: nat)
    requires i < n
    ensures (i + 1) % n == Next(i, n)
  {
    if i + 1 < n {
      assert (i + 1) / n == 0;
    }
  }

  type QueueSize = x: int | 0 < x <= 0xFFFF witness 1

  class EventRingBuffer {
    const maxQueue: QueueSize
    const maxData: UInt16
    const storage: array2<Byte>
    var read: UInt16
    var write: UInt16

    ghost predicate Valid()
      reads this, storage
    {
      && storage.Length0 == maxQueue && storage.Length1 == HEADER + maxData
      && read < maxQueue && write < maxQueue
      && forall i | 0 <= i < maxQueue :: SlotOk(Slot(i), maxData)
    }

    function Slot(i: nat): (slot: seq<Byte>)
      requires i < storage.Length0
      reads storage
      ensures |slot| == storage.Length1
    {
      seq(storage.Length1, k requires 0 <= k < storage.Length1 && i < storage.Length0 reads storage => storage[i, k])
    }

    ghost function State(): (r: Ring)
      requires Valid()
      reads this, storage
      ensures RingOk(r) && |r.cells| == maxQueue && r.read == read && r.write == write
      ensures forall i | 0 <= i < maxQueue :: r.cells[i] == EventOf(Slot(i), maxData)
    {
      Ring(seq(maxQueue, i requires 0 <= i < maxQueue && Valid() reads this, storage => EventOf(Slot(i), maxData)),
           read, write)
    }

    /** The payload a view gives access to. */
    function ViewData(v: BufferView): seq<Byte>
      requires v.slot < storage.Length0 && HEADER + v.sz <= storage.Length1
      reads storage
    {
      Slot(v.slot)[HEADER..HEADER + v.sz]
    }

    constructor (maxQueue: QueueSize, maxData: UInt16)
      ensures Valid() && fresh(storage) && Queue(State()) == []
      ensures this.maxQueue == maxQueue && this.maxData == maxData
    {
      this.maxQueue := maxQueue;
      this.maxData := maxData;
      this.storage := new Byte[maxQueue, HEADER + maxData]((i, k) => 0);
      this.read := 0;
      this.write := 0;
    }

    method Push(eventId: UInt16, data: array<Byte>, sz: UInt16) returns (ok: bool)
      requires Valid() && sz <= data.Length
      modifies `write, storage
      ensures Valid()
      ensures (ok, State()) == PushRing(old(State()), Event(eventId, data[..sz]), maxData)
    {
      if sz > maxData {
        return false;
      }
      NextIsModulo(write, maxQueue);
      var next := (write + 1) % maxQueue;
      if next == read {
        return false;
      }
      ghost var before, w := State(), write;
      WriteSlot(write, eventId, data, sz);
      write := next;
      assert State().cells == before.cells[w := Event(eventId, data[..sz])];
      return true;
    }

    /** The three memcpys of push. */
    method WriteSlot(i: nat, eventId: UInt16, data: array<Byte>, sz: UInt16)
      requires i < storage.Length0 && HEADER + sz <= storage.Length1 && sz <= data.Length
      modifies storage
      ensures PayloadSize(Slot(i)) == sz
      ensures EventOf(Slot(i), storage.Length1 - HEADER) == Event(eventId, data[..sz])
      ensures forall j | 0 <= j < storage.Length0 && j != i :: Slot(j) == old(Slot(j))
    {
      storage[i, 0], storage[i, 1] := eventId % 256, eventId / 256;
      storage[i, 2], storage[i, 3] := sz % 256, sz / 256;
      forall k | 0 <= k < sz {
        storage[i, HEADER + k] := data[k];
      }
      assert Slot(i)[HEADER..HEADER + sz] == data[..sz];
    }

    method Pop() returns (view: Option<BufferView>)
      requires Valid()
      modifies `read
      ensures Valid() && State() == PopRing(old(State())).1
      ensures view.None? <==> PopRing(old(State())).0.None?
      ensures view.Some? ==>
        && view.value.slot == old(read) && view.value.sz <= maxData
        && Some(Event(view.value.eventId, ViewData(view.value))) == PopRing(old(State())).0
    {
      if read == write {
        return None;
      }
      assert SlotOk(Slot(read), maxData) && State().cells[read] == EventOf(Slot(read), maxData);
      var eventId, sz := U16At(Slot(read), 0), PayloadSize(Slot(read));
      var v := BufferView(eventId, read, sz);
      NextIsModulo(read, maxQueue);
      read := (read + 1) % maxQueue;
      return Some(v);
    }

    method Reset()
      requires Valid()
      modifies `read, `write
      ensures Valid() && State() == ResetRing(old(State()))
    {
      read := 0;
      write := 0;
    }
  }
}
