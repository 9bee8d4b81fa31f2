/** space/CallbackSpace.h: the reply slots shared by all clients and the server. */
module CallbackSpaceModel {
  import opened Bytes

  datatype Slot = NoData | Pending | Ready(data: seq<Byte>)

  // ----- the slot operations on values -----

  function FirstFree(slots: seq<Slot>, i: nat): Option<nat>
    requires i <= |slots|
    decreases |slots| - i
  {
    if i == |slots| then None
    else if slots[i] == NoData then Some(i)
    else FirstFree(slots, i + 1)
  }

  /** pushCallback: the first free slot becomes pending. */
  function PushSlot(slots: seq<Slot>): (Option<nat>, seq<Slot>) {
    match FirstFree(slots, 0)
    case None => (None, slots)
    case Some(i) => FirstFreeIsFree(slots, 0); (Some(i), slots[i := Pending])
  }

  /** updateCallback: a pending slot receives the reply; everything else is ignored. */
  function UpdateSlot(slots: seq<Slot>, i: nat, data: seq<Byte>, maxData: nat): seq<Slot> {
    if i >= |slots| || |data| > maxData || slots[i] != Pending then slots
    else slots[i := Ready(data)]
  }

  /** popCallback: a ready slot hands over its reply and becomes free. */
  function PopSlot(slots: seq<Slot>, i: nat): (Option<seq<Byte>>, seq<Slot>) {
    if i >= |slots| || !slots[i].Ready? then (None, slots)
    else (Some(slots[i].data), slots[i := NoData])
  }

  /** clearCallback: the slot becomes free whatever it held. */
  function ClearSlot(slots: seq<Slot>, i: nat): seq<Slot> {
    if i >= |slots| then slots else slots[i := NoData]
  }

  /** The slot pushCallback picks is free and is the first such; it refuses only when none is. */
  lemma {:induction false} FirstFreeIsFree(slots: seq<Slot>, i: nat)
    requires i <= |slots|
    ensures var r := FirstFree(slots, i);
      && (r.Some? ==> i <= r.value < |slots| && slots[r.value] == NoData)
      && forall j | i <= j < (if r.Some? then r.value else |slots|) :: slots[j] != NoData
    decreases |slots| - i
  {
    if i < |slots| && slots[i] != NoData {
      FirstFreeIsFree(slots, i + 1);
    }
  }

  predicate AllInUse(slots: seq<Slot>) {
    forall i | 0 <= i < |slots| :: slots[i] != NoData
  }

  /** Slot i is the first free one. */
  predicate IsFirstFree(slots: seq<Slot>, i: nat) {
    i < |slots| && slots[i] == NoData && AllInUse(slots[..i])
  }

  /** updateCallback for one reply after the other. */
  function UpdateAll(slots: seq<Slot>, i: nat, replies: seq<seq<Byte>>, maxData: nat): seq<Slot>
    decreases |replies|
  {
    if replies == [] then slots else UpdateAll(UpdateSlot(slots, i, replies[0], maxData), i, replies[1..], maxData)
  }

  lemma {:induction false} ReadyStays(slots: seq<Slot>, i: nat, late: seq<seq<Byte>>, maxData: nat)
    requires i < |slots| && slots[i].Ready?
    ensures UpdateAll(slots, i, late, maxData) == slots
    decreases |late|
  {
    if late != [] {
      ReadyStays(slots, i, late[1..], maxData);
    }
  }

  /** A reply written to a pending slot is what the next pop of that slot returns, whatever is
      written to it in between; popping frees the slot and nothing else. */
  lemma {:induction false} UpdateThenPop(slots: seq<Slot>, i: nat, data: seq<Byte>, late: seq<seq<Byte>>, maxData: nat)
    requires i < |slots| && slots[i] == Pending && |data| <= maxData
    ensures PopSlot(UpdateAll(UpdateSlot(slots, i, data, maxData), i, late, maxData), i)
         == (Some(data), slots[i := NoData])
  {
    ReadyStays(UpdateSlot(slots, i, data, maxData), i, late, maxData);
    assert slots[i := Ready(data)][i := NoData] == slots[i := NoData];
  }

  /** When a client gives up waiting on a slot: its deadline has passed or it is shutting down. */
  predicate IsExpired(deadline: int, now: int, active: bool) {
    deadline < now || !active
  }

  // ----- the shared memory -----

  // STATUS_INDEX, SIZE_INDEX and DATA_INDEX.
  const STATUS: nat := 0
  const SIZE: nat := 1
  const DATA: nat := 3

  // DataState.
  const NO_DATA: Byte := 0
  const PENDING: Byte := 1
  const READY: Byte := 3

  /** Where a popped reply can be read: a row of the space and a size. */
  datatype CallbackView = CallbackView(cbIndex: nat, sz: UInt16)

  // ----- one row: status byte, 16-bit size, data -----

  predicate RowOk(row: seq<Byte>, maxData: nat) {
    && |row| == DATA + maxData
    && row[STATUS] in {NO_DATA, PENDING, READY}
    && (row[STATUS] == READY ==> RowSize(row) <= maxData)
  }

  function RowSize(row: seq<Byte>): UInt16
    requires |row| >= DATA
  {
    U16At(row, SIZE)
  }

  function SlotOf(row: seq<Byte>, maxData: nat): Slot
    requires RowOk(row, maxData)
  {
    if row[STATUS] == NO_DATA then NoData
    else if row[STATUS] == PENDING then Pending
    else Ready(row[DATA..DATA + RowSize(row)])
  }

  class CallbackSpace {
    const maxQueue: UInt16
    const maxData: UInt16
    const cells: array2<Byte>

    ghost predicate Valid()
      reads cells
    {
      && cells.Length0 == maxQueue && cells.Length1 == DATA + maxData
      && forall i | 0 <= i < maxQueue :: RowOk(Row(i), maxData)
    }

    function Row(i: nat): (row: seq<Byte>)
      requires i < cells.Length0
      reads cells
      ensures |row| == cells.Length1
    {
      seq(cells.Length1, k requires 0 <= k < cells.Length1 && i < cells.Length0 reads cells => cells[i, k])
    }

    /** The bytes a view gives access to. */
    function ViewData(view: CallbackView): seq<Byte>
      requires view.cbIndex < cells.Length0 && DATA + view.sz <= cells.Length1
      reads cells
    {
      Row(view.cbIndex)[DATA..DATA + view.sz]
    }

    ghost function Slots(): (s: seq<Slot>)
      requires Valid()
      reads cells
      ensures |s| == maxQueue
      ensures forall i | 0 <= i < maxQueue :: s[i] == SlotOf(Row(i), maxData)
    {
      seq(maxQueue, i requires 0 <= i < maxQueue && Valid() reads cells => SlotOf(Row(i), maxData))
    }

    constructor (maxQueue: UInt16, maxData: UInt16)
      ensures Valid() && fresh(cells)
      ensures this.maxQueue == maxQueue && this.maxData == maxData
      ensures forall i | 0 <= i < maxQueue :: Slots()[i] == NoData
    {
      this.maxQueue := maxQueue;
      this.maxData := maxData;
      this.cells := new Byte[maxQueue, DATA + maxData]((i, k) => 0);
    }

    method IsCallbackAvailable(cbIndex: nat) returns (r: bool)
      requires Valid()
      ensures r <==> cbIndex < |Slots()| && Slots()[cbIndex].Ready?
    {
      if cbIndex >= maxQueue {
        return false;
      }
      assert RowOk(Row(cbIndex), maxData);
      r := cells[cbIndex, STATUS] == READY;
    }

    method PushCallback() returns (r: Option<nat>)
      requires Valid()
      modifies cells
      ensures Valid() && (r, Slots()) == PushSlot(old(Slots()))
    {
      ghost var before := Slots();
      FirstFreeIsFree(before, 0);
      for i := 0 to maxQueue
        invariant Valid() && Slots() == before
        invariant FirstFree(before, 0) == FirstFree(before, i)
        invariant forall j | 0 <= j < maxQueue :: Row(j) == old(Row(j))
      {
        assert RowOk(Row(i), maxData) && before[i] == SlotOf(Row(i), maxData);
        if cells[i, STATUS] == NO_DATA {
          assert FirstFree(before, i) == Some(i);
          cells[i, STATUS] := PENDING;
          assert Row(i)[STATUS] == PENDING;
          assert forall j | 0 <= j < maxQueue && j != i :: Row(j) == old(Row(j));
          assert Slots() == before[i := Pending];
          return Some(i);
        }
      }
      return None;
    }

    /** The writes of updateCallback: size, data and status of one row. */
    method WriteReply(cbIndex: nat, data: array<Byte>, sz: UInt16)
      requires cbIndex < cells.Length0 && DATA + sz <= cells.Length1 && sz <= data.Length
      modifies cells
      ensures Row(cbIndex)[STATUS] == READY && RowSize(Row(cbIndex)) == sz
      ensures Row(cbIndex)[DATA..DATA + sz] == data[..sz]
      ensures forall j | 0 <= j < cells.Length0 && j != cbIndex :: Row(j) == old(Row(j))
    {
      cells[cbIndex, SIZE] := sz % 256;
      cells[cbIndex, SIZE + 1] := sz / 256;
      forall k | 0 <= k < sz {
        cells[cbIndex, DATA + k] := data[k];
      }
      cells[cbIndex, STATUS] := READY;
    }

    method UpdateCallback(cbIndex: nat, data: array<Byte>, sz: UInt16)
      requires Valid() && sz <= data.Length
      modifies cells
      ensures Valid() && Slots() == UpdateSlot(old(Slots()), cbIndex, data[..sz], maxData)
    {
      if cbIndex >= maxQueue || sz > maxData {
        return;
      }
      assert RowOk(Row(cbIndex), maxData) && Slots()[cbIndex] == SlotOf(Row(cbIndex), maxData);
      if cells[cbIndex, STATUS] != PENDING {
        return;
      }
      WriteReply(cbIndex, data, sz);
    }

    /** The reply stays readable through the view until the row is written again. */
    method PopCallback(cbIndex: nat) returns (view: Option<CallbackView>)
      requires Valid()
      modifies cells
      ensures Valid() && Slots() == PopSlot(old(Slots()), cbIndex).1
      ensures view.None? <==> PopSlot(old(Slots()), cbIndex).0.None?
      ensures view.Some? ==>
        && view.value.cbIndex == cbIndex < maxQueue && view.value.sz <= maxData
        && Some(ViewData(view.value)) == PopSlot(old(Slots()), cbIndex).0
    {
      if cbIndex >= maxQueue {
        return None;
      }
      assert RowOk(Row(cbIndex), maxData) && Slots()[cbIndex] == SlotOf(Row(cbIndex), maxData);
      if cells[cbIndex, STATUS] != READY {
        return None;
      }
      cells[cbIndex, STATUS] := NO_DATA;
      assert forall j | 0 <= j < maxQueue && j != cbIndex :: Row(j) == old(Row(j));
      var sz := RowSize(Row(cbIndex));
      assert sz == old(RowSize(Row(cbIndex)));
      assert Row(cbIndex)[DATA..DATA + sz] == old(Row(cbIndex))[DATA..DATA + sz];
      return Some(CallbackView(cbIndex, sz));
    }

    method ClearCallback(cbIndex: nat)
      requires Valid()
      modifies cells
      ensures Valid() && Slots() == ClearSlot(old(Slots()), cbIndex)
    {
      if cbIndex >= maxQueue {
        return;
      }
      forall k | 0 <= k < DATA + maxData {
        cells[cbIndex, k] := 0;
      }
      assert Row(cbIndex)[STATUS] == NO_DATA;
      assert forall j | 0 <= j < maxQueue && j != cbIndex :: Row(j) == old(Row(j));
    }
  }
}
