/** Slot ownership: in every reachable state each slot in use has exactly one owner, a call that
    holds it, lists it, or has expired without having run its closure. */
module Ownership {
  import opened Bytes
  import opened CallbackSpaceModel
  import opened Protocol
  import opened Counting

  ghost predicate SlotInv(s: State, i: nat)
    requires i < |s.slots| == |s.owner|
  {
    && (s.slots[i] == NoData <==> s.owner[i].None?)
    && (s.owner[i].Some? ==>
          var k := s.owner[i].value;
          k < |s.calls| && Owns(s.calls[k]) && s.calls[k].phase.slot == i)
  }

  ghost predicate CallInv(s: State, k: nat)
    requires k < |s.calls| && |s.owner| == |s.slots|
  {
    var cs := s.calls[k];
    && (Owns(cs) ==> cs.phase.slot < |s.slots| && s.owner[cs.phase.slot] == Some(k) && cs.index == Some(cs.phase.slot))
    && (cs.phase.NoCallback? <==> !cs.job.hasCb)
    && (cs.phase.Issued? || cs.phase.NoCallback? ==> cs.index.None?)
  }

  ghost predicate OwnershipInv(c: Config, s: State) {
    && |s.slots| == |s.owner| == c.queueSize
    && (forall i | 0 <= i < |s.slots| :: SlotInv(s, i))
    && (forall k | 0 <= k < |s.calls| :: CallInv(s, k))
  }

  lemma {:induction false} OwnershipInit(c: Config)
    ensures OwnershipInv(c, Init(c))
  {
  }

  lemma {:induction false} SlotStep(c: Config, s: State, a: Action, i: nat)
    requires OwnershipInv(c, s) && Enabled(c, s, a) && !Quiet(a) && i < |s.slots|
    ensures var s' := Do(c, s, a);
      |s'.slots| == |s'.owner| == |s.slots| && SlotInv(s', i)
  {
    assert SlotInv(s, i);
    match a
    case Acquire(j) => FirstFreeIsFree(s.slots, 0); assert CallInv(s, j);
    case Answer(j, _) => assert CallInv(s, j);
    case Collect(j, _) => assert CallInv(s, j);
    case RunExpired(j) => assert CallInv(s, j);
    case _ =>
  }

  lemma {:induction false} CallStep(c: Config, s: State, a: Action, k: nat)
    requires OwnershipInv(c, s) && Enabled(c, s, a) && !Quiet(a) && k < |Do(c, s, a).calls|
    ensures var s' := Do(c, s, a);
      |s'.slots| == |s'.owner| && CallInv(s', k)
  {
    if k < |s.calls| {
      assert CallInv(s, k);
      match a
      case Acquire(j) => AcquireCallStep(c, s, j, k);
      case Collect(j, _) => assert CallInv(s, j);
      case RunExpired(j) => assert CallInv(s, j);
      case _ =>
    }
  }

  lemma {:induction false} AcquireCallStep(c: Config, s: State, j: nat, k: nat)
    requires OwnershipInv(c, s) && Enabled(c, s, Acquire(j)) && k < |s.calls|
    ensures var s' := DoAcquire(c, s, j);
      |s'.slots| == |s'.owner| && |s'.calls| == |s.calls| && CallInv(s', k)
  {
    FirstFreeIsFree(s.slots, 0);
    assert CallInv(s, j) && CallInv(s, k);
    assert FirstFree(s.slots, 0).Some? ==> SlotInv(s, FirstFree(s.slots, 0).value);
  }

  lemma {:induction false} KeptStep(c: Config, s: State, s': State)
    requires OwnershipInv(c, s) && SlotsKept(s, s')
    ensures OwnershipInv(c, s')
  {
    forall i | 0 <= i < |s.slots| ensures SlotInv(s', i) {
      assert SlotInv(s, i);
    }
    forall k | 0 <= k < |s.calls| ensures CallInv(s', k) {
      assert CallInv(s, k);
    }
  }

  lemma {:induction false} OwnershipStep(c: Config, s: State, a: Action)
    requires OwnershipInv(c, s) && Enabled(c, s, a)
    ensures OwnershipInv(c, Do(c, s, a))
  {
    var s' := Do(c, s, a);
    if Quiet(a) {
      QuietKeepsSlots(c, s, a);
      KeptStep(c, s, s');
    } else {
      LengthStep(c, s, a);
      forall i | 0 <= i < |s.slots| ensures SlotInv(s', i) {
        SlotStep(c, s, a, i);
      }
      forall k | 0 <= k < |s'.calls| ensures CallInv(s', k) {
        CallStep(c, s, a, k);
      }
    }
  }

  lemma {:induction false} LengthStep(c: Config, s: State, a: Action)
    requires OwnershipInv(c, s) && Enabled(c, s, a)
    ensures |Do(c, s, a).slots| == |Do(c, s, a).owner| == |s.slots|
  {
    FirstFreeIsFree(s.slots, 0);
  }

  lemma {:induction false} OwnershipAlways(c: Config, run: seq<Action>)
    requires Exec(c, run).Some?
    ensures OwnershipInv(c, Exec(c, run).value)
    decreases |run|
  {
    if run == [] {
      OwnershipInit(c);
    } else {
      var before, s, a := LastAction(c, run);
      OwnershipAlways(c, before);
      OwnershipStep(c, s, a);
    }
  }

  ghost function FreeSlots(s: State): set<nat> {
    set i | i in Upto(|s.slots|) && i < |s.slots| && s.slots[i] == NoData
  }

  ghost function UsedSlots(s: State): set<nat> {
    set i | i in Upto(|s.slots|) && i < |s.slots| && s.slots[i] != NoData
  }

  ghost function Owners(s: State): set<nat> {
    set k | k in Upto(|s.calls|) && k < |s.calls| && Owns(s.calls[k])
  }

  lemma {:induction false} CountOwners(c: Config, s: State)
    requires OwnershipInv(c, s)
    ensures |FreeSlots(s)| + |Owners(s)| == c.queueSize
  {
    UptoIs(|s.slots|);
    UptoIs(|s.calls|);
    assert Upto(|s.slots|) == FreeSlots(s) + UsedSlots(s);
    var slotOf := map k | k in Owners(s) :: s.calls[k].phase.slot;
    forall k | k in Owners(s)
      ensures slotOf[k] in UsedSlots(s) && s.owner[slotOf[k]] == Some(k)
    {
      assert CallInv(s, k) && SlotInv(s, slotOf[k]);
    }
    forall i | i in UsedSlots(s) ensures exists k :: k in Owners(s) && slotOf[k] == i {
      assert SlotInv(s, i);
      assert s.owner[i].value in Owners(s);
    }
    SameSize(Owners(s), UsedSlots(s), slotOf);
  }

  /** Slot ownership and no leak, after every run, with timeouts and late replies included: an
      owner's slot is in use, owners hold distinct slots, every slot in use has an owner, and
      free slots and owners add up to the queue size. */
  lemma {:induction false} SlotOwnership(c: Config, run: seq<Action>)
    requires Exec(c, run).Some?
    ensures var s := Exec(c, run).value;
      && (forall k | 0 <= k < |s.calls| && Owns(s.calls[k]) ::
            s.calls[k].phase.slot < |s.slots| && s.slots[s.calls[k].phase.slot] != NoData)
      && (forall j, k | 0 <= j < k < |s.calls| && Owns(s.calls[j]) && Owns(s.calls[k]) ::
            s.calls[j].phase.slot != s.calls[k].phase.slot)
      && (forall i | 0 <= i < |s.slots| && s.slots[i] != NoData ::
            exists k :: 0 <= k < |s.calls| && Owns(s.calls[k]) && s.calls[k].phase.slot == i)
      && |FreeSlots(s)| + |Owners(s)| == c.queueSize
  {
    OwnershipAlways(c, run);
    OneOwnerPerSlot(c, Exec(c, run).value);
    CountOwners(c, Exec(c, run).value);
  }

  lemma {:induction false} OneOwnerPerSlot(c: Config, s: State)
    requires OwnershipInv(c, s)
    ensures forall k | 0 <= k < |s.calls| && Owns(s.calls[k]) ::
      s.calls[k].phase.slot < |s.slots| && s.slots[s.calls[k].phase.slot] != NoData
    ensures forall j, k | 0 <= j < k < |s.calls| && Owns(s.calls[j]) && Owns(s.calls[k]) ::
      s.calls[j].phase.slot != s.calls[k].phase.slot
    ensures forall i | 0 <= i < |s.slots| && s.slots[i] != NoData ::
      exists k :: 0 <= k < |s.calls| && Owns(s.calls[k]) && s.calls[k].phase.slot == i
  {
    forall k | 0 <= k < |s.calls| && Owns(s.calls[k])
      ensures s.calls[k].phase.slot < |s.slots| && s.slots[s.calls[k].phase.slot] != NoData
      ensures s.owner[s.calls[k].phase.slot] == Some(k)
    {
      assert CallInv(s, k) && SlotInv(s, s.calls[k].phase.slot);
    }
    forall i | 0 <= i < |s.slots| && s.slots[i] != NoData
      ensures exists k :: 0 <= k < |s.calls| && Owns(s.calls[k]) && s.calls[k].phase.slot == i
    {
      assert SlotInv(s, i);
    }
  }
}
