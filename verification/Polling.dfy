/** The client's polling pass over its pending list (ClientIPC.cpp, readCbData): an in-place
    erase loop that expires, delivers or keeps each entry. */
module Polling {
  import opened Bytes
  import opened CallbackSpaceModel

  /** An entry of the pending list; `id` stands for its closure. */
  datatype CallbackInfo = CallbackInfo(cbIndex: UInt16, timeout: int, id: nat)

  /** What the loop reads when it reaches an entry: the clock and m_isActive. */
  datatype Look = Look(now: int, active: bool)

  /** A closure to run after the pass: with no reply, or with a copy of the reply. */
  datatype Task = TimedOut(sub: CallbackInfo) | GotReply(sub: CallbackInfo, data: seq<Byte>)

  // ----- the loop as a function -----

  /** One iteration: the closure to run if the entry is to be erased, and the slots. */
  function Visit(sub: CallbackInfo, look: Look, slots: seq<Slot>): (Option<Task>, seq<Slot>) {
    if IsExpired(sub.timeout, look.now, look.active) then (Some(TimedOut(sub)), slots)
    else
      match PopSlot(slots, sub.cbIndex)
      case (None, _) => (None, slots)
      case (Some(data), slots') => (Some(GotReply(sub, data)), slots')
  }

  datatype Pass = Pass(kept: seq<CallbackInfo>, tasks: seq<Task>, slots: seq<Slot>)

  /** One more iteration. */
  function VisitNext(p: Pass, sub: CallbackInfo, look: Look): (q: Pass)
    ensures |q.kept| + |q.tasks| == |p.kept| + |p.tasks| + 1
  {
    match Visit(sub, look, p.slots)
    case (None, _) => p.(kept := p.kept + [sub])
    case (Some(task), slots) => Pass(p.kept, p.tasks + [task], slots)
  }

  /** The first n iterations. */
  function PassOver(subs: seq<CallbackInfo>, looks: seq<Look>, slots: seq<Slot>, n: nat): (p: Pass)
    requires n <= |subs| <= |looks|
    ensures |p.kept| + |p.tasks| == n
  {
    if n == 0 then Pass([], [], slots)
    else VisitNext(PassOver(subs, looks, slots, n - 1), subs[n - 1], looks[n - 1])
  }

  // ----- the partition it computes -----

  /** What becomes of entry k, judged by the slots before the pass: expiry first, then a ready
      reply, otherwise nothing. */
  function Fate(subs: seq<CallbackInfo>, looks: seq<Look>, slots: seq<Slot>, k: nat): Option<Task>
    requires k < |subs| <= |looks|
  {
    if subs[k].timeout < looks[k].now || !looks[k].active then Some(TimedOut(subs[k]))
    else if subs[k].cbIndex < |slots| && slots[subs[k].cbIndex].Ready? then
      Some(GotReply(subs[k], slots[subs[k].cbIndex].data))
    else None
  }

  /** Among the first n entries, those without a fate, in order. */
  function Kept(subs: seq<CallbackInfo>, looks: seq<Look>, slots: seq<Slot>, n: nat): seq<CallbackInfo>
    requires n <= |subs| <= |looks|
  {
    if n == 0 then []
    else Kept(subs, looks, slots, n - 1) + (if Fate(subs, looks, slots, n - 1).None? then [subs[n - 1]] else [])
  }

  /** The fates of the first n entries, in order. */
  function Tasks(subs: seq<CallbackInfo>, looks: seq<Look>, slots: seq<Slot>, n: nat): seq<Task>
    requires n <= |subs| <= |looks|
  {
    if n == 0 then []
    else
      Tasks(subs, looks, slots, n - 1) +
      (match Fate(subs, looks, slots, n - 1) case None => [] case Some(task) => [task])
  }

  /** Entry k takes the reply in slot i. */
  predicate Delivers(subs: seq<CallbackInfo>, looks: seq<Look>, slots: seq<Slot>, k: nat, i: nat)
    requires k < |subs| <= |looks|
  {
    subs[k].cbIndex == i &&
    var o := Fate(subs, looks, slots, k);
    o.Some? && o.value.GotReply?
  }

  /** Slot i is delivered to one of the first n entries. */
  ghost predicate Delivered(subs: seq<CallbackInfo>, looks: seq<Look>, slots: seq<Slot>, n: nat, i: nat)
    requires n <= |subs| <= |looks|
  {
    exists k :: 0 <= k < n && Delivers(subs, looks, slots, k, i)
  }

  predicate DistinctSlots(subs: seq<CallbackInfo>) {
    forall j, k | 0 <= j < k < |subs| :: subs[j].cbIndex != subs[k].cbIndex
  }

  /** The pass so far is the partition of the first n entries, and exactly the delivered slots
      became free. */
  ghost predicate Partitioned(p: Pass, subs: seq<CallbackInfo>, looks: seq<Look>, slots: seq<Slot>, n: nat)
    requires n <= |subs| <= |looks|
  {
    && p.kept == Kept(subs, looks, slots, n) && p.tasks == Tasks(subs, looks, slots, n)
    && |p.slots| == |slots|
    && forall i | 0 <= i < |slots| ::
         p.slots[i] == if Delivered(subs, looks, slots, n, i) then NoData else slots[i]
  }

  /** The pass refines the partition: with distinct slots, every entry meets the fate that the clock
      and the slots before the pass decide, and exactly the delivered slots become free. */
  lemma {:induction false} PassIsPartition(subs: seq<CallbackInfo>, looks: seq<Look>, slots: seq<Slot>, n: nat)
    requires n <= |subs| <= |looks| && DistinctSlots(subs)
    ensures Partitioned(PassOver(subs, looks, slots, n), subs, looks, slots, n)
  {
    if n > 0 {
      PassIsPartition(subs, looks, slots, n - 1);
      PartitionOneMore(PassOver(subs, looks, slots, n - 1), subs, looks, slots, n);
    }
  }

  lemma {:induction false} PartitionOneMore(p: Pass, subs: seq<CallbackInfo>, looks: seq<Look>,
      slots: seq<Slot>, n: nat)
    requires 0 < n <= |subs| <= |looks| && DistinctSlots(subs) && Partitioned(p, subs, looks, slots, n - 1)
    ensures Partitioned(VisitNext(p, subs[n - 1], looks[n - 1]), subs, looks, slots, n)
  {
    assert !Delivered(subs, looks, slots, n - 1, subs[n - 1].cbIndex);
    VisitIsFate(subs, looks, slots, n - 1, p.slots);
    forall i: nat | i < |slots|
      ensures Delivered(subs, looks, slots, n, i) <==>
        Delivered(subs, looks, slots, n - 1, i) || Delivers(subs, looks, slots, n - 1, i)
    {
      DeliveredToLast(subs, looks, slots, n, i);
    }
  }

  lemma {:induction false} DeliveredToLast(subs: seq<CallbackInfo>, looks: seq<Look>, slots: seq<Slot>, n: nat, i: nat)
    requires 0 < n <= |subs| <= |looks|
    ensures Delivered(subs, looks, slots, n, i) <==>
      Delivered(subs, looks, slots, n - 1, i) || Delivers(subs, looks, slots, n - 1, i)
  {
  }

  /** What the loop does with entry k, if its slot has not changed since the pass began. */
  lemma {:induction false} VisitIsFate(subs: seq<CallbackInfo>, looks: seq<Look>, slots: seq<Slot>, k: nat,
      now: seq<Slot>)
    requires k < |subs| <= |looks| && |now| == |slots|
    requires subs[k].cbIndex < |slots| ==> now[subs[k].cbIndex] == slots[subs[k].cbIndex]
    ensures var (o, after) := Visit(subs[k], looks[k], now);
      && o == Fate(subs, looks, slots, k) && |after| == |slots|
      && forall i: nat | i < |slots| :: after[i] == if Delivers(subs, looks, slots, k, i) then NoData else now[i]
  {
  }

  /** Read entry by entry: a pass schedules an entry as timed out if and only if the clock is past
      its deadline, or the client is shutting down, when the pass reaches it; otherwise the entry
      is handed its reply if its slot is ready, and stays if not. */
  lemma {:induction false} EveryEntryMeetsItsFate(subs: seq<CallbackInfo>, looks: seq<Look>, slots: seq<Slot>, k: nat)
    requires k < |subs| <= |looks| && DistinctSlots(subs)
    ensures var p, sub := PassOver(subs, looks, slots, |subs|), subs[k];
      var late := sub.timeout < looks[k].now || !looks[k].active;
      var ready := sub.cbIndex < |slots| && slots[sub.cbIndex].Ready?;
      && (TimedOut(sub) in p.tasks <==> late)
      && (forall data :: GotReply(sub, data) in p.tasks <==> !late && ready && data == slots[sub.cbIndex].data)
      && (sub in p.kept <==> !late && !ready)
  {
    PassIsPartition(subs, looks, slots, |subs|);
    KeptAre(subs, looks, slots, |subs|, k);
    TasksAre(subs, looks, slots, |subs|, k);
  }

  lemma {:induction false} KeptAre(subs: seq<CallbackInfo>, looks: seq<Look>, slots: seq<Slot>, n: nat, k: nat)
    requires n <= |subs| <= |looks| && k < |subs| && DistinctSlots(subs)
    ensures subs[k] in Kept(subs, looks, slots, n) <==> k < n && Fate(subs, looks, slots, k).None?
  {
    if n > 0 {
      KeptAre(subs, looks, slots, n - 1, k);
    }
  }

  lemma {:induction false} TasksAre(subs: seq<CallbackInfo>, looks: seq<Look>, slots: seq<Slot>, n: nat, k: nat)
    requires n <= |subs| <= |looks| && k < |subs| && DistinctSlots(subs)
    ensures forall task :: task in Tasks(subs, looks, slots, n) && task.sub == subs[k] <==>
      k < n && Fate(subs, looks, slots, k) == Some(task)
  {
    if n > 0 {
      TasksAre(subs, looks, slots, n - 1, k);
    }
  }

  /** The entries xs come from the list, in the order of the list. */
  predicate InOrder(subs: seq<CallbackInfo>, xs: seq<CallbackInfo>) {
    && (forall x | x in xs :: x in subs)
    && forall a, b, j, k | 0 <= a < b < |xs| && 0 <= j < |subs| && 0 <= k < |subs| &&
         xs[a] == subs[j] && xs[b] == subs[k] :: j < k
  }

  /** The entries to which closures belong. */
  function EntriesOf(tasks: seq<Task>): seq<CallbackInfo> {
    seq(|tasks|, a requires 0 <= a < |tasks| => tasks[a].sub)
  }

  /** Closures are scheduled in the order in which their entries stand in the list, and the entries
      that stay keep their order; there are no others. */
  lemma {:induction false} PassKeepsOrder(subs: seq<CallbackInfo>, looks: seq<Look>, slots: seq<Slot>)
    requires |subs| <= |looks| && DistinctSlots(subs)
    ensures var p := PassOver(subs, looks, slots, |subs|);
      InOrder(subs, EntriesOf(p.tasks)) && InOrder(subs, p.kept)
  {
    PassIsPartition(subs, looks, slots, |subs|);
    TasksFollow(subs, looks, slots, |subs|);
    KeptFollow(subs, looks, slots, |subs|);
  }

  predicate AmongFirst(subs: seq<CallbackInfo>, xs: seq<CallbackInfo>, n: nat)
    requires n <= |subs|
  {
    InOrder(subs, xs) && forall x | x in xs :: x in subs[..n]
  }

  lemma {:induction false} OneMoreInOrder(subs: seq<CallbackInfo>, xs: seq<CallbackInfo>, n: nat)
    requires n < |subs| && DistinctSlots(subs) && AmongFirst(subs, xs, n)
    ensures AmongFirst(subs, xs + [], n + 1) && AmongFirst(subs, xs + [subs[n]], n + 1)
  {
    assert subs[..n + 1] == subs[..n] + [subs[n]] && xs + [] == xs;
    forall a, j: nat | 0 <= a < |xs| && j < |subs| && xs[a] == subs[j] ensures j < n {
      assert xs[a] in subs[..n];
    }
  }

  lemma {:induction false} EntriesConcat(tasks: seq<Task>, more: seq<Task>)
    ensures EntriesOf(tasks + more) == EntriesOf(tasks) + EntriesOf(more)
    ensures EntriesOf([]) == [] && (|more| == 1 ==> EntriesOf(more) == [more[0].sub])
  {
  }

  lemma {:induction false} TasksFollow(subs: seq<CallbackInfo>, looks: seq<Look>, slots: seq<Slot>, n: nat)
    requires n <= |subs| <= |looks| && DistinctSlots(subs)
    ensures AmongFirst(subs, EntriesOf(Tasks(subs, looks, slots, n)), n)
  {
    if n > 0 {
      TasksFollow(subs, looks, slots, n - 1);
      var tasks := Tasks(subs, looks, slots, n - 1);
      OneMoreInOrder(subs, EntriesOf(tasks), n - 1);
      match Fate(subs, looks, slots, n - 1) {
        case None => EntriesConcat(tasks, []);
        case Some(task) => EntriesConcat(tasks, [task]);
      }
    }
  }

  lemma {:induction false} KeptFollow(subs: seq<CallbackInfo>, looks: seq<Look>, slots: seq<Slot>, n: nat)
    requires n <= |subs| <= |looks| && DistinctSlots(subs)
    ensures AmongFirst(subs, Kept(subs, looks, slots, n), n)
  {
    if n > 0 {
      KeptFollow(subs, looks, slots, n - 1);
      var kept := Kept(subs, looks, slots, n - 1);
      OneMoreInOrder(subs, kept, n - 1);
      if Fate(subs, looks, slots, n - 1).None? {
        assert Kept(subs, looks, slots, n) == kept + [subs[n - 1]];
      } else {
        assert Kept(subs, looks, slots, n) == kept + [];
      }
    }
  }

  // ----- running the closures -----

  /** The invocation a closure makes: with nothing, or with the reply. */
  function InvocationOf(task: Task): (nat, Option<seq<Byte>>) {
    match task
    case TimedOut(sub) => (sub.id, None)
    case GotReply(sub, data) => (sub.id, Some(data))
  }

  /** The slots after the first n closures: an expired one clears its slot. */
  function RunAll(tasks: seq<Task>, slots: seq<Slot>, n: nat): (r: seq<Slot>)
    requires n <= |tasks|
    ensures |r| == |slots|
  {
    if n == 0 then slots
    else
      var before := RunAll(tasks, slots, n - 1);
      if tasks[n - 1].TimedOut? then ClearSlot(before, tasks[n - 1].sub.cbIndex) else before
  }

  lemma {:induction false} RunAllClears(tasks: seq<Task>, slots: seq<Slot>, n: nat, i: nat)
    requires n <= |tasks| && i < |slots|
    ensures RunAll(tasks, slots, n)[i] ==
      if exists k :: 0 <= k < n && tasks[k].TimedOut? && tasks[k].sub.cbIndex == i then NoData else slots[i]
  {
    if n > 0 {
      RunAllClears(tasks, slots, n - 1, i);
    }
  }

  /** A pass and its closures, together: the slot of every entry that met a fate is free, every
      other slot is as it was. */
  lemma {:induction false} FatesFreeTheirSlots(subs: seq<CallbackInfo>, looks: seq<Look>, slots: seq<Slot>, i: nat)
    requires |subs| <= |looks| && DistinctSlots(subs) && i < |slots|
    ensures var p := PassOver(subs, looks, slots, |subs|);
      |p.slots| == |slots| &&
      RunAll(p.tasks, p.slots, |p.tasks|)[i] ==
        if exists k :: 0 <= k < |subs| && subs[k].cbIndex == i && Fate(subs, looks, slots, k).Some? then NoData
        else slots[i]
  {
    PassIsPartition(subs, looks, slots, |subs|);
    var p := PassOver(subs, looks, slots, |subs|);
    RunAllClears(p.tasks, p.slots, |p.tasks|, i);
    TasksOfEntries(subs, looks, slots, |subs|);
    if exists k :: 0 <= k < |subs| && subs[k].cbIndex == i && Fate(subs, looks, slots, k).Some? {
      var k :| 0 <= k < |subs| && subs[k].cbIndex == i && Fate(subs, looks, slots, k).Some?;
      var task := Fate(subs, looks, slots, k).value;
      TasksAre(subs, looks, slots, |subs|, k);
      assert task in p.tasks;
      assert task.GotReply? ==> Delivers(subs, looks, slots, k, i);
    }
  }

  /** Every scheduled closure belongs to an entry of the list. */
  lemma {:induction false} TasksOfEntries(subs: seq<CallbackInfo>, looks: seq<Look>, slots: seq<Slot>, n: nat)
    requires n <= |subs| <= |looks|
    ensures forall task | task in Tasks(subs, looks, slots, n) ::
      exists k :: 0 <= k < n && Fate(subs, looks, slots, k) == Some(task) && task.sub == subs[k]
  {
    if n > 0 {
      TasksOfEntries(subs, looks, slots, n - 1);
    }
  }

  /** The list while the pass is at entry n: erasing that entry, or stepping over it. */
  lemma {:induction false} AtIterator<T>(kept: seq<T>, all: seq<T>, n: nat)
    requires n < |all|
    ensures (kept + all[n..])[|kept|] == all[n]
    ensures (kept + all[n..])[..|kept|] + (kept + all[n..])[|kept| + 1..] == kept + all[n + 1..]
    ensures kept + [all[n]] + all[n + 1..] == kept + all[n..]
  {
  }
}
