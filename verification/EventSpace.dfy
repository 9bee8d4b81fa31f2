/** space/EventSpace.h: one ring per client, broadcast push, slots reused after unregistering. */
module EventSpaceModel {
  import opened Bytes
  import opened EventRingBufferModel

  // ----- the space as a value -----

  datatype Client = Client(registered: bool, ring: Ring)

  predicate ClientsOk(cs: seq<Client>) {
    forall i | 0 <= i < |cs| :: RingOk(cs[i].ring)
  }

  function FirstUnregistered(cs: seq<Client>, i: nat): Option<nat>
    requires i <= |cs|
    decreases |cs| - i
  {
    if i == |cs| then None
    else if !cs[i].registered then Some(i)
    else FirstUnregistered(cs, i + 1)
  }

  lemma {:induction false} FirstUnregisteredIs(cs: seq<Client>, i: nat)
    requires i <= |cs|
    ensures var r := FirstUnregistered(cs, i);
      && (r.Some? ==> i <= r.value < |cs| && !cs[r.value].registered)
      && forall j | i <= j < (if r.Some? then r.value else |cs|) :: cs[j].registered
    decreases |cs| - i
  {
    if i < |cs| && cs[i].registered {
      FirstUnregisteredIs(cs, i + 1);
    }
  }

  function Register(cs: seq<Client>): (Option<nat>, seq<Client>) {
    match FirstUnregistered(cs, 0)
    case None => (None, cs)
    case Some(c) => FirstUnregisteredIs(cs, 0); (Some(c), cs[c := Client(true, ResetRing(cs[c].ring))])
  }

  function Unregister(cs: seq<Client>, c: nat): seq<Client> {
    if c >= |cs| then cs else cs[c := Client(false, ResetRing(cs[c].ring))]
  }

  /** What a broadcast does to one client. */
  function Offer(c: Client, e: Event, maxData: nat): (bool, Client)
    requires RingOk(c.ring)
  {
    if !c.registered then (false, c)
    else var (ok, r) := PushRing(c.ring, e, maxData); (ok, Client(true, r))
  }

  /** push over the first n clients: whether any ring accepted, and the clients afterwards. */
  function OfferFirst(cs: seq<Client>, n: nat, e: Event, maxData: nat): (r: (bool, seq<Client>))
    requires ClientsOk(cs) && n <= |cs|
    ensures |r.1| == |cs|
  {
    if n == 0 then (false, cs)
    else
      var (any, cs') := OfferFirst(cs, n - 1, e, maxData);
      var (ok, c) := Offer(cs[n - 1], e, maxData);
      (any || ok, cs'[n - 1 := c])
  }

  function Broadcast(cs: seq<Client>, available: bool, e: Event, maxData: nat): (r: (bool, seq<Client>))
    requires ClientsOk(cs)
    ensures |r.1| == |cs|
  {
    if !available then (false, cs) else OfferFirst(cs, |cs|, e, maxData)
  }

  /** A broadcast offers the event to every client independently, and reports whether any
      registered client took it. */
  lemma {:induction false} OfferFirstIs(cs: seq<Client>, n: nat, e: Event, maxData: nat)
    requires ClientsOk(cs) && n <= |cs|
    ensures var (any, cs') := OfferFirst(cs, n, e, maxData);
      && (any <==> exists i :: 0 <= i < n && Offer(cs[i], e, maxData).0)
      && (forall i | 0 <= i < n :: cs'[i] == Offer(cs[i], e, maxData).1)
      && (forall i | n <= i < |cs| :: cs'[i] == cs[i])
    decreases n
  {
    if n > 0 {
      OfferFirstIs(cs, n - 1, e, maxData);
    }
  }

  function PopFor(cs: seq<Client>, c: nat): (Option<Event>, seq<Client>)
    requires ClientsOk(cs)
  {
    if c >= |cs| || !cs[c].registered then (None, cs)
    else var (o, r) := PopRing(cs[c].ring); (o, cs[c := Client(true, r)])
  }

  // ----- what the operations mean -----

  /** A client with an empty ring of the given size. */
  predicate Emptied(c: Client, size: nat) {
    RingOk(c.ring) && Queue(c.ring) == [] && |c.ring.cells| == size
  }

  /** No client but c has changed. */
  predicate OnlyOne(before: seq<Client>, after: seq<Client>, c: nat) {
    |after| == |before| && forall d | 0 <= d < |before| && d != c :: after[d] == before[d]
  }

  /** registerClient fails if and only if every client is registered. Otherwise it gives the least
      unregistered id; that client is registered with an empty ring, and no other client changes. */
  lemma {:induction false} RegisterIs(cs: seq<Client>)
    requires ClientsOk(cs)
    ensures var (r, cs') := Register(cs);
      && (r.None? <==> forall i | 0 <= i < |cs| :: cs[i].registered)
      && (r.None? ==> cs' == cs)
      && (r.Some? ==>
            && r.value < |cs| && !cs[r.value].registered && (forall j | 0 <= j < r.value :: cs[j].registered)
            && OnlyOne(cs, cs', r.value)
            && cs'[r.value].registered && Emptied(cs'[r.value], |cs[r.value].ring.cells|))
  {
    FirstUnregisteredIs(cs, 0);
  }

  /** unregisterClient: the client is not registered any more, its ring is empty, and no other
      client changes; an id outside the space changes nothing. The next registration succeeds, with
      an id of at most c, and with c if the clients before it are all registered. */
  lemma {:induction false} UnregisterIs(cs: seq<Client>, c: nat)
    requires ClientsOk(cs)
    ensures var cs' := Unregister(cs, c);
      && OnlyOne(cs, cs', c) && ClientsOk(cs')
      && (c < |cs| ==>
            && !cs'[c].registered && Emptied(cs'[c], |cs[c].ring.cells|)
            && var r := Register(cs').0;
               r.Some? && r.value <= c && ((forall j | 0 <= j < c :: cs[j].registered) ==> r.value == c))
  {
    if c < |cs| {
      RegisterIs(Unregister(cs, c));
    }
  }

  /** A ring accepts the event: its client is registered, the payload fits, and fewer than n - 1
      events wait in its n cells. */
  predicate Accepts(c: Client, e: Event, maxData: nat) {
    c.registered && RingOk(c.ring) && |e.data| <= maxData && |Queue(c.ring)| < |c.ring.cells| - 1
  }

  /** push: the result is true if and only if the space is available and some registered client's
      ring accepted the event. Each ring that accepts gets the event at the end of its queue, and
      no other client changes. */
  lemma {:induction false} BroadcastIs(cs: seq<Client>, available: bool, e: Event, maxData: nat)
    requires ClientsOk(cs)
    ensures var (any, cs') := Broadcast(cs, available, e, maxData);
      && |cs'| == |cs| && ClientsOk(cs')
      && (any <==> available && exists i :: 0 <= i < |cs| && Accepts(cs[i], e, maxData))
      && forall i | 0 <= i < |cs| ::
           if available && Accepts(cs[i], e, maxData) then
             && cs'[i].registered && Queue(cs'[i].ring) == Queue(cs[i].ring) + [e]
             && |cs'[i].ring.cells| == |cs[i].ring.cells|
           else cs'[i] == cs[i]
  {
    OfferFirstIs(cs, |cs|, e, maxData);
    forall i | 0 <= i < |cs| ensures OfferedTo(cs[i], e, maxData) {
      OfferIs(cs[i], e, maxData);
    }
    assert forall i | 0 <= i < |cs| :: Offer(cs[i], e, maxData).0 <==> Accepts(cs[i], e, maxData);
  }

  /** What a broadcast does to one client, read off its queue. */
  predicate OfferedTo(c: Client, e: Event, maxData: nat)
    requires RingOk(c.ring)
  {
    var (ok, c') := Offer(c, e, maxData);
    && (ok <==> Accepts(c, e, maxData)) && RingOk(c'.ring)
    && if ok then
         c'.registered && Queue(c'.ring) == Queue(c.ring) + [e] && |c'.ring.cells| == |c.ring.cells|
       else c' == c
  }

  lemma {:induction false} OfferIs(c: Client, e: Event, maxData: nat)
    requires RingOk(c.ring)
    ensures OfferedTo(c, e, maxData)
  {
    PushRefines(c.ring, e, maxData);
  }

  /** pop: a registered client's oldest event, and only its ring changes; nothing for an id that is
      not registered or outside the space. */
  lemma {:induction false} PopForIs(cs: seq<Client>, c: nat)
    requires ClientsOk(cs)
    ensures var (o, cs') := PopFor(cs, c);
      && |cs'| == |cs| && (o.None? ==> cs' == cs)
      && (forall i | 0 <= i < |cs| && i != c :: cs'[i] == cs[i])
      && (o.Some? <==> c < |cs| && cs[c].registered && Queue(cs[c].ring) != [])
      && (o.Some? ==>
            && cs'[c].registered && RingOk(cs'[c].ring)
            && o.value == Queue(cs[c].ring)[0] && Queue(cs'[c].ring) == Queue(cs[c].ring)[1..])
  {
    if c < |cs| {
      PopRefines(cs[c].ring);
      assert cs[c := cs[c]] == cs;
    }
  }

  // ----- histories -----

  datatype SpaceOp =
    | RegisterOp | UnregisterOp(c: nat) | BroadcastOp(e: Event) | PopOp(c: nat) | SetAvailableOp(value: bool)

  /** The space with, per client, the events its ring accepted and the events it popped since its
      current registration. */
  datatype Space = Space(clients: seq<Client>, available: bool, accepted: seq<seq<Event>>, popped: seq<seq<Event>>)

  ghost predicate SpaceOk(s: Space) {
    ClientsOk(s.clients) && |s.accepted| == |s.popped| == |s.clients|
  }

  ghost function SpaceStep(s: Space, op: SpaceOp, maxData: nat): Space
    requires SpaceOk(s)
  {
    match op
    case RegisterOp =>
      (match Register(s.clients)
       case (None, _) => s
       case (Some(c), cs) =>
         FirstUnregisteredIs(s.clients, 0);
         s.(clients := cs, accepted := s.accepted[c := []], popped := s.popped[c := []]))
    case UnregisterOp(c) =>
      if c >= |s.clients| then s
      else s.(clients := Unregister(s.clients, c), accepted := s.accepted[c := []], popped := s.popped[c := []])
    case BroadcastOp(e) =>
      s.(clients := Broadcast(s.clients, s.available, e, maxData).1,
         accepted := seq(|s.clients|, i requires 0 <= i < |s.clients| =>
           if s.available && Offer(s.clients[i], e, maxData).0 then s.accepted[i] + [e] else s.accepted[i]))
    case PopOp(c) =>
      var (o, cs) := PopFor(s.clients, c);
      s.(clients := cs, popped := if o.Some? then s.popped[c := s.popped[c] + [o.value]] else s.popped)
    case SetAvailableOp(value) => s.(available := value)
  }

  /** What client c popped, followed by what its ring holds, is what its ring accepted. */
  ghost predicate HistoryOk(s: Space, c: nat)
    requires SpaceOk(s) && c < |s.clients|
  {
    s.popped[c] + Queue(s.clients[c].ring) == s.accepted[c]
  }

  ghost predicate HistoriesOk(s: Space)
    requires SpaceOk(s)
  {
    forall c | 0 <= c < |s.clients| :: HistoryOk(s, c)
  }

  lemma {:induction false} OfferKeepsHistory(c: Client, e: Event, maxData: nat,
      popped: seq<Event>, accepted: seq<Event>)
    requires RingOk(c.ring) && popped + Queue(c.ring) == accepted
    ensures var (ok, c') := Offer(c, e, maxData);
      RingOk(c'.ring) && popped + Queue(c'.ring) == if ok then accepted + [e] else accepted
  {
    PushRefines(c.ring, e, maxData);
  }

  lemma {:induction false} PopKeepsHistory(r: Ring, popped: seq<Event>, accepted: seq<Event>)
    requires RingOk(r) && popped + Queue(r) == accepted
    ensures var (o, r') := PopRing(r);
      RingOk(r') && (if o.Some? then popped + [o.value] else popped) + Queue(r') == accepted
  {
    PopRefines(r);
    if PopRing(r).0.Some? {
      assert Queue(r) == [Queue(r)[0]] + Queue(r)[1..];
    }
  }

  lemma {:induction false} HistoryStep(s: Space, op: SpaceOp, maxData: nat)
    requires SpaceOk(s) && HistoriesOk(s)
    ensures SpaceOk(SpaceStep(s, op, maxData)) && HistoriesOk(SpaceStep(s, op, maxData))
    ensures |SpaceStep(s, op, maxData).clients| == |s.clients|
  {
    var s' := SpaceStep(s, op, maxData);
    FirstUnregisteredIs(s.clients, 0);
    forall c | 0 <= c < |s.clients|
      ensures RingOk(s'.clients[c].ring) && s'.popped[c] + Queue(s'.clients[c].ring) == s'.accepted[c]
    {
      assert HistoryOk(s, c);
      if op.BroadcastOp? {
        OfferFirstIs(s.clients, |s.clients|, op.e, maxData);
        OfferKeepsHistory(s.clients[c], op.e, maxData, s.popped[c], s.accepted[c]);
      } else if op == PopOp(c) {
        PopKeepsHistory(s.clients[c].ring, s.popped[c], s.accepted[c]);
      } else if s'.clients[c] != s.clients[c] {
        assert Queue(ResetRing(s.clients[c].ring)) == [];
      }
    }
  }

  /** Event history per client: from any space with correct histories, and so from an empty one,
      every run of register, unregister, broadcast, pop and availability changes keeps them. */
  ghost function SpaceRun(s: Space, ops: seq<SpaceOp>, maxData: nat): (s': Space)
    requires SpaceOk(s) && HistoriesOk(s)
    ensures SpaceOk(s') && HistoriesOk(s') && |s'.clients| == |s.clients|
    decreases |ops|
  {
    if ops == [] then s
    else
      HistoryStep(s, ops[0], maxData);
      SpaceRun(SpaceStep(s, ops[0], maxData), ops[1..], maxData)
  }

  lemma {:induction false} StepKeepsSpace(s: Space, op: SpaceOp, maxData: nat)
    requires SpaceOk(s)
    ensures SpaceOk(SpaceStep(s, op, maxData))
  {
    var s' := SpaceStep(s, op, maxData);
    FirstUnregisteredIs(s.clients, 0);
    if op.BroadcastOp? {
      OfferFirstIs(s.clients, |s.clients|, op.e, maxData);
      forall i | 0 <= i < |s.clients| ensures RingOk(Offer(s.clients[i], op.e, maxData).1.ring) {
        PushRefines(s.clients[i].ring, op.e, maxData);
      }
    } else if op.PopOp? && op.c < |s.clients| {
      PopRefines(s.clients[op.c].ring);
    }
  }

  /** Client c is not registered, and nothing waits for it or was accepted for it. */
  ghost predicate Silent(s: Space, c: nat)
    requires SpaceOk(s)
  {
    && c < |s.clients| && !s.clients[c].registered && Queue(s.clients[c].ring) == []
    && s.accepted[c] == [] == s.popped[c]
  }

  lemma {:induction false} SilentStep(s: Space, op: SpaceOp, maxData: nat, c: nat)
    requires SpaceOk(s) && Silent(s, c) && (op.RegisterOp? ==> Register(s.clients).0 != Some(c))
    ensures SpaceOk(SpaceStep(s, op, maxData)) && Silent(SpaceStep(s, op, maxData), c)
  {
    StepKeepsSpace(s, op, maxData);
    match op
    case RegisterOp => RegisterIs(s.clients);
    case UnregisterOp(d) => UnregisterIs(s.clients, d);
    case BroadcastOp(e) =>
      BroadcastIs(s.clients, s.available, e, maxData);
      OfferFirstIs(s.clients, |s.clients|, e, maxData);
    case PopOp(d) => PopForIs(s.clients, d);
    case _ =>
  }

  /** No registration of the run gives the id c. */
  ghost predicate NeverRegistered(s: Space, ops: seq<SpaceOp>, maxData: nat, c: nat)
    requires SpaceOk(s) && HistoriesOk(s)
    decreases |ops|
  {
    ops == [] ||
    (&& (ops[0].RegisterOp? ==> Register(s.clients).0 != Some(c))
     && (HistoryStep(s, ops[0], maxData); NeverRegistered(SpaceStep(s, ops[0], maxData), ops[1..], maxData, c)))
  }

  lemma {:induction false} SilentRun(s: Space, ops: seq<SpaceOp>, maxData: nat, c: nat)
    requires SpaceOk(s) && HistoriesOk(s) && Silent(s, c) && NeverRegistered(s, ops, maxData, c)
    ensures Silent(SpaceRun(s, ops, maxData), c)
    decreases |ops|
  {
    if ops != [] {
      HistoryStep(s, ops[0], maxData);
      SilentStep(s, ops[0], maxData, c);
      SilentRun(SpaceStep(s, ops[0], maxData), ops[1..], maxData, c);
    }
  }

  /** After a client is unregistered, nothing is accepted for its ring whatever is broadcast, and
      its id pops nothing, over every run in which no registration gives the id out again. */
  lemma {:induction false} SilentUntilRegistered(s: Space, ops: seq<SpaceOp>, maxData: nat, c: nat)
    requires SpaceOk(s) && HistoriesOk(s) && c < |s.clients|
    requires NeverRegistered(SpaceRun(s, [UnregisterOp(c)], maxData), ops, maxData, c)
    ensures var t := SpaceRun(SpaceRun(s, [UnregisterOp(c)], maxData), ops, maxData);
      Silent(t, c) && PopFor(t.clients, c).0 == None
  {
    RunCons(s, UnregisterOp(c), [], maxData);
    assert [UnregisterOp(c)] + [] == [UnregisterOp(c)];
    UnregisterIs(s.clients, c);
    SilentRun(SpaceRun(s, [UnregisterOp(c)], maxData), ops, maxData, c);
    PopForIs(SpaceRun(SpaceRun(s, [UnregisterOp(c)], maxData), ops, maxData).clients, c);
  }

  /** unsubscribeFromEventUpdates leaves the client's own id in place, so its drain loop goes on
      popping with it. Once the id is registered by another client, it takes that client's event:
      after it has popped, the new holder finds nothing. */
  lemma {:induction false} OldHolderTakesEvents(cs: seq<Client>, c: nat, e: Event, maxData: nat)
    requires ClientsOk(cs) && c < |cs| && forall j | 0 <= j < c :: cs[j].registered
    requires |e.data| <= maxData && |cs[c].ring.cells| >= 2
    ensures var (r, taken) := Register(Unregister(cs, c));
      && r == Some(c) && ClientsOk(taken)
      && var sent := Broadcast(taken, true, e, maxData).1;
         && ClientsOk(sent)
         && var (popped, left) := PopFor(sent, c);
            popped == Some(e) && ClientsOk(left) && PopFor(left, c).0 == None
  {
    UnregisterIs(cs, c);
    RegisterIs(Unregister(cs, c));
    var taken := Register(Unregister(cs, c)).1;
    BroadcastIs(taken, true, e, maxData);
    PopForIs(Broadcast(taken, true, e, maxData).1, c);
    PopForIs(PopFor(Broadcast(taken, true, e, maxData).1, c).1, c);
  }

  /** The last value the run sets availability to. */
  function LastSet(before: bool, ops: seq<SpaceOp>): bool
    decreases |ops|
  {
    if ops == [] then before
    else LastSet(if ops[0].SetAvailableOp? then ops[0].value else before, ops[1..])
  }

  /** No other operation makes the space available or unavailable. */
  lemma {:induction false} AvailabilityIs(s: Space, ops: seq<SpaceOp>, maxData: nat)
    requires SpaceOk(s) && HistoriesOk(s)
    ensures SpaceRun(s, ops, maxData).available == LastSet(s.available, ops)
    decreases |ops|
  {
    if ops != [] {
      HistoryStep(s, ops[0], maxData);
      AvailabilityIs(SpaceStep(s, ops[0], maxData), ops[1..], maxData);
    }
  }

  /** A registration fails if and only if every client is registered; otherwise it gives the least
      unregistered id, which starts with an empty ring and an empty history, whatever its previous
      holder left behind. */
  lemma {:induction false} ReusedIdStartsEmpty(s: Space, maxData: nat)
    requires SpaceOk(s)
    ensures var r, s' := Register(s.clients).0, SpaceStep(s, RegisterOp, maxData);
      && (r.None? <==> forall i | 0 <= i < |s.clients| :: s.clients[i].registered)
      && (r.None? ==> s' == s)
      && (r.Some? ==>
            && r.value < |s.clients| && !s.clients[r.value].registered
            && (forall j | 0 <= j < r.value :: s.clients[j].registered)
            && s'.clients[r.value].registered && Emptied(s'.clients[r.value], |s.clients[r.value].ring.cells|)
            && s'.accepted[r.value] == [] == s'.popped[r.value]
            && OnlyOne(s.clients, s'.clients, r.value))
  {
    RegisterIs(s.clients);
  }

  /** The operations that client c cannot tell apart: broadcasts, availability and its own pops. */
  predicate Concerns(op: SpaceOp, c: nat) {
    op.BroadcastOp? || op.SetAvailableOp? || op == PopOp(c) || op == UnregisterOp(c)
  }

  // One client's backlog never affects another's history: two spaces that agree on client c still
  // agree on it after the same operations, whatever the other clients hold (ClientsAreIsolated),
  // and after other clients popped or unregistered in one of them (OthersDoNotMatter).
  ghost predicate AgreeOn(s: Space, t: Space, c: nat)
    requires SpaceOk(s) && SpaceOk(t)
  {
    && c < |s.clients| && c < |t.clients| && s.available == t.available
    && s.clients[c] == t.clients[c] && s.accepted[c] == t.accepted[c] && s.popped[c] == t.popped[c]
  }

  lemma {:induction false} ClientsAreIsolated(s: Space, t: Space, c: nat, op: SpaceOp, maxData: nat)
    requires SpaceOk(s) && SpaceOk(t) && AgreeOn(s, t, c) && Concerns(op, c)
    ensures var s', t' := SpaceStep(s, op, maxData), SpaceStep(t, op, maxData);
      SpaceOk(s') && SpaceOk(t') && AgreeOn(s', t', c)
  {
    StepKeepsSpace(s, op, maxData);
    StepKeepsSpace(t, op, maxData);
    if op.BroadcastOp? {
      OfferFirstIs(s.clients, |s.clients|, op.e, maxData);
      OfferFirstIs(t.clients, |t.clients|, op.e, maxData);
    }
  }

  lemma {:induction false} OthersDoNotMatter(s: Space, t: Space, c: nat, other: SpaceOp, maxData: nat)
    requires SpaceOk(s) && SpaceOk(t) && AgreeOn(s, t, c)
    requires (other.PopOp? || other.UnregisterOp?) && other.c != c
    ensures var t' := SpaceStep(t, other, maxData);
      SpaceOk(t') && AgreeOn(s, t', c)
  {
    StepKeepsSpace(t, other, maxData);
  }

  lemma {:induction false} RunCons(s: Space, op: SpaceOp, rest: seq<SpaceOp>, maxData: nat)
    requires SpaceOk(s) && HistoriesOk(s)
    ensures SpaceOk(SpaceStep(s, op, maxData)) && HistoriesOk(SpaceStep(s, op, maxData))
    ensures SpaceRun(s, [op] + rest, maxData) == SpaceRun(SpaceStep(s, op, maxData), rest, maxData)
  {
    HistoryStep(s, op, maxData);
    assert ([op] + rest)[1..] == rest;
  }

  // With registrations, which ids are free matters as well, so the other clients' registrations
  // and unregistrations stay in the run and only their pops can be left out.
  ghost predicate SameFlags(cs: seq<Client>, ds: seq<Client>) {
    |cs| == |ds| && forall i | 0 <= i < |cs| :: cs[i].registered == ds[i].registered
  }

  lemma {:induction false} SameFirstUnregistered(cs: seq<Client>, ds: seq<Client>, i: nat)
    requires SameFlags(cs, ds) && i <= |cs|
    ensures FirstUnregistered(cs, i) == FirstUnregistered(ds, i)
    decreases |cs| - i
  {
    if i < |cs| && cs[i].registered {
      SameFirstUnregistered(cs, ds, i + 1);
    }
  }

  lemma {:induction false} BroadcastKeepsFlags(s: Space, e: Event, maxData: nat)
    requires SpaceOk(s)
    ensures SameFlags(s.clients, SpaceStep(s, BroadcastOp(e), maxData).clients)
  {
    OfferFirstIs(s.clients, |s.clients|, e, maxData);
  }

  lemma {:induction false} JointStep(s: Space, t: Space, c: nat, op: SpaceOp, maxData: nat)
    requires SpaceOk(s) && SpaceOk(t) && AgreeOn(s, t, c) && SameFlags(s.clients, t.clients)
    requires op.PopOp? ==> op.c == c
    ensures var s', t' := SpaceStep(s, op, maxData), SpaceStep(t, op, maxData);
      SpaceOk(s') && SpaceOk(t') && AgreeOn(s', t', c) && SameFlags(s'.clients, t'.clients)
  {
    StepKeepsSpace(s, op, maxData);
    StepKeepsSpace(t, op, maxData);
    match op
    case BroadcastOp(e) =>
      ClientsAreIsolated(s, t, c, op, maxData);
      BroadcastKeepsFlags(s, e, maxData);
      BroadcastKeepsFlags(t, e, maxData);
    case RegisterOp =>
      SameFirstUnregistered(s.clients, t.clients, 0);
      FirstUnregisteredIs(s.clients, 0);
    case _ =>
  }

  lemma {:induction false} ForeignPop(s: Space, t: Space, c: nat, d: nat, maxData: nat)
    requires SpaceOk(s) && SpaceOk(t) && AgreeOn(s, t, c) && SameFlags(s.clients, t.clients) && d != c
    ensures var s' := SpaceStep(s, PopOp(d), maxData);
      SpaceOk(s') && AgreeOn(s', t, c) && SameFlags(s'.clients, t.clients)
  {
    StepKeepsSpace(s, PopOp(d), maxData);
  }

  /** A run without the pops of clients other than c. */
  function WithoutForeignPops(ops: seq<SpaceOp>, c: nat): seq<SpaceOp> {
    if ops == [] then []
    else (if ops[0].PopOp? && ops[0].c != c then [] else [ops[0]]) + WithoutForeignPops(ops[1..], c)
  }

  /** Over every run of register, unregister, broadcast, pop and availability changes, what a
      client's ring holds, accepted and popped is what it would be if the other clients had never
      popped: their backlogs make no difference. */
  lemma {:induction false} BacklogsNeverInterfere(s: Space, t: Space, c: nat, ops: seq<SpaceOp>, maxData: nat)
    requires SpaceOk(s) && SpaceOk(t) && HistoriesOk(s) && HistoriesOk(t)
    requires AgreeOn(s, t, c) && SameFlags(s.clients, t.clients)
    ensures AgreeOn(SpaceRun(s, ops, maxData), SpaceRun(t, WithoutForeignPops(ops, c), maxData), c)
    decreases |ops|
  {
    if ops != [] {
      var op, rest := ops[0], ops[1..];
      HistoryStep(s, op, maxData);
      var s' := SpaceStep(s, op, maxData);
      if op.PopOp? && op.c != c {
        ForeignPop(s, t, c, op.c, maxData);
        BacklogsNeverInterfere(s', t, c, rest, maxData);
        assert [] + WithoutForeignPops(rest, c) == WithoutForeignPops(rest, c);
      } else {
        HistoryStep(t, op, maxData);
        JointStep(s, t, c, op, maxData);
        BacklogsNeverInterfere(s', SpaceStep(t, op, maxData), c, rest, maxData);
        RunCons(t, op, WithoutForeignPops(rest, c), maxData);
      }
    }
  }

  /** The operations of a run that concern client c. */
  function Concerning(ops: seq<SpaceOp>, c: nat): seq<SpaceOp> {
    if ops == [] then []
    else (if Concerns(ops[0], c) then [ops[0]] else []) + Concerning(ops[1..], c)
  }

  /** Over a run without registrations the other clients' unregistrations can be left out too. */
  lemma {:induction false} BacklogsDoNotInterfere(s: Space, t: Space, c: nat, ops: seq<SpaceOp>, maxData: nat)
    requires SpaceOk(s) && SpaceOk(t) && HistoriesOk(s) && HistoriesOk(t) && AgreeOn(s, t, c)
    requires forall j | 0 <= j < |ops| :: !ops[j].RegisterOp?
    ensures AgreeOn(SpaceRun(s, ops, maxData), SpaceRun(t, Concerning(ops, c), maxData), c)
    decreases |ops|
  {
    if ops != [] {
      var op, rest := ops[0], ops[1..];
      HistoryStep(s, op, maxData);
      HistoryStep(t, op, maxData);
      var s', t' := SpaceStep(s, op, maxData), SpaceStep(t, op, maxData);
      if Concerns(op, c) {
        ClientsAreIsolated(s, t, c, op, maxData);
        BacklogsDoNotInterfere(s', t', c, rest, maxData);
        RunCons(t, op, Concerning(rest, c), maxData);
      } else {
        OthersDoNotMatter(t, s, c, op, maxData);
        BacklogsDoNotInterfere(s', t, c, rest, maxData);
        assert [] + Concerning(rest, c) == Concerning(rest, c);
      }
    }
  }

  // ----- the shared memory -----

  class EventSpace {
    const maxData: UInt16
    const rings: seq<EventRingBuffer>
    const registered: array<bool>
    var available: bool
    ghost const Repr: set<object>

    ghost predicate Valid()
      reads this, Repr
    {
      && this in Repr && registered in Repr && registered.Length == |rings|
      && (forall i | 0 <= i < |rings| ::
            && rings[i] in Repr && rings[i].storage in Repr
            && rings[i].Valid() && rings[i].maxData == maxData)
      && (forall i, j | 0 <= i < j < |rings| :: rings[i] != rings[j] && rings[i].storage != rings[j].storage)
    }

    ghost function ClientAt(i: nat): Client
      requires Valid() && i < |rings|
      reads this, Repr
    {
      Client(registered[i], rings[i].State())
    }

    ghost function Clients(): (cs: seq<Client>)
      requires Valid()
      reads this, Repr
      ensures |cs| == |rings| && ClientsOk(cs)
      ensures forall i | 0 <= i < |rings| :: cs[i] == ClientAt(i)
    {
      seq(|rings|, i requires 0 <= i < |rings| && Valid() reads this, Repr => ClientAt(i))
    }

    constructor (maxClients: UInt16, maxQueue: QueueSize, maxData: UInt16)
      ensures Valid() && fresh(Repr) && !available
      ensures |rings| == maxClients && this.maxData == maxData
      ensures forall i | 0 <= i < maxClients :: !Clients()[i].registered && Queue(Clients()[i].ring) == []
    {
      this.maxData := maxData;
      this.registered := new bool[maxClients](_ => false);
      this.available := false;
      var rs, repr := MakeRings(maxClients, maxQueue, maxData);
      this.rings := rs;
      this.Repr := {this, registered} + repr;
      new;
      assert forall i | 0 <= i < maxClients :: Clients()[i] == ClientAt(i);
    }

    static method MakeRings(n: nat, maxQueue: QueueSize, maxData: UInt16)
      returns (rs: seq<EventRingBuffer>, ghost repr: set<object>)
      ensures |rs| == n && fresh(repr)
      ensures forall k | 0 <= k < n :: rs[k] in repr && rs[k].storage in repr
      ensures forall k | 0 <= k < n :: rs[k].Valid() && rs[k].maxData == maxData && Queue(rs[k].State()) == []
      ensures forall j, k | 0 <= j < k < n :: rs[j] != rs[k] && rs[j].storage != rs[k].storage
    {
      rs, repr := [], {};
      for i := 0 to n
        invariant |rs| == i && fresh(repr)
        invariant forall k | 0 <= k < i :: rs[k] in repr && rs[k].storage in repr
        invariant forall k | 0 <= k < i :: rs[k].Valid() && rs[k].maxData == maxData && Queue(rs[k].State()) == []
        invariant forall j, k | 0 <= j < k < i :: rs[j] != rs[k] && rs[j].storage != rs[k].storage
      {
        var r := new EventRingBuffer(maxQueue, maxData);
        rs, repr := rs + [r], repr + {r, r.storage};
      }
    }

    method RegisterClient() returns (r: Option<nat>)
      requires Valid()
      modifies Repr
      ensures Valid() && (r, Clients()) == Register(old(Clients())) && available == old(available)
    {
      ghost var before := Clients();
      FirstUnregisteredIs(before, 0);
      for bit := 0 to registered.Length
        invariant Valid() && Clients() == before && available == old(available)
        invariant FirstUnregistered(before, 0) == FirstUnregistered(before, bit)
      {
        assert before[bit] == ClientAt(bit);
        if !registered[bit] {
          registered[bit] := true;
          rings[bit].Reset();
          assert Clients() == before[bit := Client(true, ResetRing(before[bit].ring))] by {
            forall j | 0 <= j < |rings| && j != bit ensures ClientAt(j) == before[j] {
              assert rings[j] != rings[bit] && rings[j].storage != rings[bit].storage;
            }
          }
          return Some(bit);
        }
      }
      return None;
    }

    method UnregisterClient(clientId: nat)
      requires Valid()
      modifies Repr
      ensures Valid() && Clients() == Unregister(old(Clients()), clientId) && available == old(available)
    {
      if clientId < registered.Length {
        registered[clientId] := false;
        rings[clientId].Reset();
      }
    }

    /** One iteration of push: the ring of one registered client. */
    method PushTo(c: nat, eventId: UInt16, data: array<Byte>, sz: UInt16) returns (ok: bool)
      requires Valid() && c < |rings| && registered[c] && sz <= data.Length
      modifies rings[c], rings[c].storage
      ensures Valid()
      ensures ok == Offer(old(Clients())[c], Event(eventId, data[..sz]), maxData).0
      ensures Clients() == old(Clients())[c := Offer(old(Clients())[c], Event(eventId, data[..sz]), maxData).1]
    {
      ghost var before := Clients();
      assert before[c] == ClientAt(c);
      ok := rings[c].Push(eventId, data, sz);
      forall j: nat | j < |rings| && j != c
        ensures rings[j].Valid() && ClientAt(j) == before[j]
      {
        assert rings[j] != rings[c] && rings[j].storage != rings[c].storage;
      }
    }

    method Push(eventId: UInt16, data: array<Byte>, sz: UInt16) returns (any: bool)
      requires Valid() && sz <= data.Length && data !in Repr
      modifies Repr
      ensures Valid() && available == old(available)
      ensures (any, Clients()) == Broadcast(old(Clients()), old(available), Event(eventId, data[..sz]), maxData)
    {
      if !available {
        return false;
      }
      any := false;
      ghost var before, e := Clients(), Event(eventId, data[..sz]);
      for c := 0 to registered.Length
        invariant Valid() && available && data[..] == old(data[..])
        invariant (any, Clients()) == OfferFirst(before, c, e, maxData)
      {
        OfferFirstIs(before, c, e, maxData);
        assert before[c] == Clients()[c] == ClientAt(c) && data[..sz] == e.data;
        if registered[c] {
          var ok := PushTo(c, eventId, data, sz);
          any := any || ok;
        } else {
          assert Clients()[c := before[c]] == Clients();
        }
      }
    }

    method Pop(clientId: nat) returns (view: Option<BufferView>)
      requires Valid()
      modifies Repr
      ensures Valid() && Clients() == PopFor(old(Clients()), clientId).1 && available == old(available)
      ensures view.None? <==> PopFor(old(Clients()), clientId).0.None?
      ensures view.Some? ==>
        && clientId < |rings| && view.value.slot == old(rings[clientId].read) < rings[clientId].maxQueue
        && view.value.sz <= maxData
        && Some(Event(view.value.eventId, rings[clientId].ViewData(view.value))) == PopFor(old(Clients()), clientId).0
    {
      if clientId >= registered.Length {
        return None;
      }
      if !registered[clientId] {
        return None;
      }
      view := rings[clientId].Pop();
    }

    method SetAvailable(value: bool)
      requires Valid()
      modifies `available
      ensures Valid() && available == value && Clients() == old(Clients())
    {
      available := value;
    }
  }
}
