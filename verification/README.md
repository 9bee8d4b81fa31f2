# A verified model of psi-shared-ipc

Clients and a server exchange calls, replies and events through three structures in shared
memory. This project models those structures, the byte codec that crosses them and the loops that
drive them, and proves what the protocol promises. Each region between `lock()` and `unlock()`,
and each purely local step, is one atomic step; any number of clients interleave with one server.
Queue sizes, slot sizes and the number of clients are parameters.

Check everything with `dafny verify dfyconfig.toml`.

## How it is organised

| file | what it models |
|---|---|
| `Bytes`, `Counting` | bytes, machine integers, `memcpy`; sizes of finite sets |
| `Codec`, `Tuple`, `Serializer`, `Deserializer` | the wire format as functions; the code that writes and reads it |
| `IPCCall`, `Framing`, `CallSpace` | one request frame, a log of frames and its parser, the bounded log |
| `CallbackSpace`, `IPCCallback` | the reply slots, the bytes of a reply |
| `EventRingBuffer`, `EventSpace` | one client's ring, all rings and the broadcast |
| `SizePrediction`, `Polling`, `Client` | `validateCall`, the polling pass, the client class |
| `Server`, `MemberFnWrapper` | draining, splitting, dispatching and replying |
| `Protocol` | calls and replies as a state machine; a run is any sequence of enabled actions |
| `Ownership`, `Completion`, `Outcomes`, `Liveness`, `Fifo`, `Admission` | what holds in every run |
| `Matching`, `OwnReply`, `StaleReply` | whose reply a callback is handed |
| `CallRuns`, `PollingRuns`, `ServerRuns`, `Interleaving` | the code of client and server takes only steps of the protocol, alone or with others in between |
| `EventDelivery`, `EventClient`, `EventRuns`, `EventSystem` | events from `notifyEvent` to a listener, under every interleaving and with any number of clients |

The code that updates state is a class or a method on arrays, proved equal to a function on values
(`PushRing`, `PopSlot`, `PassOver`, `Enc`, `Parse`, ...). The properties are proved about those
functions and about runs made of them.

A handler answers a call at most once, and only if its method's wrapper replies at all (methods with
a callback or a return value, `Config.answering`). A call without a callback carries index 0, which is
also a valid slot, and a replying method answers it all the same; such a call is called a stray.

## What turned out to be false

- **Replies after a timeout, and to calls without a callback.** Slot indices carry no generation
  number, and calls without a callback carry a valid one. `Matching.RepliesMatch` holds for runs without
  timeouts and strays. With both, `OwnReply.OwnReplyIff` says exactly when a waiting call is sure of its
  own reply: if and only if no other outstanding request that carries its slot can still reach a
  handler that replies, or no reply fits a slot. `OwnReply.OwnFromTheStartIff` says it for the moment
  the call gets its slot, `OwnReply.StrayThreatensSlotZero` is what a new stray does to slot 0, and
  `StaleReply.TimedOutCallAnswersAnother` is a run in which a call completes with another call's reply.
- **`validateCall`** leaves out the 2-byte size field, counts 24 bytes for any vector and wraps at
  16 bits. `SizePrediction.MisjudgedIff` gives, for any arguments, exactly which calls it misjudges;
  `AdmittedTooLongIff` and `HugeCallsWrap` read it for scalars and strings, and `AdmittedButTooLong`
  and `VectorsAreMispredicted` are witnesses.
- **The vector guard** is commented as only preventing overflow. It divides by `sizeof(T)`, 32 bytes
  for a string that may take 8 on the wire, so it rejects vectors that would not overflow. Values of at
  most 16391 bytes are safe (`Codec.FitsIsRepresentable`); one byte more is not (`Codec.SafeSlotIsTight`).
- **The parser** checks for 14 header bytes and reads 16. `Framing.ReadOutsideIff` says exactly which
  queues are read outside, `Framing.ShortQueueIsReadOutside` is one; a log of whole frames never is
  (`Framing.FramesAreReadInside`).
- **The clamp in `deserialize`** is commented as dispatching an oversized call with an empty argument
  list. The server's loop reads the size again and hands on all arguments (`Framing.ClampAgreesIff`).
- **Unsubscribing** frees the client's id in the event space but not in the client, whose drain loop goes
  on popping with it. Once another client is given the id, the old holder takes its events
  (`EventSpaceModel.OldHolderTakesEvents`).

## Model

| member | source | states |
|---|---|---|
| Codec.RoundTrip | psi/include/psi/shared/ipc/protocol/Deserializer.h:15-72 | any nested value that no length guard or cut affects decodes, at any offset and with any bytes around it, to itself, and the offset advances by the encoded size without wrapping |
| Codec.RoundTripIff | psi/include/psi/shared/ipc/protocol/Deserializer.h:30-72 | decoding gives a value back if and only if no string is longer than 65535 bytes and no vector is refused by its guard |
| Codec.AlteredIfNotRepresentable | psi/include/psi/shared/ipc/protocol/Deserializer.h:58-60 | the other half: a value with a cut string or a refused vector, however deeply nested, comes back as another value |
| Codec.FitsIsRepresentable | psi/include/psi/shared/ipc/protocol/Serializer.h:42-69 | a value of at most 16391 bytes is encoded uncut in exactly its full size and passes every guard |
| Codec.SafeSlotIsTight | psi/include/psi/shared/ipc/protocol/Deserializer.h:55-60 | 16391 is the largest such bound: a vector of 2048 empty strings takes 16392 bytes and decodes to an empty vector |
| Tuple.TupleRoundTripIff | psi/include/psi/shared/ipc/protocol/Deserializer.h:74-90 | the fold over an argument tuple returns the tuple and consumes exactly its bytes if and only if every argument is representable |
| Tuple.TupleFits | psi/include/psi/shared/ipc/IPCCall.h:12-13 | arguments that together take at most 16391 bytes are representable and encoded in exactly their full size |
| Tuple.EncShapesAgree | psi/include/psi/shared/ipc/protocol/Serializer.h:26-40 | the head-first variadic serializeType writes the bytes of the left-to-right serializeTuple fold |
| Tuple.DecShapesAgree | psi/include/psi/shared/ipc/protocol/Deserializer.h:92-106 | deserializeTypeVariadic returns what the deserializeTuple fold returns, and fails when it fails |
| Serializer.SerializeType | psi/include/psi/shared/ipc/protocol/Serializer.h:13-69 | writes exactly the encoding at its place in the buffer and returns its size, with all 16-bit offsets |
| Serializer.SerializeVector | psi/include/psi/shared/ipc/protocol/Serializer.h:55-69 | count and elements in order, nothing else in the buffer changed |
| Serializer.SerializeTuple | psi/include/psi/shared/ipc/protocol/Serializer.h:96-112 | the fold leaves the tuple's encoding in the buffer |
| Serializer.SerializeVariadic | psi/include/psi/shared/ipc/protocol/Serializer.h:26-40 | the recursion leaves the same buffer as the fold |
| Deserializer.DeserializeType | psi/include/psi/shared/ipc/protocol/Deserializer.h:15-72 | the loop over vector elements computes the decoding function, out-of-bounds reads included |
| Deserializer.DeserializeTuple | psi/include/psi/shared/ipc/protocol/Deserializer.h:74-90 | the loop over the argument types computes the tuple decoding |
| IPCCallModel.BackPatch | psi/include/psi/shared/ipc/IPCCall.h:40-49 | writing the size after the arguments gives the frame and does not disturb the arguments |
| IPCCallModel.FrameHolds | psi/include/psi/shared/ipc/IPCCall.h:54-63 | where a frame stands, its header, size and arguments are read back |
| IPCCallModel.IPCCall.Serialize | psi/include/psi/shared/ipc/IPCCall.h:15-28 | writes header and size; without arguments, the whole frame |
| IPCCallModel.IPCCall.SerializeWithArgs | psi/include/psi/shared/ipc/IPCCall.h:30-51 | writes the frame of the call and its encoded arguments and returns the frame's length |
| IPCCallModel.IPCCall.Deserialize | psi/include/psi/shared/ipc/IPCCall.h:53-72 | reads the fields, clamps the size, and tells whether the 16 bytes lay inside the buffer |
| Framing.FramingRoundTrip | psi/include/psi/shared/ipc/server/IServerIPC.h:47-87 | on the concatenation of any frames the loop visits exactly those frames in order and stops at the end |
| Framing.ClampAgreesIff | psi/include/psi/shared/ipc/IPCCall.h:64-71 | the clamped size is the size the loop reads again if and only if the frame fits the slot; the loop hands on the arguments either way |
| Framing.VisitsAreDisjoint | psi/include/psi/shared/ipc/server/IServerIPC.h:47-87 | on any bytes, dispatched frames lie inside the queue, in increasing order and without overlap |
| Framing.NothingIsLost | psi/include/psi/shared/ipc/server/IServerIPC.h:47-87 | on any bytes, the frames the loop found, written again, are exactly the bytes it went over |
| Framing.ReadOutsideIff | psi/include/psi/shared/ipc/server/IServerIPC.h:48-53 | header reads leave the queue if and only if it is whole frames followed by 14 or 15 bytes |
| Framing.FramesAreReadInside | psi/include/psi/shared/ipc/server/IServerIPC.h:47-60 | a queue of whole frames is never read outside |
| CallSpaceModel.CallSpace.Push | psi/include/psi/shared/ipc/space/CallSpace.h:42-63 | appends the bytes or refuses, exactly as the bounded log does |
| CallSpaceModel.CallSpace.Pop | psi/include/psi/shared/ipc/space/CallSpace.h:65-69 | gives access to exactly the bytes pushed since the last clear |
| CallSpaceModel.WriteIndexDoesNotWrap | psi/include/psi/shared/ipc/space/CallSpace.h:15-16 | for all 16-bit template parameters the 32-bit write index does not wrap |
| CallbackSpaceModel.FirstFreeIsFree | psi/include/psi/shared/ipc/space/CallbackSpace.h:57-67 | the slot found is the first free one, and none is found only if none is free |
| CallbackSpaceModel.UpdateThenPop | psi/include/psi/shared/ipc/space/CallbackSpace.h:69-111 | a reply written to a pending slot is what the next pop returns, whatever sequence of replies is written in between; popping frees that slot only |
| CallbackSpaceModel.CallbackSpace.PushCallback | psi/include/psi/shared/ipc/space/CallbackSpace.h:57-67 | the scan over status bytes takes the first free slot and changes no other |
| CallbackSpaceModel.CallbackSpace.UpdateCallback | psi/include/psi/shared/ipc/space/CallbackSpace.h:69-88 | status, size and data bytes of one row become the reply; everything else is ignored |
| CallbackSpaceModel.CallbackSpace.PopCallback | psi/include/psi/shared/ipc/space/CallbackSpace.h:90-111 | frees a ready slot and returns a view that still reads its reply |
| CallbackSpaceModel.CallbackSpace.ClearCallback | psi/include/psi/shared/ipc/space/CallbackSpace.h:113-120 | frees the slot whatever it held |
| EventRingBufferModel.PushRefines | psi/include/psi/shared/ipc/space/EventRingBuffer.h:29-52 | push accepts if and only if the payload fits and fewer than MAX_QUEUE_SIZE - 1 events are queued, and appends |
| EventRingBufferModel.RingIsBoundedFifo | psi/include/psi/shared/ipc/space/EventRingBuffer.h:29-82 | for every size and every sequence of operations a caller cannot tell the ring from a FIFO of capacity MAX_QUEUE_SIZE - 1 |
| EventRingBufferModel.ViewIsStable | psi/include/psi/shared/ipc/space/EventRingBuffer.h:54-76 | the popped cell keeps its event through any number of later pushes |
| EventRingBufferModel.EventRingBuffer.Push | psi/include/psi/shared/ipc/space/EventRingBuffer.h:29-52 | the byte-level push is the ring's push, with modular indices |
| EventRingBufferModel.EventRingBuffer.Pop | psi/include/psi/shared/ipc/space/EventRingBuffer.h:54-76 | the byte-level pop is the ring's pop, and its view reads the popped event |
| EventRingBufferModel.EventRingBuffer.Reset | psi/include/psi/shared/ipc/space/EventRingBuffer.h:78-82 | the ring is empty afterwards |
| EventSpaceModel.SpaceRun | psi/include/psi/shared/ipc/space/EventSpace.h:40-97 | after every run, for each client, what it popped followed by what its ring holds is what its ring accepted since its registration |
| EventSpaceModel.ReusedIdStartsEmpty | psi/include/psi/shared/ipc/space/EventSpace.h:40-55 | in the space with its histories: a registration fails if and only if every id is taken, otherwise it gives the least free id, which starts with an empty ring and history, and changes no other client |
| EventSpaceModel.RegisterIs | psi/include/psi/shared/ipc/space/EventSpace.h:40-55 | fails if and only if every id is taken, changing nothing; otherwise gives the least free id, registered with an empty ring, and changes no other client |
| EventSpaceModel.UnregisterIs | psi/include/psi/shared/ipc/space/EventSpace.h:57-63 | an id of the space is free afterwards with an empty ring, no other client changes, and the next registration succeeds with an id of at most this one; an unknown id changes nothing |
| EventSpaceModel.PopForIs | psi/include/psi/shared/ipc/space/EventSpace.h:84-97 | pop gives a registered client its oldest waiting event and takes only that; an unregistered or unknown id gets nothing and changes nothing |
| EventSpaceModel.SilentUntilRegistered | psi/include/psi/shared/ipc/space/EventSpace.h:57-97 | after an id is unregistered, nothing is accepted for its ring and it pops nothing, over every run in which no registration gives it out again |
| EventSpaceModel.AvailabilityIs | psi/include/psi/shared/ipc/space/EventSpace.h:30-38 | over every run the space is available if and only if the last setting said so |
| EventSpaceModel.BacklogsNeverInterfere | psi/include/psi/shared/ipc/space/EventSpace.h:40-97 | over every run of register, unregister, broadcast, pop and availability changes, a client's ring and history are what they would be if the other clients had never popped |
| EventSpaceModel.BacklogsDoNotInterfere | psi/include/psi/shared/ipc/space/EventSpace.h:57-97 | the variant for runs without registrations, in which the other clients' unregistrations make no difference either |
| EventSpaceModel.OfferFirstIs | psi/include/psi/shared/ipc/space/EventSpace.h:65-82 | a broadcast offers the event to each client independently and reports whether any took it |
| EventSpaceModel.BroadcastIs | psi/include/psi/shared/ipc/space/EventSpace.h:65-82 | push returns true if and only if the space is available and some registered client's ring has room for the payload; exactly those rings get the event at the end of their queue |
| EventSpaceModel.OldHolderTakesEvents | psi/src/psi/shared/ipc/client/ClientIPC.cpp:64-69 | an id that was unsubscribed and registered again is still popped with by its old holder, who takes the new holder's event |
| EventSpaceModel.EventSpace.RegisterClient | psi/include/psi/shared/ipc/space/EventSpace.h:40-55 | the scan over the bits is the registration that RegisterIs describes |
| EventSpaceModel.EventSpace.UnregisterClient | psi/include/psi/shared/ipc/space/EventSpace.h:57-63 | clears the bit and resets the ring, as UnregisterIs describes |
| EventSpaceModel.EventSpace.Push | psi/include/psi/shared/ipc/space/EventSpace.h:65-82 | the loop over the rings is the broadcast, guarded by availability |
| EventSpaceModel.EventSpace.Pop | psi/include/psi/shared/ipc/space/EventSpace.h:84-97 | pops for a registered client only and touches no other ring |
| SizePrediction.FittingCallsAreAdmitted | psi/include/psi/shared/ipc/protocol/Serializer.h:71-94 | scalars and strings of at most MAX_ARGS_SZ bytes are predicted exactly, admitted, encoded uncut, and their frame is at most CALL_SZ |
| SizePrediction.AdmittedTooLongIff | psi/include/psi/shared/ipc/client/IClientIPC.hpp:242-258 | for up to 65535 bytes, the calls admitted although they do not fit are exactly those one or two bytes too long |
| SizePrediction.HugeCallsWrap | psi/include/psi/shared/ipc/client/IClientIPC.hpp:245-253 | beyond 65535 bytes admission depends on the size modulo 65536 alone |
| SizePrediction.MisjudgedIff | psi/include/psi/shared/ipc/client/IClientIPC.hpp:242-258 | for any arguments, vectors included: admission depends on the bytes of scalars and strings plus 24 for each vector, modulo 65536; while that does not wrap, exactly which calls are admitted although they do not fit, and exactly which are refused although they fit |
| SizePrediction.VectorsAreMispredicted | psi/include/psi/shared/ipc/protocol/Serializer.h:71-75 | witnesses of both with 512-byte slots: 21 to 62 vector elements of 25 bytes are admitted and do not fit, as many empty vectors fit and are refused |
| SizePrediction.ValidateCall | psi/include/psi/shared/ipc/client/IClientIPC.hpp:242-258 | the 16-bit accumulating loop computes the prediction and the verdict |
| ClientModel.Client.PushCallWithNoArgs | psi/include/psi/shared/ipc/client/IClientIPC.hpp:232-240 | appends the frame of the call to the log, or leaves it |
| ClientModel.Client.PushCallWithArgs | psi/include/psi/shared/ipc/client/IClientIPC.hpp:260-271 | appends the frame of the call and its arguments to the log, or leaves it, and tells whether the frame was written inside the buffer: if and only if it fits CALL_SZ |
| ClientModel.Client.PushCb | psi/include/psi/shared/ipc/client/IClientIPC.hpp:274-323 | takes a slot and lists it as pending, or does neither |
| ClientModel.Client.CallServer | psi/include/psi/shared/ipc/client/IClientIPC.hpp:71-142 | the four cases: verdict, slots, pending list and log afterwards |
| ClientModel.CallEffectIs | psi/include/psi/shared/ipc/client/IClientIPC.hpp:71-142 | for any pending list, slots and log: which calls fail and how; a call with a callback that is let through takes the first free slot and appends exactly its own entry behind those already pending; every call let through appends its frame, with that index or 0, if it fits a slot and the log; nothing else changes |
| ClientModel.Client.TakeReply | psi/src/psi/shared/ipc/client/ClientIPC.cpp:109-122 | pops a ready reply and copies exactly its bytes |
| ClientModel.Client.Poll | psi/src/psi/shared/ipc/client/ClientIPC.cpp:102-131 | the in-place erase loop computes the pass: list, closures and slots |
| ClientModel.Client.RunCallbacks | psi/src/psi/shared/ipc/client/ClientIPC.cpp:135-141 | closures run in order after the lock is released; expired ones clear their slots |
| CallRuns.CallIsRun | psi/include/psi/shared/ipc/client/IClientIPC.hpp:71-142 | after any run and with any pending list, callServer is a further run of at most four protocol steps with the same slots, log, failure and pending entry |
| Interleaving.AcquireAfterGap | psi/include/psi/shared/ipc/client/IClientIPC.hpp:279-285 | with any steps of others since the call was issued, pushCb takes the slot that is free by then, or the call fails if none is |
| Interleaving.EnlistAfterGap | psi/include/psi/shared/ipc/client/IClientIPC.hpp:287-320 | with any steps of others since it got its slot, the call lists that slot |
| Interleaving.PushAfterGap | psi/include/psi/shared/ipc/client/IClientIPC.hpp:260-271 | with any steps since, a polling pass that expires the call included, the request listed is the one pushed, to the log as it is by then |
| Polling.PassIsPartition | psi/src/psi/shared/ipc/client/ClientIPC.cpp:102-131 | with distinct slots the loop keeps exactly the entries whose deadline the clock has not passed and whose slot is not ready, schedules every other entry once with expiry first, and frees exactly the popped slots |
| Polling.EveryEntryMeetsItsFate | psi/src/psi/shared/ipc/client/ClientIPC.cpp:103-131 | entry by entry: scheduled as timed out if and only if the clock read for it is later than its deadline or the client is shutting down; otherwise handed exactly its slot's reply if that is ready, and kept if not |
| Polling.PassKeepsOrder | psi/src/psi/shared/ipc/client/ClientIPC.cpp:102-131 | closures are scheduled, and remaining entries stay, in the order of the list, and there are no others |
| Polling.FatesFreeTheirSlots | psi/src/psi/shared/ipc/client/ClientIPC.cpp:102-141 | after a pass and its closures exactly the slots of the entries with a fate are free |
| PollingRuns.PassIsRun | psi/src/psi/shared/ipc/client/ClientIPC.cpp:102-131 | after any run, the pass is a further run of at most one step per entry with the same slots; each visited call is in the phase its entry's fate says and no other call has changed |
| Interleaving.VisitAfterGap | psi/src/psi/shared/ipc/client/ClientIPC.cpp:103-131 | with any steps of others before it, an iteration is at most one protocol step and gives its entry the fate that the clock and the slots at that moment decide |
| Interleaving.PassAmongOthers | psi/src/psi/shared/ipc/client/ClientIPC.cpp:102-131 | a pass with any steps of others before each iteration is a run, and entries not yet reached stay as they were |
| Interleaving.ClosureIsRun | psi/src/psi/shared/ipc/client/ClientIPC.cpp:135-141 | a closure, whenever it runs, is a protocol step with the slots and the invocation that the list of closures gives |
| PollingRuns.PendingSlotsAreDistinct | psi/src/psi/shared/ipc/client/ClientIPC.cpp:103-104 | the pass always finds distinct slots in its list |
| ServerModel.Server.ReadFrame | psi/include/psi/shared/ipc/server/IServerIPC.h:48-69 | one iteration: the frame found or a break, with 32-bit index sums |
| ServerModel.Server.OnReadCallMemory | psi/include/psi/shared/ipc/server/IServerIPC.h:43-89 | on any bytes the loop ends and dispatches exactly the known frames in order |
| ServerModel.Server.ReadMemory | psi/src/psi/shared/ipc/server/ServerIPCBase.cpp:29-56 | takes and clears the whole log and dispatches what it held |
| ServerModel.Server.OnCallback | psi/src/psi/shared/ipc/server/ServerIPCBase.cpp:58-68 | writes a reply to its slot, if there is one |
| ServerModel.UnknownMethodsAreSkipped | psi/include/psi/shared/ipc/server/IServerIPC.h:65-86 | leaving a request for an unknown method out of the log changes nothing that is dispatched |
| ServerModel.IndexDoesNotWrap | psi/include/psi/shared/ipc/server/IServerIPC.h:47-64 | for every queue a log can hold, the parser's 32-bit sums do not wrap |
| ServerRuns.ReadMemoryIsRun | psi/src/psi/shared/ipc/server/ServerIPCBase.cpp:29-56 | after any run, draining and parsing to the end is a further run, and the server then has seen exactly the frames its loop finds in the log |
| IPCCallbackModel.ReplyRoundTripIff | psi/include/psi/shared/ipc/IPCCallback.h:45-98 | code and message, or arguments, come back from exactly the bytes serialized, without reading past them, if and only if nothing was cut or refused |
| IPCCallbackModel.SuccessLayout | psi/include/psi/shared/ipc/IPCCallback.h:57-73 | a success is code 0, the number of its argument bytes modulo 65536, and those bytes |
| IPCCallbackModel.FittingReplies | psi/include/psi/shared/ipc/IPCCallback.h:45-73 | a reply whose parts fit a slot of at most 16391 bytes is representable and its bytes fit |
| IPCCallbackModel.ReplyEndToEnd | psi/include/psi/shared/ipc/space/CallbackSpace.h:69-111 | a fitting reply written to a pending slot is popped and decoded as it was sent, whatever sequence of replies is written meanwhile |
| IPCCallbackModel.Serialize | psi/include/psi/shared/ipc/IPCCallback.h:45-73 | writes the reply's bytes, payload size last, and returns their number |
| IPCCallbackModel.Deserialize | psi/include/psi/shared/ipc/IPCCallback.h:75-98 | computes the decoding on the copied bytes |
| MemberFnWrapperModel.SendReply | psi/include/psi/shared/ipc/server/MemberFnWrapper.h:73-78 | the reply lambda writes the serialized reply to the call's slot, and tells whether the reply was written inside the buffer: if and only if it fits DATA_SIZE |
| MemberFnWrapperModel.SendReplyIsRun | psi/src/psi/shared/ipc/server/ServerIPCBase.cpp:58-68 | after any run, a handler's reply is a further step of the protocol with the slots that SendReply leaves |
| MemberFnWrapperModel.ArgumentsEndToEnd | psi/include/psi/shared/ipc/server/MemberFnWrapper.h:61-71 | from the slice of any frame in any log the wrapper decodes the client's tuple and consumes exactly callSz bytes, if and only if the tuple is representable, as every tuple that fits is |
| MemberFnWrapperModel.HandlerGetsArguments | psi/include/psi/shared/ipc/server/MemberFnWrapper.h:33-44 | in every run a handler unpacks exactly the arguments its client called with, if and only if they are representable |
| MemberFnWrapperModel.CallerGetsReply | psi/include/psi/shared/ipc/client/IClientIPC.hpp:305-316 | in every run without timeouts and strays a callback decodes what its own handler replied, if and only if that is representable |
| Ownership.OwnershipStep | psi/include/psi/shared/ipc/client/IClientIPC.hpp:279-320 | every step keeps: a slot is in use if and only if a call owns it, and an owner's request carries its slot |
| Ownership.SlotOwnership | psi/include/psi/shared/ipc/space/CallbackSpace.h:57-120 | in every run, timeouts and late replies included: one owner per slot in use, owners hold distinct slots, and free slots and owners add up to the queue size |
| Completion.Conservation | psi/include/psi/shared/ipc/client/IClientIPC.hpp:101-139 | in every run no callback is invoked twice, and callbacks issued are those invoked, those owning a slot and those in between |
| Completion.InvocationsAreFinal | psi/src/psi/shared/ipc/client/ClientIPC.cpp:135-141 | a longer run only adds invocations |
| Completion.InvalidPayloadExactly | psi/include/psi/shared/ipc/client/IClientIPC.hpp:118-129 | a callback fails with InvalidPayload if and only if the predicted size is too large, whatever else happens and however long the arguments are |
| Outcomes.TransportFailureExactly | psi/include/psi/shared/ipc/client/IClientIPC.hpp:131-138 | in every run a callback fails with TransportFailure if and only if no slot was free when its call tried to get one |
| Outcomes.TimeoutExactly | psi/src/psi/shared/ipc/client/ClientIPC.cpp:105-107 | in every run a call has timed out if and only if a polling pass reached its entry at a time later than the deadline it was listed with, or while the client was shutting down |
| Outcomes.CollectedInTime | psi/src/psi/shared/ipc/client/ClientIPC.cpp:105-127 | in every run a reply is collected only at a time not later than the deadline its call was listed with |
| Outcomes.RefusedIsNeverSent | psi/include/psi/shared/ipc/client/IClientIPC.hpp:81-99 | in every run a call that validateCall refuses, with a callback or without, never reaches the log |
| Liveness.EveryCallbackCanComplete | psi/src/psi/shared/ipc/client/ClientIPC.cpp:105-107 | from every reachable state each callback can be invoked within four further steps, all of the call's own client |
| Fifo.FifoStep | psi/include/psi/shared/ipc/space/CallSpace.h:42-74 | every step keeps: log and private copy hold exactly the frames of the accepted calls not yet parsed |
| Fifo.ExactlyOnceInOrder | psi/src/psi/shared/ipc/server/ServerIPCBase.cpp:29-56 | for every interleaving parsed calls, then those in the private copy, then those in the log are the accepted pushes in order, each once |
| Fifo.HandlersGetTheirRequest | psi/include/psi/shared/ipc/server/IServerIPC.h:65-81 | each iteration finds the next accepted request, and a handler runs with that request if and only if the method is registered |
| Admission.FirstCallsAreAccepted | psi/include/psi/shared/ipc/space/CallSpace.h:48-60 | in every run the first MAX_QUEUE_SIZE fitting calls after a clear are accepted |
| OwnReply.OwnReplyIff | psi/include/psi/shared/ipc/client/IClientIPC.hpp:274-323 | after any run, timeouts and strays included, for a call that holds or lists a pending slot and is not yet answered: every continuation without new strays, in which handlers answer with serialized replies, hands its callback only its own handler's answer, if and only if no other outstanding request that carries the slot can still reach a replying handler (method registered; frame fits if yet to be pushed) or slots are too small for any reply |
| OwnReply.OwnFromTheStartIff | psi/include/psi/shared/ipc/space/CallbackSpace.h:57-67 | the same condition at the moment a call gets its slot |
| OwnReply.StrayThreatensSlotZero | psi/include/psi/shared/ipc/client/IClientIPC.hpp:81-99 | a call that waits on slot 0 loses that certainty as soon as a call without a callback, carrying index 0, is issued to a registered method that replies |
| OwnReply.OwnReplyCanArrive | psi/src/psi/shared/ipc/client/ClientIPC.cpp:109-127 | after any run, a listed call that waits on its slot and whose request can be answered can still be handed its own handler's reply, whatever that is, if it fits |
| Matching.OneRequestPerPendingSlot | psi/include/psi/shared/ipc/client/IClientIPC.hpp:274-323 | in every run without timeouts and strays, an outstanding request of a call with a callback has a pending slot, and no two such requests carry the same index |
| Matching.RepliesMatch | psi/include/psi/shared/ipc/client/IClientIPC.hpp:274-323 | in every run without timeouts and strays each callback invoked with a reply gets its own handler's bytes, although slots are reused |
| StaleReply.TimedOutCallAnswersAnother | psi/include/psi/shared/ipc/client/IClientIPC.hpp:291-303 | a reachable run in which a timed-out call's answer completes the next call in the slot |
| EventDelivery.ListenersGetTheirEvents | psi/src/psi/shared/ipc/client/ClientIPC.cpp:161-205 | for every interleaving: if a step of the run subscribes to an event id, what that listener was passed and will be passed is the sequence of events with that id among those matched after that step, and these are a prefix of what the ring accepted |
| EventDelivery.DrainedListenersAreComplete | psi/src/psi/shared/ipc/client/ClientIPC.cpp:161-205 | once drained, the listener of a subscription was passed exactly the events with the id subscribed to that were accepted and not yet matched at that step, or accepted later, in order and each once |
| EventDelivery.ListenersAreSubscriptions | psi/include/psi/shared/ipc/client/IClientIPC.hpp:165-203 | one listener per subscription, with the id subscribed to and nothing matched so far, and none otherwise |
| EventDelivery.OnlySubscribersArePassed | psi/src/psi/shared/ipc/client/ClientIPC.cpp:180-196 | every delivery, made or scheduled, is to a subscriber, and every task has targets, in the order of subscription |
| EventDelivery.TasksRunBeforePops | psi/src/psi/shared/ipc/client/ClientIPC.cpp:161-205 | after a drain, however the run goes on, nothing is popped and no task is added until all scheduled tasks have run, oldest first; then the client can pop again |
| EventDelivery.DeliverIs | psi/src/psi/shared/ipc/client/ClientIPC.cpp:192-196 | a task passes its event to its targets in order |
| EventSystem.SystemIsDrain | psi/include/psi/shared/ipc/space/EventSpace.h:40-97 | for a registered client, every run of the whole event space with any number of other clients is the projected run of event delivery on its own ring: its own steps and the broadcasts of an available space |
| EventSystem.ListenersAmongClients | psi/src/psi/shared/ipc/client/ClientIPC.cpp:161-205 | the same for a subscription in any run of the whole space, whatever the server broadcasts and any number of other clients register, unregister and pop |
| EventSystem.DrainedAmongClients | psi/src/psi/shared/ipc/client/ClientIPC.cpp:161-205 | with any number of clients, once a client is drained the listener of a subscription was passed exactly the accepted events with the id subscribed to that were not yet matched at that step |
| EventClientModel.NotifyEvent | psi/include/psi/shared/ipc/server/IServerIPCBase.h:41-51 | broadcasts the encoded arguments to every registered client, and tells whether they were written inside the buffer: if and only if they fit EVENT_SZ |
| EventClientModel.ListenerGetsArguments | psi/include/psi/shared/ipc/client/IClientIPC.hpp:177-196 | a listener receives exactly the arguments given to notifyEvent, if and only if they are representable, as all that fit are |
| EventClientModel.EventClient.Subscribe | psi/include/psi/shared/ipc/client/IClientIPC.hpp:165-203 | registers the client if it has no id, and fails with nothing added if it gets none; otherwise adds one listener with the given event id at the end of the list |
| EventClientModel.EventClient.Unsubscribe | psi/src/psi/shared/ipc/client/ClientIPC.cpp:64-69 | frees the id in the space; the client's own id and listeners stay |
| EventClientModel.EventClient.PopView | psi/src/psi/shared/ipc/client/ClientIPC.cpp:163-165 | the locked pop returns a view of the oldest waiting event and takes it off the ring |
| EventClientModel.EventClient.CopyOut | psi/src/psi/shared/ipc/client/ClientIPC.cpp:171-178 | the copy made after unlocking is what the view shows |
| EventClientModel.DrainDelivers | psi/src/psi/shared/ipc/client/ClientIPC.cpp:161-205 | one drain's tasks pass each listener the popped events with its id, in order and each once |
| EventClientModel.EventClient.TakeEvent | psi/src/psi/shared/ipc/client/ClientIPC.cpp:163-178 | takes the oldest waiting event off the ring, unchanged, or finds none |
| EventClientModel.EventClient.FindTargets | psi/src/psi/shared/ipc/client/ClientIPC.cpp:180-186 | the listeners with the event's id, in order |
| EventClientModel.EventClient.ReadEvents | psi/src/psi/shared/ipc/client/ClientIPC.cpp:161-197 | the loop empties the ring and schedules one task per event that has a listener |
| EventClientModel.EventClient.RunTasks | psi/src/psi/shared/ipc/client/ClientIPC.cpp:199-205 | the tasks run in order, each passing its event to all its targets |
| EventClientModel.EventClient.EventFn | psi/include/psi/shared/ipc/client/IClientIPC.hpp:179-196 | decodes the arguments from the zero-padded copy |
| EventRuns.DrainLoopIsRun | psi/src/psi/shared/ipc/client/ClientIPC.cpp:161-197 | the drain loop is a run of EventDelivery and schedules the same tasks |
| EventRuns.LoopAmongBroadcasts | psi/src/psi/shared/ipc/client/ClientIPC.cpp:161-197 | under any interleaving with broadcasts the drain loop schedules exactly the tasks for the events it has matched since it began |
| EventRuns.LoopEndsComplete | psi/src/psi/shared/ipc/client/ClientIPC.cpp:163-169 | when it finds the ring empty, these are all events not matched before, those broadcast meanwhile included |

## Left out

- Shared-memory mapping, OS mutexes and the manager registry: foreign calls; locks are taken to give atomic regions.
- Threads, condition variables, sleeps and the clock: any interleaving is a run, and readings of the clock are parameters.
- The branches with a loop object (`m_loop`), `SafeCaller`, `Attribute` and `Subscription`: their code is not part of this model.
- Disconnect and destruction: the polling thread may end without a final pass, so nothing is claimed at shutdown.
- Event delivery in `EventDelivery` and `EventSystem` is between a registration of the client's id and its next unregistration; the source never removes a listener.
- Connection status, logging, `generateClientId`, `callServerWithReturn`, the service runner: they add easy members only.
- ClientModel.Client.PushCallWithArgs: a frame longer than CALL_SZ is written past the end of the local buffer in the source, which is undefined; here the result says so and the log is left alone. `SizePrediction.MisjudgedIff` says which calls reach that case.
- MemberFnWrapperModel.SendReply: likewise for a reply longer than DATA_SIZE.
- EventClientModel.NotifyEvent: likewise for arguments longer than EVENT_SZ.
- CallRuns.CallIsRun: a call without steps of others between its regions, as one method runs it; with others in between, each region is covered by `Interleaving`.
- PollingRuns.PassIsRun: a pass without steps of others in between, as one method runs it; `Interleaving.PassAmongOthers` has them.
- EventRuns.DrainLoopIsRun: a drain without broadcasts in between, as one method runs it; `EventRuns.LoopAmongBroadcasts` has them. Subscriptions during a drain are in `EventDelivery` only.
- Reading past the end of a buffer is undefined in the source too; it is the result `OutOfBounds` or `ReadOutside`.
- `sizeof(std::string)` and `sizeof(std::vector)` are the 32 and 24 bytes of libstdc++ on a 64-bit platform; scalars are opaque bytes, integers in headers little-endian.
- Overload selection by the C++ compiler: the variadic `serializeType` is modelled as applying each argument's own encoding.
- The row sizes `CALLBACK_SIZE` and `SLOT_SIZE` are 16-bit constants in the source and would wrap for slots of more than 65531 bytes; the model's rows do not.
- The values a failed reply passes besides its code and message are default-constructed and not modelled.
- Completion.Conservation: counts callbacks whose reply was popped, or whose call has no slot yet, as a group of their own, because in those states a callback is neither completed nor the owner of a slot.
