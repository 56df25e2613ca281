# Sommelier proxy model

Sommelier stands between Wayland clients in a virtual machine and the host's
compositor. Both sides number objects independently, so the proxy renames every
object in every message, decides when a number may be used again, carries file
descriptors along an ordered stream, and keeps buffers alive while the compositor
still reads them. This project models those parts and proves what they promise.

Modules, from the bottom up:

- `ShadowTables`: the object table. `Table` is its value; `ShadowTable` is the mutable
  object, each method of which is proved to perform the operation of the same name.
- `DmabufParams`, `Sessions`, `Contexts`: buffer-parameter validation, one client's
  protocol state as a value, and the mutable context whose handlers refine it.
- `Lifecycle`, `Protocol`, `ProtocolSteps`, `Guarantees`: whole runs of the ID protocol.
  The host's view is computed from messages alone; the invariant compares it with the
  proxy's own records.
- `Guests`, `Conversations`, `Requests`, `Refusals`: the guest's account of its objects,
  computed from its requests and what it is told; what every step says to either side, and
  which requests end the connection, in terms of that account.
- `AsyncCreates`, `ReusedNumbers`, `Descriptors`: asynchronous linux-dmabuf creates, and
  conservation of the descriptors they hold.
- `Surfaces`, `RenderBuffers`, `Scenes`, `UseIntervals`, `StaleContents`, `BufferEndings`,
  `Attachments`, `Compositor`: surface commits, buffer use intervals, the compositor's and
  the client's independent accounts of them, what keeps a destroyed buffer, and the handlers.
- `Wire`, `Marshalling`: the wire format, and typed argument lists interpreted over a
  message description.
- `Dispatch`, `Closing`, `Lifetimes`, `Fairness`, `Relays`, `Spinning`, `Turns`,
  `ProxyLoop`: the dispatch loop, who owns each descriptor over whole runs, how long
  messages wait, what is sent on for what arrives, sides wrongly reported ready, the
  client's turns, and the mutable client.
  `SessionLoops` puts the handlers of `Sessions` behind that loop.
- `Translations`, `Forwarding`, `DescriptorArguments`: the emitted dispatch arms, in both
  directions, and which descriptor each argument gets.
- `ControlMessages`, `VirtwlChannel`: the two transports' descriptors.
- `Feedback`, `DamageMapping`: synthetic dmabuf feedback, and damage merging and mapping.

The style is the same throughout: a pure function gives the new state, lemmas say what
that state guarantees, and the imperative code is proved to compute it. System calls
(`dup`, writes, copies, fence waits) enter as parameters for their outcome.

## What the code does not promise

Some properties one would expect fail; each is stated with a concrete input and the
exact condition under which it holds.

- Readiness (`has_complete_message`) reads bytes 4-5 of the header, which is the length
  only with big-endian words. With little-endian words it reads the opcode, so the loop
  can wait with a complete message buffered, or spin: a side wrongly reported ready is
  never received from again (`Spinning.StuckForever`), and turns for it change nothing.
  The code and its comment disagree; the model follows the code.
- The number of a buffer announced for a destroyed params object is never freed unless
  the host sends `delete_id` for it, which it does not owe for numbers of its own range. A
  host that reuses the number loses the client.
- `retire_eligible_buffers` destroys a buffer that is still recorded as a surface's
  contents without clearing that record; the next replacement on the surface is fatal,
  unless the guest has given the number to a buffer that was submitted since, and then that
  buffer's use is marked as replaced (`StaleContents.ReissuedNumberIsReplaced`).
  `StaleContents.ReplacementRefusedIff` is the exact statement.
- A buffer the guest has destroyed can be kept though it was never attached: when it bears
  a number that some surface still records for contents that are gone
  (`BufferEndings.NeverAttachedIsKept`). `BufferEndings.DestroyedBufferIsNeeded` lists all
  that keeps one.
- Buffer damage can be under-reported, for some buffer and destination sizes, when the
  scale is 2 or more and the viewport has only a destination, and when it has a source
  whose scaled start exceeds its truncated start by more than a pixel (for the pixel
  around the damage: when it exceeds it at all), unless no buffer within the damage limit
  can hold such a source. `DamageMapping.ReportsIff` is the exact statement.
- A request that introduces one number twice loses the first host number, and a request
  dropped after a new ID leaves that ID paired with a host number the host never hears of.
- The 64-bit overflow check on a plane's end can never fail.

## Model

| member | source | states |
|---|---|---|
| ProtocolSteps.StepKeepsInv | sommelier/src/state.rs:250-605 | Every request, proxy decision and host event keeps the two ID maps mutually inverse, the four reservation classes disjoint, every unanswered create tracked, every number the host holds reserved, and every number it holds whose object is over, unless the destruction is deferred, among those it has been told to destroy, where what the host holds is computed from the messages it is sent and not from the proxy's own records. |
| ProtocolSteps.RunKeepsInv | sommelier/src/state.rs:250-605 | The same over every run, of any length and interleaving. |
| Protocol.BeginInv | sommelier/src/state.rs:1164-1267 | A new connection satisfies the invariant. |
| Guarantees.HeldIsReserved | sommelier/src/state.rs:343-349 | A number the host still holds is never reported available. |
| Guarantees.NoReuseBeforeDeleteId | sommelier/src/state.rs:181-218 | If one number is introduced to the host twice in a run, the host's `delete_id` for it lies in between, whether the object ended by a destructor request, by `wl_callback.done`, or as a host-only object. |
| Guarantees.DeleteIdFrees | sommelier/src/handler/display.rs:162-204 | An acknowledged number is free at once if and only if no create is still unanswered under it. |
| Guarantees.StepPays | sommelier/src/handler/display.rs:71-98 | In each non-fatal step a client-range guest number becomes free exactly when that step queues its `delete_id`, and then exactly once. |
| Guarantees.EveryLifetimePaidOnce | sommelier/src/handler/display.rs:71-204 | Over every non-fatal run the `delete_id`s queued for a client-range number equal its lifetimes begun, give or take the one in use at either end. |
| AsyncCreates.UnansweredStaysDispatchable | sommelier/src/proxy.rs:85-120 | Until a create is answered its params number dispatches as a params object, neither `created` nor `failed` on it is suppressed as stale, and it is not reissued. |
| AsyncCreates.AnnouncedBufferHasOneOutcome | sommelier/src/handler/linux_dmabuf.rs:1230-1320 | A buffer announced by `created` is either registered with its create's dimensions and synchronization descriptors and exposed under a fresh server-range number, or gets exactly one `wl_buffer.destroy`, stays reserved and is never exposed. |
| AsyncCreates.OrphanedBufferHasOneOutcome | sommelier/src/handler/linux_dmabuf.rs:1230-1264 | Over any run that begins with the announcement of a buffer for a destroyed params object and has no `delete_id` for it, exactly one destroy is sent for the buffer and it is never mapped to a guest number. |
| AsyncCreates.DiscardedBufferIsDestroyedOnce | sommelier/src/state.rs:383-406 | Once a host number waits for its `delete_id`, no step of any run destroys it again or maps it to a guest number. |
| AsyncCreates.FailedCreateHasOneOutcome | sommelier/src/handler/linux_dmabuf.rs:1322-1352 | A failed create is reported to the guest exactly when its params object is alive, and its descriptors are closed then. |
| AsyncCreates.EveryCreateAnsweredOnce | sommelier/src/handler/linux_dmabuf.rs:1160-1352 | Over every run creates and answers on a params number balance: none is answered twice and at most one is outstanding. |
| AsyncCreates.CreatedCommutesWithDeleteId | sommelier/src/handler/linux_dmabuf.rs:1230-1264 | `delete_id` then `created` ends in exactly the state of `created` then `delete_id`. |
| AsyncCreates.FailedCommutesWithDeleteId | sommelier/src/handler/linux_dmabuf.rs:1322-1339 | `delete_id` then `failed` ends in exactly the state of `failed` then `delete_id`. |
| AsyncCreates.LateAnswerSparesOtherGenerations | sommelier/src/handler/linux_dmabuf.rs:1208-1264 | A late answer touches no mapping, record, pending plane, create or descriptor of any other object, such as one that reuses the guest params number. |
| AsyncCreates.LateDeleteIdSparesOtherGenerations | sommelier/src/handler/display.rs:170-204 | A late `delete_id` for an old object neither changes nor acknowledges a newer one under the same guest number. |
| AsyncCreates.AnnouncementAcceptedIff | sommelier/src/handler/linux_dmabuf.rs:1230-1242 | An announcement by a conforming host closes the connection if and only if its buffer number is not available. |
| AsyncCreates.DiscardedNumberIsRefused | sommelier/src/handler/linux_dmabuf.rs:1240-1262 | After a discarded announcement the buffer number, which the host has freed, makes the next announcement that uses it fatal. |
| ReusedNumbers.ReusedBufferNumberClosesConnection | sommelier/src/handler/linux_dmabuf.rs:1230-1262 | A run from a new connection, in which every number is the one the allocators give and the host conforms, with two creates, one params object destroyed and two announcements that use the same freed buffer number, ends with the connection closed. |
| AsyncCreates.DiscardedNumberIsLost | sommelier/src/state.rs:383-406 | Over every run without a `delete_id` for it, the number of a discarded buffer stays reserved. |
| Descriptors.HandleConserves | sommelier/src/handler/linux_dmabuf.rs:549-705 | Every handler conserves descriptors: those held, closed and sent with messages afterwards are those before plus those it obtained. |
| Descriptors.StepConserves | sommelier/src/handler/linux_dmabuf.rs:1053-1443 | So does every step, including one that ends the connection. |
| Descriptors.RunConserves | sommelier/src/handler/linux_dmabuf.rs:1053-1443 | So does every run. |
| Descriptors.EveryDescriptorEndsOnce | sommelier/src/state.rs:628-660 | Whenever a connection ends, dropping the context completes this: every descriptor obtained was closed once or left with one message, as a multiset. |
| Conversations.StepAccounts | wayland_codegen/src/generator.rs:423-720 | Whatever a step that does not end the connection sends, to either side, is what the guest's own account calls for, an account computed from its requests and the messages to it: each new object announced under its number, each destructor passed on under the partner's, an import after its planes, `done` with its data before `delete_id`; and the proxy's records go on agreeing with that account. |
| Requests.RunAgrees | sommelier/src/state.rs:250-605 | Over every run the proxy knows exactly the numbers the guest regards as taken, and server-range buffers whose destruction is deferred, under the partner and, while it lives, the interface each was made with, and keeps exactly the planes it has been given for params objects still to be used. |
| Requests.EveryStepSays | wayland_codegen/src/generator.rs:528-559 | After any run from a new connection, any further step that does not end it says to both sides what the guest's account calls for. |
| Requests.ImportsWhatWasAdded | sommelier/src/handler/linux_dmabuf.rs:1078-1158 | After any run, a create is sent under the host number its params object was made with, after exactly the planes accepted on it since it was made, in order and equal in index, offset, stride and modifier, with the duplicate for the descriptor. The list is computed from the requests alone. |
| Requests.EndedIsDestroyedOrDeferred | sommelier/src/state.rs:367-406 | After any run, the host still holds the number of every object whose destructor the guest has sent and that has not been deleted, and it has been told to destroy it exactly when that is not deferred; and it has been told of every number it holds that waits for its `delete_id`. |
| Refusals.DestructorIsPassedOn | wayland_codegen/src/generator.rs:528-559 | After any run, a destructor for an object the guest has alive sends exactly one message, the destructor of its partner, and leaves that number waiting for `delete_id`. |
| Refusals.RefusedIff | sommelier/src/handler/linux_dmabuf.rs:1078-1228 | Any step but the announcement of a buffer, for which see `AsyncCreates.AnnouncementAcceptedIff`, ends the connection exactly when the guest's account refuses the request: an object that is not alive, a number in use, a params object already used, a plane index too large or repeated, an import that is faulty or whose descriptors cannot be duplicated. The guest is told exactly the error that goes with the reason, and nothing is sent to the host. |
| Refusals.EveryRequestRefusedIff | wayland_codegen/src/generator.rs:528-545 | The same after any run from a new connection, so the guest can tell beforehand from what it has sent and heard. |
| Requests.StaleIff | sommelier/src/proxy.rs:85-120 | An event is dropped unseen exactly when the guest has ended its object, except for both answers to a create, and for the release of a buffer whose destruction the host has not been told of. |
| Requests.FactoriesPassVersions | wayland_codegen/src/generator.rs:453-489 | A forwarded new object gets, on each side, the version its factory has there, and the versions of all other objects stay. |
| Requests.ParamsPassVersions | sommelier/src/handler/linux_dmabuf.rs:1354-1443 | So does a buffer made at once from a params object. |
| Requests.AnnouncedVersions | wayland_codegen/src/generator.rs:650-669 | So does a buffer announced for a params object. |
| ShadowTables.FirstFreeUnique | sommelier/src/state.rs:181-248 | There is at most one first free number in cyclic order, so the allocators' contracts determine their results. |
| ShadowTables.NextIsAnother | sommelier/src/state.rs:181-248 | Neither allocator issues a number twice in a row unless no other number is free: the cursor it leaves reaches that number last. |
| ShadowTables.ShadowTable.AllocateHostId | sommelier/src/state.rs:181-218 | Returns the first available number at or after the cursor in cyclic order over 2 to 2^32-1, moves only the cursor, and fails only if none is available. |
| ShadowTables.ShadowTable.AllocateGuestServerId | sommelier/src/state.rs:227-248 | The same over exactly the 2^24 server-range numbers; the cursor stays in that range. |
| ShadowTables.MapIdKeepsInverse | sommelier/src/state.rs:250-264 | Remapping any two numbers keeps the maps mutually inverse, installs the pair, and disturbs no pair that shares neither number. |
| ShadowTables.MapIdKeeps | sommelier/src/state.rs:250-264 | Mapping to a free host number leaves every other guest number's mapping alone. |
| ShadowTables.RemovalsKeepInverse | sommelier/src/state.rs:532-583 | All three removals keep the maps mutually inverse. |
| ShadowTables.ShadowTable.constructor | sommelier/src/state.rs:163-179 | An empty table with both cursors at the start of their ranges. |
| ShadowTables.ShadowTable.MapId | sommelier/src/state.rs:250-264 | The statements of the update amount to `Table.MapId`, about which `MapIdKeepsInverse` speaks. |
| ShadowTables.ShadowTable.TrackInterface | sommelier/src/state.rs:429-434 | Keeps a version that is already known. |
| ShadowTables.ShadowTable.TrackInterfaceWithVersion | sommelier/src/state.rs:436-439 | Replaces interface and version. |
| ShadowTables.ShadowTable.TrackHostInterfaceWithVersion | sommelier/src/state.rs:449-457 | Records a host-only object. |
| ShadowTables.ShadowTable.SetHostVersion | sommelier/src/state.rs:462-464 | Replaces the host-side version. |
| ShadowTables.ShadowTable.MarkPendingDestroy | sommelier/src/state.rs:372-376 | Marks only numbers that are mapped. |
| ShadowTables.ShadowTable.MarkPendingDestroyHost | sommelier/src/state.rs:383-392 | Moves a host-only number, and no paired one, to the pending class; answers whether it is new there. |
| ShadowTables.ShadowTable.ConsumeHostDeleteId | sommelier/src/state.rs:404-406 | Leaves the pending class; answers whether it was there. |
| ShadowTables.ShadowTable.ClearPendingDestroyGuest | sommelier/src/state.rs:419-421 | Leaves the guest-side pending class. |
| ShadowTables.ShadowTable.RemoveHostInterface | sommelier/src/state.rs:494-499 | Forgets a host number in every reservation class but the pairs. |
| ShadowTables.ShadowTable.RetireHostInterface | sommelier/src/state.rs:505-510 | Moves a host number to the retired class. |
| ShadowTables.ShadowTable.RemoveId | sommelier/src/state.rs:532-541 | Forgets a pair and everything recorded under it. |
| ShadowTables.ShadowTable.RemoveGuestMapping | sommelier/src/state.rs:550-568 | Forgets the guest side and keeps the host number reserved under its interface. |
| ShadowTables.ShadowTable.RetireServerDestroyedObject | sommelier/src/state.rs:578-583 | Forgets the guest side and leaves the host number pending until `delete_id`. |
| ShadowTables.ShadowTable.RetireGuestObject | sommelier/src/state.rs:595-605 | Forgets the guest object and keeps the pair pending under its interface. |
| Contexts.Context.constructor | sommelier/src/state.rs:1164-1267 | A context holding only the display pair. |
| Contexts.Context.ForwardNew | wayland_codegen/src/generator.rs:453-489 | A forwarded request with a new ID: refused without effect, or paired with the first free host number and sent. |
| Contexts.Context.DisplayNew | sommelier/src/handler/display.rs:122-160 | `get_registry` and `sync` pair the guest number with the first free host number and send one request. |
| Contexts.Context.ForwardDestroy | wayland_codegen/src/generator.rs:499-561 | A forwarded destructor: a server-range object is forgotten at once, any other waits for `delete_id`; a params object takes its planes and pending create along. |
| Contexts.Context.OnParamsDestroy | sommelier/src/handler/linux_dmabuf.rs:1053-1076 | Closes the params object's planes and turns an unanswered create into an orphan. |
| Contexts.Context.CompleteBufferDestroy | sommelier/src/state.rs:1078-1101 | Sends one `destroy`; a server-range buffer is forgotten, one the proxy does not know ends the connection. |
| Contexts.Context.DestroyBuffer | sommelier/src/handler/shm.rs:2157-2194 | Destroys a buffer now, or retires the guest object and defers the host's. |
| Contexts.Context.QueueLocalDeleteId | sommelier/src/handler/display.rs:91-98 | Acknowledges and forgets an object the proxy serves itself. |
| Contexts.Context.DestroyWithoutHostDestructor | sommelier/src/handler/text_input.rs:1646-1695 | Acknowledges the guest object and keeps the host number, which has no destructor, reserved. |
| Contexts.Context.BindHostOnly | sommelier/src/handler/registry.rs:297-321 | A host-only object or barrier callback under the first free host number. |
| Contexts.Context.DestroyHostOnly | sommelier/src/handler/registry.rs:363-375 | Sends the destructor and leaves the number pending. |
| Contexts.Context.OnCreateParams | sommelier/src/handler/linux_dmabuf.rs:716-729 | Starts a new generation with no planes, closing those of a previous one. |
| Contexts.Context.OnAdd | sommelier/src/handler/linux_dmabuf.rs:1078-1158 | Stores the plane under a duplicate descriptor, or reports the declared error for it. |
| Contexts.Context.ProcessParams | sommelier/src/handler/linux_dmabuf.rs:549-638 | Sends the stored planes and then the create, or nothing; the planes' descriptors leave with the messages. |
| Contexts.Context.OnCreate | sommelier/src/handler/linux_dmabuf.rs:1160-1228 | Validates, reports the exact error code, or sends the planes and the create and records it as unanswered. |
| Contexts.Context.OnCreateImmed | sommelier/src/handler/linux_dmabuf.rs:1354-1443 | Validates, and pairs the buffer number with the first free host number only when the create is sent. |
| Contexts.Context.OnDone | sommelier/src/handler/callback.rs:26-110 | A guest callback is answered, acknowledged and left pending on the host side; a barrier only leaves its number pending. |
| Contexts.Context.OnDeleteId | sommelier/src/handler/display.rs:162-204 | Ends a pending reservation, an orphan's guest side, or a pair, and acknowledges the guest object if there is one. |
| Contexts.Context.DiscardHostBuffer | sommelier/src/handler/linux_dmabuf.rs:1240-1262 | An announced buffer nobody wants is destroyed once and stays reserved. |
| Contexts.Context.ExposeBuffer | wayland_codegen/src/generator.rs:650-669 | A forwarded `created` exposes the buffer under the first free server-range number. |
| Contexts.Context.OnCreated | sommelier/src/handler/linux_dmabuf.rs:1230-1320 | The whole new state of `created`, branch by branch. |
| Contexts.Context.OnFailed | sommelier/src/handler/linux_dmabuf.rs:1322-1352 | The whole new state of `failed`. |
| DmabufParams.PlaneEndNeverOverflows | sommelier/src/handler/linux_dmabuf.rs:397-418 | With 32-bit offsets and strides the end of a plane stays below 2^64, so the checked arithmetic never fails. |
| DmabufParams.PlaneHoldsItsSamples | sommelier/src/handler/linux_dmabuf.rs:382-395 | The rows of a plane are exactly its samples: 8 bits a pixel and then 4, in half as many rows, for NV12, 16 for RGB565, 32 for the others; and a plane has no layout exactly when the format has no such plane or, for NV12, a dimension is odd. |
| DmabufParams.ValidPlaneIff | sommelier/src/handler/linux_dmabuf.rs:397-418 | A plane is in bounds exactly when its stride holds its rows. |
| DmabufParams.ParamsAcceptedIff | sommelier/src/handler/linux_dmabuf.rs:650-670 | An import is accepted exactly for positive dimensions, a supported format, all of its planes and their descriptors, each plane once and with room for its rows. |
| DmabufParams.CodeNamesFault | sommelier/src/handler/linux_dmabuf.rs:672-705 | The code of a refused import names its fault: 5 exactly for dimensions, 4 exactly for the format, 3 for a wrong number of planes or a missing descriptor, and otherwise 1, 2 or 6 according to whether the first faulty plane has an index the format lacks, repeats one, or does not hold its rows. |
| DmabufParams.PlaneErrorCodeMeans | sommelier/src/handler/linux_dmabuf.rs:672-705 | The error code is one of 1, 2, 3, 6 and is 3 exactly when every plane is in range, unique and valid. |
| DmabufParams.RejectionCodeIsExact | sommelier/src/handler/linux_dmabuf.rs:650-705 | A complete plane list is reported as incomplete only when its sole fault is a missing descriptor. |
| Dispatch.FragmentationDoesNotMatter | sommelier/src/proxy.rs:364-688 | However an error-free stream is split into receives and batches, once no complete message is left the context, forwarded bytes and descriptors, replies and queued descriptors equal those of handling the whole stream message by message. |
| Dispatch.DescriptorsStayAligned | sommelier/src/proxy.rs:417-532 | The k-th descriptor the handlers report as consumed is the k-th received, whatever the fragmentation. |
| Relays.EverythingIsForwarded | sommelier/src/proxy.rs:539-603 | However an error-free stream arrives and batches fall, the bytes and descriptors collected for the other side are, message by message in the order of arrival, the forwarded copy under its target's sender and then everything the handler queued that way; what is queued back is collected likewise. The replies are found by asking the handlers along the stream, not by the loop. |
| Relays.LoopSays | sommelier/src/proxy.rs:376-615 | The same of one call of the message loop, also when it ends early, and it succeeds exactly when no reply is an error. |
| Relays.BatchSays | sommelier/src/proxy.rs:621-670 | What one batch puts on either connection is that, with descriptors only if there are bytes to carry them. |
| DescriptorArguments.ArgumentsFollowArrivals | sommelier/src/proxy.rs:417-532 | For arms that decode their message by its description: however bytes and descriptors arrive and batches fall, the descriptor arguments decoded in one direction over a run are the descriptors that arrived on that side, in order, and those not yet decoded wait behind them. |
| DescriptorArguments.ArmsDecode | wayland_codegen/src/generator.rs:528-720 | Every table of forwarding arms is of this kind, whichever events it suppresses as stale: what an arm that is not rejected uses is what decoding its message takes. |
| DescriptorArguments.HandleArm | wayland_codegen/src/generator.rs:528-720 | Running an emitted arm, or consuming its stale event, reports to the loop exactly the reply the other two rows speak of and leaves the table that reply names, with offers that are fair. |
| Dispatch.UntrackedLeavesAmbiguity | sommelier/src/proxy.rs:489-532 | An untracked event consumes nothing and marks the connection ambiguous exactly when descriptors are queued. |
| Dispatch.AmbiguityIsFinal | sommelier/src/proxy.rs:417-424 | From then on no message consumes a descriptor, in this call or any later one. |
| Dispatch.PatchedIsFromTarget | sommelier/src/proxy.rs:539-545 | Overwriting the sender with the one captured before dispatch makes the forwarded message that partner's and changes nothing else. |
| Dispatch.BuiltMessageIsFramed | sommelier/src/proxy.rs:387-415 | A built message is split off the front of any stream, with its sender, opcode and payload. |
| Dispatch.FramedIsBuilt | sommelier/src/proxy.rs:387-415 | And whatever is split off is the built form of its message. |
| Dispatch.SplitUndoesJoin | sommelier/src/proxy.rs:387-415 | A concatenation of built messages is split into exactly those messages. |
| Dispatch.BuildsIff | sommelier/src/wire.rs:308-326 | A message can be built if and only if its length fits the 16-bit field and is whole words; it is then its sender, a word with its length above its opcode, and its payload. |
| Dispatch.ReadyIsProgressBigEndian | sommelier/src/connection.rs:279-289 | With big-endian words a connection is reported ready if and only if the next step consumes a message or fails. |
| Dispatch.ReadyIsProgressLittleEndianIff | sommelier/src/connection.rs:279-289 | With little-endian words the probe reads the opcode; it is right if and only if opcode and length field lead to the same answer. |
| Dispatch.LittleEndianSpins | sommelier/src/connection.rs:279-289 | A header for which it is wrongly ready, and no batch makes progress. |
| Dispatch.LittleEndianMisses | sommelier/src/connection.rs:279-289 | A complete message for which it is wrongly not ready. |
| Spinning.StuckIff | sommelier/src/connection.rs:279-289 | A side is reported ready without a complete message never with big-endian words, and with little-endian words if and only if its opcode passes for a settled length and its length field does not. |
| Spinning.StuckBatchIsIdle | sommelier/src/proxy.rs:364-688 | A batch for such a side succeeds, sends nothing and leaves both connections, the context and every descriptor as they were. |
| Spinning.StuckForever | sommelier/src/proxy.rs:262-291 | Over every run in which only sides not reported ready are received from, such a side is never received from again, whatever the other side does, so its message is never completed. |
| Dispatch.ReadyBatchesShorten | sommelier/src/proxy.rs:197-252 | Where readiness means progress, each buffered batch strictly shortens the stream or ends the connection. |
| Dispatch.BatchHandles | sommelier/src/proxy.rs:612-614 | A batch handles all buffered messages or exactly its bound of 32. |
| Fairness.TakesTurns | sommelier/src/proxy.rs:197-291 | In any fair sequence of turns a side with more to offer alternates with the other one, and each of its turns handles a full batch. |
| Fairness.WaitIsBounded | sommelier/src/proxy.rs:197-291 | The j-th message complete on one side at some turn has been handled, or the other side has had at most j/32 turns rounded up since then, one fewer if this side was to be chosen first. |
| Fairness.ArrivalsOnlyAdd | sommelier/src/connection.rs:349-411 | Bytes that arrive never make a complete message incomplete. |
| ProxyLoop.Connection.HasCompleteMessage | sommelier/src/connection.rs:279-289 | The probe is the `Ready` the theorems above speak about. |
| ProxyLoop.Connection.Send | sommelier/src/connection.rs:291-347 | However the transport splits the writes, success sends exactly the data and the descriptors once; failure sends a prefix. It succeeds exactly when the transport carries the data and the descriptors fit one message. |
| ControlMessages.RightsRoundTrip | sommelier/src/connection.rs:74-200 | Whatever chain of control messages the kernel writes, the decoder collects exactly the descriptors of its rights messages, in order. |
| ControlMessages.ChainIsDecoded | sommelier/src/connection.rs:103-189 | The same from any message of the chain on, behind whatever was collected before. |
| ControlMessages.FoundBeforeFault | sommelier/src/connection.rs:103-189 | Whatever follows a chain, well formed or not, every descriptor of the chain has been found by then, so it is returned or closed. |
| ControlMessages.DecodeUnixControlFds | sommelier/src/connection.rs:74-200 | Every descriptor the decoder comes across is returned, or closed once when the data is malformed or was cut off; it fails in no other case. |
| ControlMessages.TakeMessage | sommelier/src/connection.rs:103-180 | One message: bad lengths, misaligned rights and address overflow are refused. |
| ControlMessages.ReadDescriptors | sommelier/src/connection.rs:159-162 | The descriptors of one payload, in order. |
| ProxyLoop.Client.Run | sommelier/src/proxy.rs:197-252 | In either byte order the loop performs a run of the two connections as `Lifetimes` defines it, and a side gets two turns in a row only while the other is not reported ready. With big-endian words it also ends by itself once nothing more arrives, since every turn consumes an arrival or shortens a buffer, and every message of its turns waits no longer than `Fairness.WaitIsBounded` says. What it has sent when no send failed is, on either connection, what the handlers answered along its turns, in order (`Relays.Relayed`). In either order only a side that is not reported ready is received from; and if one side is reported ready with an incomplete message while the other has nothing to offer and its peer is silent, every turn up to any limit serves that side, receives nothing and leaves both connections, the context and every descriptor unchanged. |
| ProxyLoop.Client.NextBufferedDirection | sommelier/src/proxy.rs:262-291 | The preferred side if it is ready, else the other one unless a single probe makes the preferred side ready; the probe happens only when the other side is ready. |
| ProxyLoop.Client.TakeTurn | sommelier/src/proxy.rs:364-688 | A turn leaves the other side's buffer alone and handles all that is complete, up to 32 messages, or fails; with big-endian words a ready side's buffer gets shorter; a turn for a side wrongly reported ready succeeds. |
| ProxyLoop.Client.Serve | sommelier/src/proxy.rs:197-260 | A whole connection, from its first turn to the drop of both connections and the context: if descriptors arrive under unused numbers and the handlers are honest, everything received or obtained has been closed exactly once. |
| ProxyLoop.Client.Shutdown | sommelier/src/connection.rs:427-436 | Dropping the two connections and then the context closes what each still holds, once. |
| ProxyLoop.Client.Abandon | sommelier/src/proxy.rs:69-83 | After an error only what handlers queued is closed; what was received stays buffered and unsent messages stay in the context. |
| ProxyLoop.Client.Finish | sommelier/src/proxy.rs:621-688 | After the sends, successful or not, everything consumed, sent or replied is closed once and leaves the buffers. |
| Closing.CloseEach | sommelier/src/proxy.rs:69-83 | Closes every valid descriptor listed and not spared exactly once, however often it is listed. |
| Lifetimes.BatchKeepsSound | sommelier/src/proxy.rs:364-688 | Success, failed send, fatal report and protocol error all keep the books: everything ever received or obtained by a handler is closed or open in exactly one place, in the context, its queues or one connection; and nothing a batch closes is still owned anywhere afterwards. |
| Lifetimes.RunKeepsSound | sommelier/src/proxy.rs:197-260 | So does every run of receives and batches on both connections. |
| Lifetimes.EveryDescriptorClosedOnce | sommelier/src/proxy.rs:197-260 | After any run, however it ends, dropping both connections and the context brings the closes to exactly what was received or obtained, with multiplicity, and closes nothing twice. |
| SessionLoops.SessionsAreHonest | sommelier/src/handler/linux_dmabuf.rs:549-705 | The ID-lifecycle handlers meet what the run-level account asks of handlers, given only that the kernel hands out unused numbers; the kernel's answers may differ between equal messages. |
| SessionLoops.SessionDescriptorsClosedOnce | sommelier/src/state.rs:628-660 | A connection served by those handlers, from its start to its last drop: every descriptor received from either peer or duplicated by a handler is closed exactly once. |
| ProxyLoop.Client.Deliver | sommelier/src/proxy.rs:621-670 | It succeeds exactly when both connections carry what they are given; then the forwarded batch and then the replies have been sent whole, each with its descriptors. |
| ProxyLoop.Client.TakeOne | sommelier/src/proxy.rs:387-611 | One iteration of the loop performs one `Step` of the model. |
| ProxyLoop.Client.Collect | sommelier/src/proxy.rs:376-615 | The loop over a batch performs `Loop` of the model. |
| ProxyLoop.Client.HandleMessages | sommelier/src/proxy.rs:364-688 | A batch as a whole: its effect on both connections, the context and every descriptor is that of `Lifetimes.Advance`, and on success exactly what the handlers answered along the batch has been sent each way; a batch that fails before its sends has sent nothing. |
| UseIntervals.StepKeepsInv | sommelier/src/state.rs:2217-2335 | Every surface, buffer and release handler keeps the proxy's use states in agreement with the compositor's own uses, which are computed from the messages. |
| UseIntervals.StepIsSafe | sommelier/src/handler/shm.rs:1243-1307 | Every `wl_buffer.destroy` sent names a buffer the compositor no longer reads on any surface and no uncommitted attach is about to show. |
| UseIntervals.RunKeepsInv | sommelier/src/state.rs:2089-2335 | The agreement holds over every run. |
| UseIntervals.IdlePhasesAreIdle | sommelier/src/state.rs:2217-2335 | A buffer counts as never submitted, released or destroyed only when no use of it is outstanding anywhere. |
| UseIntervals.ReplacedUseEndsOnlyByRelease | sommelier/src/state.rs:1030-1058 | A use whose buffer was replaced stays open through any run without the compositor's release, whatever surfaces are destroyed. |
| UseIntervals.OtherSurfacesKeepTheirUse | sommelier/src/handler/compositor.rs:687-788 | After `wl_surface.destroy` every buffer that another surface shows, or that lingers after a replacement, has the same entry in the proxy's registry, still awaiting its release, and no destroy has been sent for it. |
| UseIntervals.UseEndsOnlyWithItsSurface | sommelier/src/handler/compositor.rs:687-788 | Over every run without the compositor's release and without the destruction of its own surface, a use stays open in the proxy's registry. |
| UseIntervals.FailedCommitChangesNothing | sommelier/src/handler/compositor.rs:916-1084 | Any failed commit restores the surface, begins and ends no use and sends nothing; it leaves the connection open if and only if the copy failed or an invalid fractional source has no viewport object. |
| UseIntervals.FailedCopyIsRetried | sommelier/src/handler/compositor.rs:544-684 | A failed copy leaves the full-copy flag set and the attach pending, and touches no other buffer. |
| UseIntervals.SucceededCommitAppliesAll | sommelier/src/handler/compositor.rs:916-1084 | A successful commit applies the whole pending state and appends its damage followed directly by the commit. |
| UseIntervals.SucceededCommitMovesBothUses | sommelier/src/state.rs:1042-1058 | It begins the new buffer's use, marks the old one's as detached, and touches no other buffer. |
| StaleContents.RunKeepsShows | sommelier/src/handler/compositor.rs:916-1084 | Over every run, contents the proxy records are contents by the messages sent, and until their buffer is destroyed the proxy keeps that buffer under the recorded number and can detach it. |
| StaleContents.ReplacementRefusedIff | sommelier/src/state/render.rs:813-841 | In every scene a connection can reach, replacing a surface's contents by an existing buffer or by none is refused if and only if the buffer last committed to it has been destroyed, its number is still recorded, and that number does not by now name another buffer that has been submitted. |
| StaleContents.ReissuedNumberIsReplaced | sommelier/src/state/render.rs:813-841 | An ordinary run in which the replacement is accepted although the contents' buffer has been destroyed: its number has been given to a buffer another surface shows, and that buffer's use is marked as replaced. |
| Attachments.StepTells | sommelier/src/handler/compositor.rs:687-1084 | In terms of the client's own account of its buffers, every step sends what its request calls for (the attach under the buffer's host number, the damage and the commit if the commit is carried out, the surface's destructor), then destructors of distinct buffers none of which is alive, and nothing else; and the proxy goes on accepting exactly the client's live buffers. |
| Attachments.BeginKnows | sommelier/src/state.rs:1164-1267 | A connection without buffers agrees with the empty account. |
| Attachments.RunKnows | sommelier/src/handler/compositor.rs:790-836 | Over every run the proxy lets the client name exactly the buffers it has made and not destroyed, under their host numbers and with their dimensions and kind of storage. |
| Attachments.AttachAcceptedIff | sommelier/src/handler/compositor.rs:790-836 | An attach is accepted exactly for a live buffer or none, with an offset only where the surface's version has one; it is sent under the buffer's host number and recorded as the surface request of `Surfaces`. Any other changes nothing and ends the connection. |
| Attachments.CarriedOutIff | sommelier/src/handler/compositor.rs:916-1084 | A commit is carried out exactly when it leaves no unscaled fractional source, its damage was encoded, the pixels of an attached copied buffer were copied, the fence of an attached native one was passed, and contents to be replaced are not stale; and it ends the connection exactly when the damage was not encoded or, everything copied, the fence or the replacement failed, or a viewport object is there to blame for the source. |
| Attachments.ReleaseTells | sommelier/src/handler/shm.rs:2196-2229 | After a release the buffer awaits none, and nothing is sent but at most its destructor. |
| BufferEndings.RunSettles | sommelier/src/handler/shm.rs:1259-1281 | Over every run no destroyed buffer is left idle, and every use that no replacement has detached belongs to some surface's contents. |
| BufferEndings.DestroyedBufferIsNeeded | sommelier/src/handler/shm.rs:2157-2229 | In every scene a connection can reach, a buffer the guest has destroyed and that is still registered awaits its release, or is in an uncommitted attach, or has never been shown and bears a number that some surface still records for contents that have been destroyed. |
| BufferEndings.NeverAttachedIsKept | sommelier/src/handler/shm.rs:2157-2194 | An ordinary run that ends in the third case: a buffer that was never attached is destroyed by the guest and kept. |
| BufferEndings.ReleaseCompletes | sommelier/src/handler/shm.rs:2196-2229 | A release of a guest-destroyed buffer no surface has pending sends exactly one destroy for it, leaves no surface with it as contents and touches no other buffer; any other release only ends the use. |
| BufferEndings.DestroyCompletesIff | sommelier/src/handler/shm.rs:2157-2194 | A destroy is carried out at once, with one message and no surface left with the buffer as contents, exactly when the buffer awaits no release, is in no uncommitted attach, and is not a never-shown one that some surface records; otherwise it sends nothing and keeps the use. |
| UseIntervals.RetiredContentsBlockReplacement | sommelier/src/handler/shm.rs:1259-1281 | Retiring a released buffer, of either number range, that is still a surface's contents makes the next replacement on that surface fail. |
| UseIntervals.ReattachDestroyReplaceIsFatal | sommelier/src/handler/shm.rs:1259-1281 | An ordinary run from an empty context that ends fatally for this reason. |
| RenderBuffers.ReplacementIsAllOrNothing | sommelier/src/state/render.rs:813-841 | A replacement is accepted exactly when it leaves the new buffer awaiting its release and the old one with nothing left to miss; otherwise it touches no buffer. |
| RenderBuffers.RenderBufferRegistry.Register | sommelier/src/state/render.rs:611-642 | Only a host number not yet registered. |
| RenderBuffers.RenderBufferRegistry.Submit | sommelier/src/state/render.rs:731-746 | Begins a use of a live or deferred buffer. |
| RenderBuffers.RenderBufferRegistry.Release | sommelier/src/state/render.rs:748-761 | Ends exactly an awaited use. |
| RenderBuffers.RenderBufferRegistry.DetachUse | sommelier/src/state/render.rs:763-779 | Marks the use as detached; a released one stays released. |
| RenderBuffers.RenderBufferRegistry.EndLastSurfaceUse | sommelier/src/state/render.rs:781-806 | Ends a use only if no other surface holds the buffer and none was detached. |
| RenderBuffers.RenderBufferRegistry.FinalizeAttachment | sommelier/src/state/render.rs:813-841 | Prepares both edges before it applies either. |
| RenderBuffers.RenderBufferRegistry.MarkGuestDestroyed | sommelier/src/state/render.rs:843-857 | Defers a live buffer, keeping its use. |
| RenderBuffers.RenderBufferRegistry.MarkHostDestroyQueued | sommelier/src/state/render.rs:859-868 | Accepts an active buffer once. |
| Compositor.Handlers.OnAttach | sommelier/src/handler/compositor.rs:790-836 | Refuses a dead buffer or a version-5 offset; otherwise records and forwards the attach and retires exactly the idle buffers. |
| Compositor.Handlers.OnCommit | sommelier/src/handler/compositor.rs:916-1084 | The commit, followed by retiring exactly the buffers idle after it. |
| Compositor.Handlers.ApplyCommit | sommelier/src/handler/compositor.rs:916-1084 | Prepares, copies, synchronizes, replaces and sends, or rolls back. |
| Compositor.Handlers.Transfer | sommelier/src/handler/compositor.rs:992-1058 | The fallible part, with the first failure it meets. |
| Compositor.Handlers.Rollback | sommelier/src/state/render.rs:370-372 | Restores the surface as it was before the commit was prepared. |
| Compositor.Handlers.CopySurfaceBuffer | sommelier/src/handler/compositor.rs:544-684 | The outcome of copying an attached buffer, and its full-copy flag. |
| Compositor.Handlers.FinalizeSurfaceAttachment | sommelier/src/state.rs:1042-1058 | Replaces both buffers' uses or neither's. |
| Compositor.Handlers.OnDestroySurface | sommelier/src/handler/compositor.rs:687-788 | Ends the surface's own use if it was the last, and retires exactly the idle buffers. |
| Compositor.Handlers.OnDestroyBuffer | sommelier/src/handler/shm.rs:2157-2194 | Defers while a use or attach is open; otherwise destroys at once. |
| Compositor.Handlers.OnRelease | sommelier/src/handler/shm.rs:2196-2229 | Records the release and completes a deferred destroy unless an attach is pending. |
| Compositor.Handlers.RetireEligibleBuffers | sommelier/src/handler/shm.rs:1259-1281 | Destroys each buffer nothing needs any more exactly once, in the order found. |
| Compositor.Handlers.CompleteQueuedBufferDestroy | sommelier/src/state.rs:1078-1101 | Sends one destroy and forgets or marks the buffer. |
| Surfaces.CommitAppliesRequests | sommelier/src/state/render.rs:435-472 | Over every sequence of requests, deferring them to the commit has the effect of carrying them out at once in order; the buffer is placed by the last explicit offset, else by the last attach. |
| Surfaces.CommitCollectsDamage | sommelier/src/state/render.rs:176-208 | Every positive damage rectangle asked for since the last commit is in what the commit consumes, or that is the whole surface. |
| Surfaces.CommitIsIdempotent | sommelier/src/state/render.rs:435-472 | A commit with nothing pending changes nothing. |
| Surfaces.PushKeepsDamage | sommelier/src/state/render.rs:176-188 | Adding damage stays within the cap and loses no earlier rectangle except by collapsing to full damage. |
| Marshalling.ArgumentsReadBack | wayland_codegen/src/generator.rs:298-343 | For every list of typed arguments, anywhere in a stream, reading what was written gives the arguments cut at NULs, ends exactly where they end and takes their descriptors in order. |
| Marshalling.RoundTripIff | wayland_codegen/src/generator.rs:298-343 | The arguments come back unchanged if and only if no text contains a NUL. |
| Marshalling.CutAllKeepsIff | sommelier/src/wire.rs:133-182 | Cutting at NULs changes nothing if and only if there are none. |
| Marshalling.WriteArguments | wayland_codegen/src/generator.rs:319-343 | The emitted writers append exactly the encoding and the descriptors. |
| Marshalling.ReadArguments | wayland_codegen/src/generator.rs:298-317 | The emitted readers compute `ReadAll` and leave the reader where it ends. |
| Marshalling.ReadArgument | wayland_codegen/src/generator.rs:298-317 | One reader call. |
| Marshalling.WriteArgument | wayland_codegen/src/generator.rs:319-343 | One writer call. |
| Marshalling.UntypedNewIdLayout | wayland_codegen/src/generator.rs:319-343 | An untyped new ID is its interface name as a string, a version word and the number. |
| Wire.BlockLayout | sommelier/src/wire.rs:261-292 | A string or array is a length word, the bytes, and fewer than four zeros up to a word boundary. |
| Wire.ArrayAcceptedIff | sommelier/src/wire.rs:193-218 | An array is read exactly where a length word, that many bytes and room for the padding stand. |
| Wire.TextAcceptedIff | sommelier/src/wire.rs:133-182 | Text is read exactly where such a block ends in a NUL and is UTF-8 up to its first one, and no text exactly where the length is 0 and that is allowed. |
| Wire.Utf8Iff | sommelier/src/wire.rs:133-182 | The text accepted is exactly the UTF-8 encodings of sequences of code points (section 3 of RFC 3629). |
| Wire.StringReadsBack | sommelier/src/wire.rs:133-182 | Text reads back up to its first NUL, so whole if and only if it has none. |
| Wire.ArrayReadsBack | sommelier/src/wire.rs:193-218 | Arrays read back whole with their padding. |
| Wire.Utf8BeforeNul | sommelier/src/wire.rs:133-182 | Text cut at a NUL is still valid UTF-8. |
| Wire.U32RoundTrip | sommelier/src/wire.rs:102-117 | A word reads back in either byte order; its bytes are its digits to base 256, least significant first or last. |
| Wire.WireMessage.NextU32 | sommelier/src/wire.rs:102-117 | Fails without moving when fewer than 4 bytes are left. |
| Wire.WireMessage.NextI32 | sommelier/src/wire.rs:119-131 | The same word as a signed number. |
| Wire.WireMessage.NextArray | sommelier/src/wire.rs:193-218 | Needs the padding to be present. |
| Wire.WireMessage.NextStringValue | sommelier/src/wire.rs:133-182 | Length 0 is null or an error; needs the terminator, ends at the first NUL, must be UTF-8. |
| Wire.WireMessage.NextFd | sommelier/src/wire.rs:220-228 | The next descriptor in order, or an error. |
| Wire.MessageBuilder.WriteU32 | sommelier/src/wire.rs:248-250 | Appends one word. |
| Wire.MessageBuilder.WriteI32 | sommelier/src/wire.rs:252-259 | Appends one word, also for fixed-point values. |
| Wire.MessageBuilder.WriteArray | sommelier/src/wire.rs:282-292 | Appends length, bytes and padding. |
| Wire.MessageBuilder.WriteString | sommelier/src/wire.rs:261-273 | Appends length with terminator, text, NUL and padding. |
| Wire.MessageBuilder.WriteFd | sommelier/src/wire.rs:294-296 | Appends one descriptor. |
| Wire.MessageBuilder.TryBuildMessage | sommelier/src/wire.rs:308-326 | A header with sender, length and opcode before the payload, or the error. |
| Forwarding.ForwardedMeansTheSame | wayland_codegen/src/generator.rs:423-720 | A sent request or event is one whole message from the sender's partner with the same opcode and exactly the descriptors read; read on the other side by the same description, its arguments rename back to the original ones through the table it leaves if and only if no two introduce the same number and none is the sender of a destructor that ended its pair. Every object argument that is not null names, on that side, the partner of a live object of the declared interface. |
| Forwarding.GivenUpMeans | wayland_codegen/src/generator.rs:423-491 | An accepted event is never given up; an accepted request is given up if and only if it names an object the proxy serves itself. |
| Forwarding.AcceptedIff | wayland_codegen/src/generator.rs:904-1063 | By the records of the table alone, a message passes if and only if its sender is known and alive and its recorded version new enough, every new ID is unused and in the sender's range, and every object argument is null where that is allowed, or alive and recorded under exactly the declared interface, and, for requests, known to the host or served by the proxy. |
| Forwarding.RefusalNames | wayland_codegen/src/generator.rs:904-1063 | The error names the first fault: the versions when the sender is too old, the sender or the first bad argument otherwise; only events are discarded. |
| Forwarding.SendsIff | wayland_codegen/src/generator.rs:528-720 | A message is sent exactly when it passes, its sender has a partner, no argument is an object of the proxy's own, and the renamed message fits a header; the proxy ends the sender itself exactly for a destructor that passes and whose sender has no partner. |
| Forwarding.DestructorEnds | wayland_codegen/src/generator.rs:499-561 | A sent message leaves its sender's pair alone unless it is a destructor; then a client-range sender waits for `delete_id` with its pair, and any other is forgotten on both sides. |
| Forwarding.DestroyedSenderIsRefused | wayland_codegen/src/generator.rs:528-545 | After its destructor no request of a client-range sender is accepted. |
| Forwarding.PassingMeans | wayland_codegen/src/generator.rs:934-1063 | A message passes validation if and only if each of its arguments does. |
| Forwarding.PassingIsFresh | wayland_codegen/src/generator.rs:934-1063 | A message that passes introduces only unknown numbers and names no object it introduces. |
| Forwarding.ReadIs | wayland_codegen/src/generator.rs:298-317 | What the readers accept has the described types, no NULs in text, and exactly the descriptors read past. |
| Forwarding.TranslationKeeps | wayland_codegen/src/generator.rs:423-491 | Renaming keeps types, text and descriptors. |
| Forwarding.RunArm | wayland_codegen/src/generator.rs:528-720 | A whole arm, statement by statement, performs `Forward`; it always takes exactly the bytes and descriptors decoding takes, and a malformed or refused message leaves the table unchanged. |
| Forwarding.ConsumeEvent | wayland_codegen/src/generator.rs:818-821 | A suppressed event takes the bytes and descriptors that running its arm would take. |
| Forwarding.TranslateArguments | wayland_codegen/src/generator.rs:423-491 | The arguments are translated and written in order, each new ID under the number the allocator offers at that moment. |
| Forwarding.Adopt | wayland_codegen/src/generator.rs:453-489 | A new ID is paired with an offerable number under the versions of its parent, or no number is left. |
| Forwarding.CheckMessage | wayland_codegen/src/generator.rs:904-1063 | The emitted checks, in their order, with the error of the first that fails. |
| Translations.TranslationIsInvertibleIff | wayland_codegen/src/generator.rs:423-491 | The translated arguments rename back if and only if no two introduce the same number: a repeated number keeps only its last partner. |
| Translations.ObjectsKeepTheirPartner | wayland_codegen/src/generator.rs:423-452 | Every object argument goes out under the partner its number had when the message came in. |
| Translations.IntroducedAgainLosesPair | wayland_codegen/src/generator.rs:453-489 | A number introduced again has another partner for good. |
| Translations.TranslationKeepsPairs | wayland_codegen/src/generator.rs:423-491 | Translation keeps every pair whose number is not introduced again. |
| Translations.NewObjectsInherit | wayland_codegen/src/generator.rs:453-489 | A new object is known on both sides under its parent's versions and its declared interface, or under the name and version the message gives; no other guest object's version or interface changes. |
| Translations.GivenUpIff | wayland_codegen/src/generator.rs:431-452 | A message is given up if and only if it names an object the other side does not know. |
| Translations.GivenUpLeavesTableIff | wayland_codegen/src/generator.rs:431-489 | A message given up leaves the table unchanged if and only if that object comes before its first new ID; otherwise the new IDs stay paired although nothing is sent. |
| VirtwlChannel.Send | sommelier/src/virtwl_channel.rs:321-343 | The chunks concatenate to the input, each fits the transaction buffer, and descriptors travel with the first only. |
| VirtwlChannel.SendChunk | sommelier/src/virtwl_channel.rs:345-388 | One transaction: descriptors, then -1 up to the array's length. |
| VirtwlChannel.OwnedFdsFromTxn | sommelier/src/virtwl_channel.rs:76-107 | Accepts exactly distinct non-negative descriptors followed by -1, in order; otherwise closes every listed descriptor once. |
| VirtwlChannel.PackedIsWellFormedIff | sommelier/src/virtwl_channel.rs:345-388 | What one side packs the other accepts if and only if the descriptors are distinct and valid. |
| VirtwlChannel.RoundTrip | sommelier/src/virtwl_channel.rs:76-388 | Sent bytes and descriptors arrive unchanged and in order. |
| Feedback.DistinctIs | sommelier/src/handler/linux_dmabuf.rs:171-187 | The announced pairs are the supported ones, once each. |
| Feedback.FeedbackPairs | sommelier/src/handler/linux_dmabuf.rs:171-187 | They come in the host's order, up to 65536. |
| Feedback.CreateFormatTable | sommelier/src/handler/linux_dmabuf.rs:216-253 | Entry i of the 16-byte table decodes to pair i. |
| Feedback.TrancheEncodes | sommelier/src/handler/linux_dmabuf.rs:34-38 | A tranche of the maximal number of indices is exactly the largest message there is. |
| Feedback.BuildSyntheticFeedback | sommelier/src/handler/linux_dmabuf.rs:265-380 | For 1 to 65536 pairs, looking up every announced index in the announced table gives the pairs once each in order; no index wraps and every event fits a message. The table comes first, then the device, the tranche and the two closing events. |
| DamageMapping.AxisCovers | sommelier/src/handler/compositor.rs:336-441 | When the axis encloses, the reported interval holds the image of every damaged position, and under the stricter condition also of one pixel around it, up to the damage limit. |
| DamageMapping.ReportsIff | sommelier/src/handler/compositor.rs:336-441 | Exactly when the reported interval suffices for every buffer extent, source size, destination size and damage, both for the damage itself and with a pixel around it: no viewport, or nothing scaled, or scale * start at most 256 * (start / 256) + 256 in 24.8 units, and without the last 256 for the extra pixel; or no buffer within the damage limit can hold a source there. |
| DamageMapping.BufferDamageIsNotUnderReported | sommelier/src/handler/compositor.rs:336-441 | So does the reported rectangle of an untransformed surface whose axes enclose. |
| DamageMapping.BufferDamageIsNotOverReported | sommelier/src/handler/compositor.rs:336-441 | Nor does it report more than the image of the damage with one pixel before it and two after, rounded outwards to whole units, or a single unit. |
| DamageMapping.ScaledDestinationUnderReports | sommelier/src/handler/compositor.rs:336-441 | For every scale from 2 up to the damage limit, a committable surface with only a destination, and damage of one pixel on it that the rectangle misses. |
| DamageMapping.ScaledSourceUnderReports | sommelier/src/handler/compositor.rs:336-441 | For every scale and source start that fail the condition and fit a buffer, such a surface and damage. |
| DamageMapping.RequestsKeepSurfacesSound | sommelier/src/handler/compositor.rs:868-1183 | After any sequence of the requests the handlers accept and commits, the surface is one damage can be mapped through. |
| DamageMapping.SurfaceDamageIsWidened | sommelier/src/handler/compositor.rs:175-197 | Surface damage is only widened, by one unit on every side within the representable range. |
| DamageMapping.TouchesIff | sommelier/src/handler/shm.rs:775-782 | Rectangles count as touching exactly when, edges included, they have a point in common. |
| DamageMapping.Absorb | sommelier/src/handler/shm.rs:813-863 | Merging one rectangle loses no damage, leaves nothing worth merging, and adds that rectangle once to what the result was merged from. |
| DamageMapping.Coalesce | sommelier/src/handler/shm.rs:813-863 | Every damaged rectangle lies inside one of the result, no two of which are worth merging; and every rectangle of the result is the smallest around damaged ones, merged two at a time only where that was worth it, each damaged rectangle being part of exactly one. |

## Left out

- System calls: `recvmsg`, `sendmsg`, ioctls, `mmap`, memfd sealing and tokio readiness are foreign; only their outcomes and the descriptors they yield are modelled. `ControlMessages` uses the 64-bit layout of control headers.
- Text input, keyboard, registry bookkeeping, GTK and Aura metadata, clipboard pumps, logging: no shared state with the protocols modelled beyond the numbers they allocate and free, which are events of `Protocol`.
- Pixel copying and format conversion: a copy only succeeds or fails. The allocator's choice of stride for plane 0 happens before the plane values the model starts from.
- Messages inside `Sessions` and `Scenes` are structured values, not bytes; `Wire`, `Marshalling` and `Forwarding` cover the bytes. Encoding a handler's own fixed-size message is taken to succeed.
- `wl_buffer`s that no render-buffer registration knows, and full-surface damage, are not modelled; for transformed surfaces only the rectangle the code computes is given.
- The per-batch set of buffers whose contents were refreshed is not part of `Scenes`.
- A batch may collect more than the 28 descriptors one VirtWL transaction accepts; `VirtwlChannel.Send` then fails, and `ProxyLoop` treats that as any failed send.
- Reclaiming capability generations, and the events that fill the capability list.
- Exhaustion of either number range is a panic in the code and an absent result here.
- Protocol.BeginInv: like every statement about `Inv`, claims nothing about a connection after its fatal flag is set.
- ProtocolSteps.StepKeepsInv: the host ends each callback once, deletes each destroyed number once and answers each create at most once; other host traffic is outside `Enabled`.
- Dispatch.FragmentationDoesNotMatter: the handlers are a function of the context, the message and the queued descriptors, so they may not depend on where a batch ends. Answers of the kernel that a handler depends on are part of the context.
- Fairness.WaitIsBounded: a turn is one batch; how long a batch takes is not modelled. With little-endian words the readiness probe can miss a complete message (`Dispatch.LittleEndianMisses`), and then no bound holds.
- ProxyLoop.Client.Run: receives are given in advance, each with the turn from which a probe finds it, and stopping the clipboard pumps is left out. With little-endian words the loop need not end (`Spinning.StuckForever`), so it is cut short after a given number of turns.
- Lifetimes.EveryDescriptorClosedOnce: descriptors that clipboard pumps take over count as closed by their handler; a descriptor number is taken to be unused until the kernel hands it out.
- SessionLoops.SessionDescriptorsClosedOnce: the session holds the descriptors of linux-dmabuf params, creates and buffers; other handlers' descriptors enter only through `Lifetimes.Honest`.
- DescriptorArguments.ArmsDecode: the new numbers an arm offers, and whether an event is stale, are functions of the table and the message; `DescriptorArguments.HandleArm` shows the allocator computes such offers.
- Dispatch.DescriptorsStayAligned: all descriptors are queued from the start; arrivals in between are covered by `DescriptorArguments.ArgumentsFollowArrivals`.
- Contexts.Context.DestroyBuffer: whether the destroy is deferred is a parameter; the condition is that of `Compositor.Handlers.OnDestroyBuffer`.
- Contexts.Context.DestroyWithoutHostDestructor: only the numbers; the text-input state that goes with them is not modelled.
- Contexts.Context.OnAdd: the stride and modifier the allocator chooses for plane 0 are part of the plane it is given.
- Forwarding.RunArm: the handler answers `Action::Forward` and leaves the table alone, as the emitted default does; handlers that change the table are those of `Contexts`.
- Forwarding.ForwardedMeansTheSame: number 0 is in neither map, and no event carries an untyped new ID, because the arm emitted for one would not compile.
- DamageMapping.AxisCovers: real arithmetic, so the rounding of floating point is not modelled, and only images between 0 and the damage limit are claimed.
- Attachments.CarriedOutIff: requests for viewport, scale, offset and damage are not events of `UseIntervals`; a surface that has made them enters as a state to start from, and `Surfaces.CommitAppliesRequests` says what they come to.
- UseIntervals.FailedCommitChangesNothing: says nothing of messages queued by handlers other than the commit's own.
