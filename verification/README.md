# What the generated Go runtime guarantees

zigo generates Go packages over native Zig objects.  This project models the runtime those packages share and
proves what it promises, for every interleaving, every buffer and every declaration tree.  It has five parts.

**Handles.**  A generated handle carries `ptr`, `active`, `children`, `closed`, `poison` and the link to its owner
or parent.  `Sections.dfy` gives every mutex section as a function on these fields, `HandleObject.dfy` the same
sections as the methods of the object, proved equal to those functions.  `Protocol.dfy` is the transition system:
any number of threads and handles, views of views to any depth, one section per step, no two mutexes ever held
together.  A thread is the list of sections it still has to run, so a half-done acquire or rollback is a state like
any other.  `Tokens.dfy` counts who holds what, `ProtocolInvariant.dfy`, `ProtocolSteps.dfy` and
`ProtocolBirths.dfy` show that every step keeps the books balanced, `ProtocolTheorems.dfy`, `PoisonBars.dfy` and
`WaitFreedom.dfy` draw the conclusions.  `Operations.dfy` and `OperationRuns.dfy` follow one operation from its start
through its acquires, its native call and what callbacks start on top of it to its return, and say that it gets in, what
it holds, and what it makes.  `PoisonCauses.dfy` traces every poison to a panic.  `Sessions.dfy` and `Scratch.dfy` sit on
top.  `SessionRuns.dfy` runs the body
of Session.Close on one thread of the protocol, over `QuietThreads.dfy`, which says what the other threads may do
meanwhile: anything that neither reaches a child of the queue nor makes one.

**Snapshots.**  `Decoder.dfy` is the decoder of materialized results in the form the package runs it, 64-bit
arithmetic and in-place loops included, over arbitrary bytes.  It is proved equal to the reading functions of
`Wire.dfy` and `Records.dfy`.  `Layout.dfy` describes the arena the native encoder writes as a small algebra of
parts (bytes, text, pointer, table), and `RoundTrip.dfy` proves that decoding inverts it.  `Snapshots.dfy` says when
filling a used slice equals fresh decoding, and bounds what a buffer can decode to.  `Reads.dfy` says of buffers that no
encoder wrote which are refused, and which bytes each field comes from.

**Callbacks.**  `Callbacks.dfy` is the table of callback states with the counter of untaken panics and the cancel
flags, `CallbackCalls.dfy` whole generated calls over it.  `PendingCounter.dfy` splits recording and taking into
their two halves and shows the unlocked look at the counter sound.  `CancelScopes.dfy` splits the life of a cancel flag
into its accesses to shared memory, for calls that nest or overlap and contexts that become done at any time.

**Declarations.**  `Literals.dfy` holds the printer of the declaration rewriter and what its parser reads off a text,
`LiteralParser.dfy` the parser object with its loops, `LiteralRoundTrip.dfy` the theorem that they undo each other.
`Lexing.dfy` says what the parser's scanners recognise without scanning, `Printing.dfy` how the printed text looks.
`ParamMerge.dfy` is the one rewriting rule that moves entries between lists.  `Brackets.dfy` is the bracket matcher of a
research script, which reads the same strings and comments.

**Unions.**  `VariantReader.dfy` is the reader that asks for the tag and for the payload in two native calls.

## How to read the model

- A native call is one step with an arbitrary outcome: a result, an error code, a native panic, or a rethrown
  callback panic.  The frame `Native` of a thread stays on its list while callbacks run Go code on top of it.
- The garbage-collector cleanup may run whenever it has not been stopped, nobody is inside the handle and no child is
  undropped.  The owner of a view is any handle, as the field type allows.
- `lifecycle.Acquire`, `Release`, `Poison`, `AcquireChild` and `DropChild` are the methods the package registers for
  the handle's type, so the model continues directly with the sections of the parent.
- The branch of `zigoAcquireChild` for a view without an owner is in the model.  The invariant shows that it never
  counts a child: such a view is closed and the section refuses.
- A float64 is its bit pattern, a Go pointer to an owned leaf an optional leaf, and the field `Label` of a leaf is
  called `text`.  Or-ing a byte shifted past the bytes read before is written as the sum it is.  `None` and `false`
  stand for the panic on an invalid buffer; what a caller's entry holds after that panic is left open.
- `Raised` stands for a Python exception of the parser and `Diverged` for its loop running on without advancing.
- A well-formed slice expression is the printed form of a literal whose flags are in order, at indent 0, which is how
  the parser itself rebuilds one.

Where the code and its comments disagree the model follows the code.  The comment on `EventQueue.Close`
(examples/07-event-queue/go/event_queue/event_queue_handles_gen.go:142) says that it returns an error while a call is
inside native; the code refuses only for children and lets the last release free the object.
`CloseRefusedExactly` states for every kind when Close is refused.

Results about inputs for which the code does less than one may expect are stated with their exact condition: filling a
slice (`FillAgreesExactly`, `NilEntriesExactly`), the flags of a parsed tree (`ExactRoundTrip`), a scratch buffer whose
entries native code did not write (`StaleNeverShows`), a constructor that rethrows (`NewCallbackContext`).

## Model

| member | source | states |
|---|---|---|
| HandleObject.HandleObject.constructor | examples/07-event-queue/go/event_queue/event_queue_handles_gen.go:124-129 | a new handle is open, unpinned, unpoisoned, linked to its parent, and in the shape every section relies on |
| HandleObject.HandleObject.Pin | examples/07-event-queue/go/event_queue/event_queue_handles_gen.go:48-107 | refused when closed or empty, then when poisoned, with nothing changed; otherwise one pin, and one child when a reservation is asked for |
| HandleObject.HandleObject.TakeLocked | examples/07-event-queue/go/event_queue/event_queue_handles_gen.go:175-186 | hands out object, parent and slots once, when closed and unpinned; a poisoned handle hands out no object to free |
| HandleObject.HandleObject.Unpin | examples/07-event-queue/go/event_queue/event_queue_handles_gen.go:244-259 | one pin less, the parent captured before the take, and the take when the last pin of a closed handle goes |
| HandleObject.HandleObject.Close | examples/07-event-queue/go/event_queue/event_queue_handles_gen.go:145-168 | a refused close changes nothing; an accepted one closes, and takes the object exactly when nobody is inside |
| HandleObject.HandleObject.Poison | examples/07-event-queue/go/event_queue/event_queue_handles_gen.go:263-277 | keeps the first cause, disarms the cleanup, captures the parent to poison next |
| HandleObject.HandleObject.ReplaceSlot | examples/07-event-queue/go/event_queue/event_queue_handles_gen.go:38-44 | swaps one slot and returns the previous handle; under a pin the slice is never nil |
| HandleObject.HandleObject.ReadLink | examples/07-event-queue/go/event_queue/event_queue_handles_gen.go:211-217 | a handle born with a parent that reads nil has lost its object |
| HandleObject.PinThenUnpin | examples/07-event-queue/go/event_queue/event_queue_gen.go:82-105 | an uncontended call that pins, reserves, releases and drops the reservation, in this order, leaves the handle exactly as it was |
| OperationRuns.StartsAnytime | examples/07-event-queue/go/event_queue/event_queue_gen.go:52-158 | an idle thread, and a callback of any call in progress, may start any operation on any handle of a kind that has it |
| OperationRuns.CallGetsIn | examples/07-event-queue/go/event_queue/event_queue_handles_gen.go:513-544 | a call whose handles, with all owners and parents above them, are open, in place and unpoisoned until they are pinned is never refused: it can always go on, and within the rank of its start it is in native code, on top of what the thread had |
| OperationRuns.CallFollows | examples/07-event-queue/go/event_queue/event_queue_gen.go:82-158 | from start to return, over every run and under whatever callbacks start, the thread keeps what it had and above it the frames of this call at one of its stages: acquiring, acquiring the source of a merge, in the native call it was started for, installing an observer, or leaving |
| OperationRuns.CallHoldsAll | examples/07-event-queue/go/event_queue/event_queue_gen.go:133-158 | as long as the native call is on the thread it holds the pins of the receiver and of the source of a merge, with everything above both, and none of these is freed or about to be |
| OperationRuns.PanicOfCall | examples/07-event-queue/go/event_queue/event_queue_gen.go:155 | a panic of the native call leaves a poisoning under way to the receiver and to the source of a merge |
| OperationRuns.CallMakes | examples/07-event-queue/go/event_queue/event_queue_gen.go:52-106 | a call that returns makes exactly one handle: a child under the root of its chain, keeping the reservation, a view under the receiver, a clone with its observer in the second slot; other calls make none |
| OperationRuns.CallFails | examples/07-event-queue/go/event_queue/event_queue_gen.go:82-105 | a call that fails, panics or rethrows makes none, gives its reservation back, and deletes its callback handle but for a clone that rethrows |
| OperationRuns.ObserverInstalled | examples/07-event-queue/go/event_queue/event_queue_gen.go:214-217 | after a successful native call, whatever other threads do meanwhile, the next section puts the call's handle in the third slot and sends the earlier one to be deleted |
| OperationRuns.QueueMade | examples/07-event-queue/go/event_queue/event_queue_gen.go:26-40 | the constructor's callback handle ends in the first slot of the new queue |
| ProtocolInvariant.HandoffKeeps | examples/07-event-queue/go/event_queue/event_queue_handles_gen.go:577-619 | a successful acquire turns the pins of the captured parent into the pins of the whole chain and passes the reservation on |
| ProtocolSteps.RollbackFrames | examples/07-event-queue/go/event_queue/event_queue_handles_gen.go:588-602 | a refused acquire gives back exactly the parent's pins and the reservation it had captured, at any depth |
| ProtocolSteps.ReadLinkKeeps | examples/07-event-queue/go/event_queue/event_queue_handles_gen.go:515-524 | capturing the parent keeps the invariant, also when Close clears the link before the second section |
| ProtocolSteps.PinKeeps | examples/07-event-queue/go/event_queue/event_queue_handles_gen.go:525-544 | pinning or refusing keeps the invariant |
| ProtocolSteps.UnpinKeeps | examples/07-event-queue/go/event_queue/event_queue_handles_gen.go:699-714 | releasing keeps the invariant: the parent released is the one pinned |
| ProtocolSteps.DropKeeps | examples/07-event-queue/go/event_queue/event_queue_handles_gen.go:109-116 | giving a reservation back keeps the invariant: it was counted, so the counter never goes below the children and reservations there are |
| ProtocolSteps.CloseKeeps | examples/07-event-queue/go/event_queue/event_queue_handles_gen.go:450-478 | closing keeps the invariant |
| ProtocolSteps.CollectKeeps | examples/07-event-queue/go/event_queue/event_queue_handles_gen.go:131-139 | a garbage-collector cleanup keeps the invariant |
| ProtocolSteps.PoisonKeeps | examples/07-event-queue/go/event_queue/event_queue_handles_gen.go:561-574 | poisoning keeps the invariant and sends a poisoning on to the parent |
| ProtocolSteps.SwapKeeps | examples/07-event-queue/go/event_queue/event_queue_gen.go:187-217 | replacing an observer keeps every callback handle in exactly one place |
| ProtocolBirths.NativeKeeps | examples/07-event-queue/go/event_queue/event_queue_gen.go:52-158 | whatever way a native call ends, its defers and rollbacks keep the invariant, for calls, merges, clones, children, views and observers |
| ProtocolBirths.BuildKeeps | examples/07-event-queue/go/event_queue/event_queue_gen.go:26-40 | a constructor keeps the invariant, also when it fails or rethrows |
| ProtocolTheorems.NextKeeps | examples/07-event-queue/go/event_queue/event_queue_handles_gen.go:18-912 | every step of every thread keeps the invariant |
| ProtocolTheorems.PathKeeps | examples/07-event-queue/go/event_queue/event_queue_handles_gen.go:18-912 | so does every run |
| ProtocolTheorems.NeverStuck | examples/07-event-queue/go/event_queue/event_queue_handles_gen.go:30-44 | every section can always run, and none indexes a slot slice that was taken |
| ProtocolTheorems.CountersExact | examples/07-event-queue/go/event_queue/event_queue_handles_gen.go:92-116 | `active` equals the pins threads hold, half-done acquires, rollbacks and releases included; `children` equals reservations in flight plus children not yet taken |
| ProtocolTheorems.CloseRefusedExactly | examples/07-event-queue/go/event_queue/event_queue_handles_gen.go:450-478 | Close of an open handle is refused if and only if a child is open or in the making or, for a BorrowBox or a view, a call is inside |
| ProtocolTheorems.CollectableExactly | examples/07-event-queue/go/event_queue/event_queue_handles_gen.go:124-139 | the cleanup can run if and only if the owner was not closed, poisoned or taken, nobody is inside, no reservation is in flight and no child is open |
| ProtocolTheorems.DrainedQueueCloses | examples/07-event-queue/go/event_queue/event_queue_handles_gen.go:145-168 | closing a queue is not refused once no reservation is in flight and every child has been taken, or is closed with nobody inside |
| ProtocolTheorems.NativeCallIsSafe | examples/07-event-queue/go/event_queue/event_queue_handles_gen.go:513-557 | a thread inside a native call has its handle and every ancestor in place: not freed, no destructor pending, slots present |
| ProtocolTheorems.FreedOnce | examples/07-event-queue/go/event_queue/event_queue_handles_gen.go:292-300 | each native object is freed at most once, exactly when taken unpoisoned, over all runs of Close, last release and cleanup |
| ProtocolTheorems.ClosedIsFreed | examples/07-event-queue/go/event_queue/event_queue_handles_gen.go:306-342 | a closed handle nobody is inside has been taken; once all threads are idle it has been freed exactly once unless poisoned |
| ProtocolTheorems.ParentOutlivesChild | examples/07-event-queue/go/event_queue/event_queue_handles_gen.go:292-300 | an owning parent is not freed before the native object of a child is: open, being freed, or leaked by a panic |
| ProtocolTheorems.PoisonSticks | examples/07-event-queue/go/event_queue/event_queue_handles_gen.go:79-89 | no step replaces the cause of a poison |
| ProtocolTheorems.PoisonReachesUp | examples/07-event-queue/go/event_queue/event_queue_handles_gen.go:718-732 | above a poisoned handle every ancestor is poisoned or has a poisoning on its way, and is never freed meanwhile |
| ProtocolTheorems.PanicPoisonsUpward | examples/04-callback/go/callback_runtime_gen.go:38-45 | after a native panic, over every continuation, every handle the call reached, the receiver of a merge included, and every ancestor of it stay unfreed and end poisoned |
| PoisonCauses.EveryPoisonIsAPanic | examples/07-event-queue/go/event_queue/event_queue_handles_gen.go:79-89 | in every reachable state the cause of a poison is the cause of a panic of a native call that was given the handle or one below it |
| PoisonCauses.PanicNamesCause | examples/07-event-queue/go/event_queue/event_queue_handles_gen.go:561-574 | the first panic that reaches a handle gives it its cause, over every continuation |
| PoisonBars.PoisonedStepBars | examples/07-event-queue/go/event_queue/event_queue_handles_gen.go:54-60 | no step of any thread, callbacks of a call inside included, adds a pin on a poisoned handle or gets further into a native call at or below it |
| PoisonBars.PoisonIsForever | examples/07-event-queue/go/event_queue/event_queue_handles_gen.go:561-574 | after a poison, over every continuation: same cause, never freed, no thread holds more pins on it, and none enters a native call at or below it save through an acquire that had pinned it before |
| PoisonBars.LaterCallsFail | examples/07-event-queue/go/event_queue/event_queue_handles_gen.go:522-544 | a thread in Go code, idle or in a callback under a native call on the poisoned handle itself, gains no native call on it or on anything below it, whatever it starts |
| PoisonBars.PassedAcquireEnters | examples/07-event-queue/go/event_queue/event_queue_handles_gen.go:525-544 | the exception is real: an acquire of a view that pinned the owner before the poison still enters |
| ProtocolTheorems.CallbacksAreLinear | examples/07-event-queue/go/event_queue/event_queue_gen.go:187-217 | every callback handle is in exactly one place: one slot, one call, one pending deletion, deleted once, or abandoned by a rethrowing constructor |
| ProtocolTheorems.CallbacksAreReleased | examples/07-event-queue/go/event_queue/event_queue_handles_gen.go:131-139 | once threads are idle and queues closed every callback handle is deleted, or was abandoned |
| WaitFreedom.SectionDescends | examples/07-event-queue/go/event_queue/event_queue_handles_gen.go:141-144 | each section brings its thread closer to its native call or its return |
| WaitFreedom.WaitFree | examples/07-event-queue/go/event_queue/event_queue_handles_gen.go:141-144 | however runs interleave, an operation takes a number of its own sections that only the depths of its handles bound: Close does not wait |
| WaitFreedom.AcquireBound | examples/07-event-queue/go/event_queue/event_queue_handles_gen.go:513-544 | acquiring a handle with d owners and parents above it takes at most 3(d+1)(d+2) + d + 2 sections and releasing it 6(d+1), however many handles there are |
| Sessions.ClosesInReverse | examples/07-event-queue/go/event_queue/event_queue_sessions_gen.go:56-78 | Close closes the adopted handles most recent first and then the primary, once |
| Sessions.EveryAdoptionClosedOnce | examples/07-event-queue/go/event_queue/event_queue_sessions_gen.go:34-50 | every handle given to AddStream is closed as often as it was given, by Close or at once when late |
| QuietThreads.QuietStep | examples/07-event-queue/go/event_queue/event_queue_handles_gen.go:513-557 | a thread that neither is in nor starts an acquire, a call or a Close at a child of the queue stays like that through every section, rollback, poisoning and cleanup |
| QuietThreads.QueueCallsAreQuiet | examples/07-event-queue/go/event_queue/event_queue_handles_gen.go:513-557 | calls on the queue itself, and on views of it at any depth, leave its children alone |
| SessionRuns.SessionCloses | examples/07-event-queue/go/event_queue/event_queue_sessions_gen.go:56-78 | when the open children of the queue are adopted, none is inside a call and no reservation is in flight, then over every run in which other threads leave the children alone no member and not the queue refuses, and in the end every member and the queue are closed, most recent first, and no child is open |
| SessionRuns.RefusesExactly | examples/07-event-queue/go/event_queue/event_queue_sessions_gen.go:64-76 | whatever other threads do: a member never refuses, and the queue refuses if and only if a child of it is open or a reservation is in flight |
| SessionRuns.SessionFinishes | examples/07-event-queue/go/event_queue/event_queue_sessions_gen.go:56-78 | until it has returned, the thread in Session.Close can always take its next step, and it takes at most seven for each member and for the queue |
| Scratch.AlwaysExclusive | examples/07-event-queue/go/event_queue/event_queue_handles_gen.go:938-962 | no buffer is held by two calls, or held and stored, in any interleaving of take, give and release |
| Scratch.CopyFromRaw | examples/07-event-queue/go/event_queue/event_queue_structs_gen.go:87-97 | entry k becomes the converted value k for every k below the count and both lengths, and every other entry stays |
| Scratch.StaleNeverShows | examples/07-event-queue/go/event_queue/event_queue_gen.go:502-522 | the output does not depend on what the buffer held before, if and only if native code reports no more entries than it wrote or filled the buffer |
| Scratch.EstimateGives | examples/07-event-queue/go/event_queue/event_queue_gen.go:502-522 | when the count is what native code wrote, or less, the first entries of the output are the written ones, converted and in order, and the rest stays |
| Scratch.GivenIsStored | examples/07-event-queue/go/event_queue/event_queue_handles_gen.go:938-962 | a call that finds no buffer gets a new one, what it hands back is stored, and a release drops it |
| Scratch.FirstGivenIsKept | examples/07-event-queue/go/event_queue/event_queue_handles_gen.go:938-962 | the first buffer handed back is kept until a call takes it or it is released, and that call gets it |
| Decoder.MaterializedU64 | examples/12-materialized/go/materialized/materialized_structs_gen.go:45-50 | reads the word when its eight bytes lie inside the buffer and fails otherwise, without wrapping |
| Decoder.MaterializedBytes | examples/12-materialized/go/materialized/materialized_structs_gen.go:52-57 | the bytes at offset, if and only if offset + length does not pass the end, for all 64-bit values |
| Decoder.MaterializedWord | examples/12-materialized/go/materialized/materialized_structs_gen.go:60-66 | the loop computes the little-endian word |
| Decoder.MaterializedArray | examples/12-materialized/go/materialized/materialized_structs_gen.go:68-73 | the guard by division accepts exactly count * stride bytes that fit, without wrapping |
| Decoder.MaterializedHeader | examples/12-materialized/go/materialized/materialized_structs_gen.go:75-81 | accepts exactly the headers with magic, layout and length right, and returns root and count |
| Reads.HeaderExactly | examples/12-materialized/go/materialized/materialized_structs_gen.go:75-81 | a header is accepted if and only if the buffer has forty bytes, begins with "ZIGO" and version 2, names the layout and its own length |
| Reads.ForeignRefused | examples/12-materialized/go/materialized/materialized_structs_gen.go:106-124 | a buffer with a wrong magic, layout or length decodes to no probe and no list |
| Reads.ArrayReads | examples/12-materialized/go/materialized/materialized_structs_gen.go:68-73 | an array is read if and only if its run lies in the buffer and each item can be read, and gives these items |
| Reads.LeafReads | examples/12-materialized/go/materialized/materialized_structs_gen.go:83-104 | a leaf is read if and only if its bytes, text, samples and alias lie in the buffer, and which bytes each field is |
| Reads.FlagReads | examples/12-materialized/go/materialized/materialized_structs_gen.go:226-232 | an item of a flag array is any byte but zero |
| Reads.SignedReads | examples/12-materialized/go/materialized/materialized_structs_gen.go:60-66 | a signed field is its word in two's complement |
| Reads.ProbeReads | examples/12-materialized/go/materialized/materialized_structs_gen.go:140-150 | the words and bytes of a probe read from any buffer; any flag byte but zero counts as set |
| Reads.ProbeReadsExactly | examples/12-materialized/go/materialized/materialized_structs_gen.go:140-243 | a probe is refused only when one of the things it leads to is |
| Decoder.ItemOffset | examples/12-materialized/go/materialized/materialized_structs_gen.go:88-96 | off + i * stride stays inside the buffer and does not wrap once the guard has passed |
| Decoder.DecodeLeafInto | examples/12-materialized/go/materialized/materialized_structs_gen.go:83-104 | decodes a leaf over a variable or fails, on any bytes; an absent alias keeps the variable's |
| Decoder.DecodeTags | examples/12-materialized/go/materialized/materialized_structs_gen.go:155-163 | the loop reads exactly the counted texts, or fails |
| Decoder.DecodeMatrix | examples/12-materialized/go/materialized/materialized_structs_gen.go:208-224 | the nested loops read exactly the rows, or fail |
| Decoder.DecodeChildren | examples/12-materialized/go/materialized/materialized_structs_gen.go:182-193 | the loop reads the leaves behind the counted pointers, or fails |
| Decoder.DecodeProbeInto | examples/12-materialized/go/materialized/materialized_structs_gen.go:140-243 | decodes a probe over a variable or fails, on any bytes; absent optionals keep the variable's values |
| Decoder.DecodeProbeBuffer | examples/12-materialized/go/materialized/materialized_structs_gen.go:106-114 | total on every buffer: the one probe, or the invalid-buffer failure |
| Decoder.DecodeProbeSliceBuffer | examples/12-materialized/go/materialized/materialized_structs_gen.go:116-124 | total on every buffer: all probes, or the failure |
| Decoder.DecodeProbeSliceInto | examples/12-materialized/go/materialized/materialized_structs_gen.go:126-138 | overlays the first min(count, len) decoded probes; entries behind them stay; an empty buffer changes nothing |
| Layout.HeldIsFound | src/gen/emit/materialized_encoder.zig:26-46 | what the encoder's reserve and append put into an arena is found by following offsets, wherever it stands and whatever stands around it |
| Layout.NextMultiple | src/gen/emit/materialized_encoder.zig:28-35 | records and arrays start at the next multiple of eight |
| Layout.TableDecodes | src/gen/emit/materialized_encoder.zig:147-159 | an array written item by item decodes to its items |
| Layout.OptTextDecodes | src/gen/emit/materialized_encoder.zig:134-137 | an absent text and an empty one are told apart |
| Layout.LeafDecodes | examples/12-materialized/go/materialized/materialized_structs_gen.go:83-104 | a leaf decodes to itself at any place of any arena that holds it |
| Layout.ProbeDecodes | examples/12-materialized/go/materialized/materialized_structs_gen.go:140-243 | so does a probe |
| RoundTrip.ProbeRoundTrip | examples/12-materialized/go/materialized/materialized_structs_gen.go:106-114 | decoding the buffer written for a probe gives that probe, for all contents that fit a buffer |
| RoundTrip.ProbesRoundTrip | examples/12-materialized/go/materialized/materialized_structs_gen.go:116-124 | decoding the buffer written for a list gives that list |
| RoundTrip.EncodingIsInjective | src/gen/emit/materialized_encoder.zig:76-91 | no two probes share a buffer |
| Snapshots.FillAgreesExactly | examples/12-materialized/go/materialized/materialized_structs_gen.go:126-138 | filling agrees with fresh decoding if and only if no optional is stale; later entries stay |
| Snapshots.NilEntriesExactly | examples/12-materialized/go/materialized/materialized_structs_gen.go:174-181 | an entry can be filled over with any probe if and only if its optionals are nil |
| Snapshots.StaleWeightReturned | examples/12-materialized/go/materialized/materialized_structs_gen.go:194-198 | a probe written without a weight comes back with the weight the entry held before |
| Snapshots.FillReturnsWritten | examples/12-materialized/go/materialized/materialized_structs_gen.go:126-138 | filling from an encoded list gives its first entries if and only if none is stale |
| Snapshots.ProbeBound | examples/12-materialized/go/materialized/materialized_structs_gen.go:208-224 | a probe of n bytes has at most (n/16)(n/4) cells and (n/8)(n/8) samples, however offsets overlap |
| Snapshots.BatchBound | examples/12-materialized/go/materialized/materialized_structs_gen.go:116-124 | a batch has at most n/8 times as many |
| Callbacks.RecordedNext | examples/04-callback/go/callback_cgo_gen.go:94-133 | recording one crossing after another keeps the first panic and the first error |
| Callbacks.FirstPanicExactly | examples/04-callback/go/callback_cgo_gen.go:94-105 | the panic kept is the one that no panic comes before |
| Callbacks.FirstErrorExactly | examples/04-callback/go/callback_cgo_gen.go:121-133 | the error kept is the one that no error comes before |
| Callbacks.SweptIsFirst | examples/04-callback/go/callback_gen.go:364-371 | no slot before the one taken holds a panic |
| Callbacks.Runtime.RecordPanic | examples/04-callback/go/callback_cgo_gen.go:94-105 | the first panic stays and is counted once; the call's flag is raised each time |
| Callbacks.Runtime.RecordError | examples/04-callback/go/callback_cgo_gen.go:121-133 | the first error stays; the call's flag is raised each time |
| Callbacks.Runtime.Trampoline | examples/04-callback/go/callback_cgo_gen.go:191-211 | records how the callback ended; an unknown handle raises the flag in the map |
| Callbacks.Runtime.SetCancel | examples/04-callback/go/callback_cgo_gen.go:55-63 | attaches or detaches the flag in the map and in the state together |
| Callbacks.Runtime.TakePanic | examples/04-callback/go/callback_cgo_gen.go:107-119 | returns and clears the panic, and uncounts it |
| Callbacks.Runtime.DeleteHandle | examples/04-callback/go/callback_runtime_gen.go:148-154 | the live counter equals the handles in the table; an untaken panic stays counted |
| Callbacks.Runtime.Sweep | examples/04-callback/go/callback_gen.go:364-371 | the first slot with a panic is taken, later ones stay |
| Callbacks.Runtime.FastSweep | examples/04-callback/go/callback_runtime_gen.go:162-178 | the look at the counter gives the same result and state as always sweeping |
| Callbacks.Runtime.RunNative | examples/04-callback/go/callback_cgo_gen.go:169-211 | after any crossings each state holds its own first panic and error, and exactly the flags of failed crossings are raised |
| CallbackCalls.ApplyUntilCancelled | examples/04-callback/go/callback_gen.go:249-279 | panic before error before code; on every exit the flag was raised if and only if the context became done before its watch was stopped, be it before, during or after the native call, or one of the call's own crossings failed; table, flags and live count are left as without the call |
| CallbackCalls.VerdictTells | examples/04-callback/go/callback_gen.go:264-279 | rethrown if and only if a crossing panicked, with the first value; a callback error if and only if none panicked and one failed, with the first error; success if and only if all crossings were fine and the code is 0; otherwise the context's error or the code's |
| CallbackCalls.ContextErrorExactly | examples/04-callback/go/callback_gen.go:270-277 | the context's error is returned if and only if native code gave up with ErrCanceled, no crossing failed, and the context was done by then |
| CancelScopes.FlagExactly | examples/04-callback/go/callback_cgo_gen.go:53-75 | however calls nest or overlap, a call's flag is raised if and only if its own context was or became done and woke the watcher, or a crossing into its own callback failed while the flag was attached |
| CancelScopes.FlagsAreScoped | examples/04-callback/go/callback_gen.go:260-263 | outside of a call neither map nor state holds its flag, attaching and detaching find the handle valid, and an unknown handle finds no flag in the map |
| CancelScopes.ContextReachesFlag | examples/04-callback/go/callback_gen.go:251-256 | a context that became done while watched raises the flag, or the watcher is still on its way |
| CallbackCalls.NewCallbackContext | examples/04-callback/go/callback_gen.go:76-94 | succeeds if and only if all crossings were fine and the code is 0, and tells each failure as `VerdictTells` does; the handle stays if and only if the constructor returns or rethrows |
| PendingCounter.CounterExact | examples/04-callback/go/callback_cgo_gen.go:87-119 | in every interleaving the counter is recorded less taken and never negative |
| PendingCounter.FastPathMissesNothing | examples/04-callback/go/callback_runtime_gen.go:162-164 | while a finished recording is untaken the unlocked look at the counter is not zero |
| PendingCounter.ZeroExactly | examples/04-callback/go/callback_cgo_gen.go:87-92 | outside of sections the counter is zero if and only if no state holds a panic |
| LiteralParser.Parser.SkipWs | scripts/migrate-bindings.py:70-84 | the loop skips blanks and comments and collects the comments |
| Positions.StringEnd | scripts/migrate-bindings.py:114-118 | the loop finds the closing quote past escapes, or runs off the text |
| LiteralParser.Parser.BareEnd | scripts/migrate-bindings.py:126-147 | the loop finds the comma or bracket a bare expression ends at |
| LiteralParser.Parser.ParseValue | scripts/migrate-bindings.py:110-148 | reads a literal, a string, a slice or a bare expression and advances past it |
| LiteralParser.Parser.ParseObj | scripts/migrate-bindings.py:86-108 | reads a literal with its fields, keys and comments, raises, or stops advancing |
| Lexing.StringExactly | scripts/migrate-bindings.py:113-121 | a string reaches to the first quote in front of which every backslash has its character |
| Lexing.KeyExactly | scripts/migrate-bindings.py:97-101 | a key is read if and only if a dot, an identifier or a quoted name, white space and an equals sign that is not doubled stand there |
| Lexing.StripExactly | scripts/migrate-bindings.py:146 | white space goes from both ends and nothing else |
| Lexing.SkipExactly | scripts/migrate-bindings.py:70-84 | whatever blanks and comments stand in front of a token are skipped, all of them, the comments handed out in order |
| Lexing.GapsOf | scripts/migrate-bindings.py:70-84 | every text begins with such blanks and comments and then a token or its end |
| Printing.RowLooks | scripts/migrate-bindings.py:151-168 | how a literal on one line looks, its spaces and commas |
| Printing.LinesLooks | scripts/migrate-bindings.py:151-168 | how a literal on several lines looks: indents, comments, a comma behind every field |
| Printing.SeveralLinesWhen | scripts/migrate-bindings.py:151-168 | several lines if and only if it was read so or has comments |
| LiteralRoundTrip.EmitBreaks | scripts/migrate-bindings.py:107-108 | a printed tree holds a line break if and only if its normal flag is set |
| LiteralRoundTrip.KeyRound | scripts/migrate-bindings.py:97-101 | a printed key is read back |
| LiteralRoundTrip.NoKey | scripts/migrate-bindings.py:97-98 | a bare expression that is no key alone is none in front of the rest of the text |
| LiteralRoundTrip.ObjectRoundTrip | scripts/migrate-bindings.py:62-168 | parsing the printed tree ends and gives its normal form, at any indent and before any text |
| LiteralRoundTrip.ValueRoundTrip | scripts/migrate-bindings.py:110-148 | so for every kind of value, slices of slices included |
| LiteralRoundTrip.NormalKeeps | scripts/migrate-bindings.py:39-60 | the normal form keeps keys, order and comments |
| LiteralRoundTrip.ExactRoundTrip | scripts/migrate-bindings.py:107-108 | the tree itself comes back if and only if its flags were in order |
| LiteralRoundTrip.SecondRoundTrip | scripts/migrate-bindings.py:432-446 | printing the parsed tree and parsing again changes nothing more |
| ParamMerge.MergeParams | scripts/migrate-bindings.py:273-295 | the loops give each parameter its name and the rewritten fields of the last metadata entry of that name, unless an earlier parameter took them, in order, and then the orphans; anything else than names and tables raises |
| ParamMerge.FieldRewritten | scripts/migrate-bindings.py:258-270 | each field keeps its key and comments; `written` of `.@"return"` becomes `.result`; a well-formed literal or string under `flatten` becomes text that parses as a slice of its normal form, a string under `userdata` text that parses as a literal with the one field `param`; every other value stays |
| ParamMerge.OrphansInOrder | scripts/migrate-bindings.py:287-290 | orphans come in the order in which their keys first came |
| ParamMerge.NameBetweenQuotes | scripts/migrate-bindings.py:284 | a parameter's name is what its quotes enclose |
| ParamMerge.LastEntryWins | scripts/migrate-bindings.py:276-279 | of several entries with one key the last one counts |
| ParamMerge.EveryEntryOnce | scripts/migrate-bindings.py:280-290 | every key of the metadata ends up in exactly one place, its first parameter or an orphan |
| Brackets.Closing | docs/.agent/research/generic-binding-context/verify.py:12-27 | loop and recursion end and return the position that the scan of the text defines, or raise |
| Brackets.ItemPasses | docs/.agent/research/generic-binding-context/verify.py:15-25 | a string with escapes, a comment with brackets or a nested group is passed as a whole |
| Brackets.PartnerFound | docs/.agent/research/generic-binding-context/verify.py:12-27 | behind any well-bracketed text the bracket returned is the partner |
| VariantReader.VariantLinearizes | examples/10-tagged-union/go/tagged_union/tagged_union_union_value_gen.go:266-331 | a variant put together from the tag of one read and the bare payload of the other is the union's value at the read that returned it; a mismatch means no known tag was there at both reads |
| VariantReader.RepliesExactly | examples/10-tagged-union/go/tagged_union/tagged_union_union_value_gen.go:266-331 | for any setters and Close before the first read and between the two, exactly when the reader gives the variant, a mismatch or a refusal |
| VariantReader.UntestedMixes | examples/10-tagged-union/go/tagged_union/tagged_union_union_value_gen.go:275-331 | without the test of the match one setter between the reads gives a variant the union never held |
| VariantReader.QuietRead | examples/10-tagged-union/go/tagged_union/tagged_union_union_value_gen.go:266-331 | with nothing in between the reader returns the union as it is |

## Left out

- Native code, cgo and purego, the C shims and library loading: a native call is an arbitrary outcome.
- The `go-purego` twins and the handle files of examples 03, 05, 08, 09 and 11, which are instances of the same protocol.
- `ValueRef` and `ChildRef` of example 10, which delegate every pin to their parent without state of their own.
- A CallbackContext wrapped with a nil owner inside a callback; its Close takes the owned branch.
- Which observer native code uses while several SetObserver calls run: the code does not order the slot swap with the native call.
- Leak reports, error texts, error-code tables, Must wrappers and JSON helpers, which are one branch each.
- The Zig generator; of it only the arena that its encoder writes is modelled, as bytes and not as a builder object.
- The other rewriting rules of migrate-bindings.py, each of which renames, wraps or drops one key of one entry, the search for declarations, reindenting and file access.
- Python's recursion limit, and parsed text that is not the output of the printer, beyond what `Parser.ParseObj` returns on it.
- Decoder.DecodeProbeSliceInto: leaves open what the entries hold when a buffer turns out invalid half way, because the package panics then.
- Callbacks.Runtime.RunNative: the crossings of one call make no calls of their own; calls that nest or overlap are in `CancelScopes` for the flags and in `PendingCounter` for the panics.
- CallbackCalls.ApplyUntilCancelled: the function that waits for the context runs at once here; `CancelScopes` lets it run late, after the call as well.
- Callbacks.Runtime.Trampoline: does not model the value handed back to native code after a failed crossing, a constant per callback type.
- ParamMerge.MergeParams: works on values; the nodes that the code updates in place are not shared between entries.
- Sessions.EveryAdoptionClosedOnce: works on values; a nil member or primary, which the code skips, is not given a step.
- SessionRuns.SessionCloses: AddStream closes no late child of the same queue while Close runs, for its reservation would be in flight then; the collector does not take a child that the session still holds.
- VariantReader.VariantLinearizes: leaves the pins of the two reads to the handle protocol and keeps only their refusal.
