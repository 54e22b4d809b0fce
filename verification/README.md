# A verified model of the Enduro/X Rust bindings' state-heavy parts

The project models five parts of the library in Dafny and proves what they promise.

* **Asynchronous replies** (`DemuxModel`, `DemuxBuffers`, `DemuxDrain`, `DemuxWorld`, `DemuxClaims`, `DemuxLoans`,
  `DemuxDelivery`, `DemuxKnown`, `DemuxWakeups`, `DemuxDeadlines`, `DemuxRuns`, `DemuxFailures`, `DemuxForeign`,
  `DemuxStretches`, `ReplyDemux`, `AsyncAtmi`).
  One reply queue is drained on behalf of many `tpcall`, `tpgetrply` and `TPGETANY` futures, while the native
  layer reuses call descriptors. `ReplyDemux` and `AsyncAtmi` are the objects as they are updated in place, each
  method proved against the functions of `DemuxModel`. `DemuxWorld` is the transition system: any interleaving of
  the stretches between await points, with the generation of every call, the history of what first happened to it,
  a log of every collection, and the buffers the program has in hand. `DemuxStretches` proves that the adapter's stretches are runs of its events.
* **Owned UBF pointer graphs** (`UbfFields`, `UbfHeap`, `UbfForest`, `UbfTrees`, `UbfOwnership`, `UbfEdits`,
  `UbfComplex`, `UbfClone`, `UbfRuns`). A UBF is its occurrences in field order; a PTR occurrence owns its target and
  an inline UBF lies inside its parent; native `tpfree` cascades. A heap is a *forest* when unfolding the program's own
  buffers meets every live buffer exactly once. Edits, the ownership check, deep copy and runs of them all.
* **Structure mapping** (`SerdeModel`, `SerdeWindows`, `SerdeRoundTrip`, `SerdeGroups`, `SerdeTyping`, `SerdeReads`,
  `SerdeSteps`, `SerdeDepth`, `SerdeHeap`, `UbfSerde`, `UbfGroups`, `UbfRead`). A
  grammar of mapped Rust types (scalar, inline or pointer structure, VIEW, `Option`, `Vec`, `[T; N]`, recursive through
  names), what writing and reading a field does to the *value* of a buffer, and the writing methods on the native heap,
  built from the operations of `UbfComplex` and proved to do to the value what the grammar says; and the heap read with its
  scope, proved to be the read of the value. `SerdeTyping` says without writing which values a write takes, `SerdeReads`
  without reading what a read gives, and `SerdeSteps` and `SerdeDepth` when the heap can refuse a write nevertheless: it
  replaces something in a buffer too deep to tell what to free, or there is no room or no memory.
* **Script buffer slots** (`ScriptModel`, `ScriptRuns`, `ScriptBuffers`). Three slots that may alias and may mirror the
  script engine's slots, and the hand-over of ownership across a callback.
* **Sending** (`Backpressure`, `OneShot`). The retry loop on a full queue, and the one-shot timeout and priority settings
  among tasks that share a context.

`Xatmi` holds the vocabulary of the asynchronous part.

Hypotheses the results rest on:

* The native queue never holds a reply of a generation that was cancelled (src/async_atmi.rs:830-834), nor two replies of
  one generation, and the native layer hands out no descriptor that is in use. They are the enabling conditions of
  `DemuxWorld.Enabled`.
* A program does not cancel a descriptor that one of its futures waits on. `DemuxForeign.ForeignCancelMisdelivers` is a run
  in which it does: the named take does not look at the claim, so the waiting future collects another call's reply.
* The numbers of any-reply registrations do not wrap; the native setters that restore one-shot settings succeed;
  UBF sizes fit the native length type and `Binit` succeeds.
* An allocation keeps one identity for life, also when native reallocation moves it, and identities are not reused.
* The provider's pointer and length slots come in fixed pairs.
* Mapped fields of one structure map no common occurrence (README.md:255-257 of the repository); members of a flat group
  have fields of their own.

Two limits are stated exactly. A script run from a callback can leave two linked slots with different allocations;
`ScriptRuns.ReplaceAccounts` says, from the slots before the call, exactly when replacing one then still keeps the accounts, and
`ScriptRuns.SplitLinkLeaks` is a callback in which it does not. A structure whose children nest deeper than 128 levels can be written into an empty buffer, but
`SerdeRoundTrip.StructureRoundTrip` shows that it is never read back.

## Model

| member | source | states |
|---|---|---|
| ReplyDemux.Demultiplexer.RegisterFresh | src/async_atmi.rs:336-348 | a free number becomes tracked and not ready; a claim on it is refused exactly for a `tpcall`'s; every other descriptor, what is collectable and what is held stay |
| ReplyDemux.Demultiplexer.Claim | src/async_atmi.rs:376-402 | claims a slot or makes one; refuses an exhausted number space and an owned slot without changing anything |
| ReplyDemux.Demultiplexer.DropGuard | src/async_atmi.rs:168-193 | touches a slot only while its claim is this guard's; a made slot without a reply disappears, any other becomes collectable and any-reply waiters are woken |
| ReplyDemux.Demultiplexer.EarliestDeadline | src/async_atmi.rs:436-438 | the minimum of the recorded deadlines, none if there is none |
| ReplyDemux.Demultiplexer.AnyUnclaimed | src/async_atmi.rs:459-467 | finds an unclaimed reply exactly if there is one |
| ReplyDemux.Demultiplexer.IsTargetReady | src/async_atmi.rs:474-484 | readiness of a named or any-reply target, a pending queue error included |
| ReplyDemux.Demultiplexer.ParkWaker | src/async_atmi.rs:505-529 | the latest waker of the target is parked, and only there |
| ReplyDemux.Demultiplexer.WakeAnyWaiters | src/async_atmi.rs:532-542 | every parked any-reply waker is called once and no longer parked |
| ReplyDemux.Demultiplexer.RegisterAnyWaiter | src/async_atmi.rs:545-552 | a number no live registration has; ready exactly if some reply is unclaimed; other registrations keep waker and error |
| ReplyDemux.Demultiplexer.DeregisterAnyWaiter | src/async_atmi.rs:559-561 | the registration and its pending failure go; other registrations keep waker and error |
| ReplyDemux.Demultiplexer.TakeAnyError | src/async_atmi.rs:568-573 | returns the registration's pending error and leaves none pending; every registration stays, with its waker, and the others keep their errors |
| ReplyDemux.Demultiplexer.TakeReady | src/async_atmi.rs:603-618 | collects a ready slot of the target, with what the caller is then told and has in its buffer, or leaves everything as it was exactly when there is none |
| ReplyDemux.Demultiplexer.HandOver | src/async_atmi.rs:628-672 | swaps the caller's buffer with the reply's, or under `TPNOCHANGE` refuses a reply of another type or subtype and keeps its buffer for reuse |
| ReplyDemux.Demultiplexer.Drain | src/async_atmi.rs:702-708 | the re-entry guard: a drain within a drain changes nothing, any other is the whole drain |
| ReplyDemux.Demultiplexer.DrainInner | src/async_atmi.rs:717-771 | the loop ends on every finite queue with the state `DemuxModel.Drain` describes |
| ReplyDemux.Demultiplexer.Route | src/async_atmi.rs:798-852 | the first reply of a slot wins, its claim is kept, its waker and all any-reply wakers are called |
| ReplyDemux.Demultiplexer.FailAllWaiting | src/async_atmi.rs:859-888 | every waiting slot and every present any-reply registration gets the error; ready slots are untouched |
| ReplyDemux.Demultiplexer.Release | src/async_atmi.rs:898-911 | frees everything held, each allocation once, and nothing of a caller's |
| AsyncAtmi.AsyncAtmiCtx.ReleaseSlot | src/async_atmi.rs:1581-1591 | the descriptor is no longer tracked, its deadline is forgotten and what its slot parked is freed; nothing else changes |
| AsyncAtmi.AsyncAtmiCtx.TpCancel | src/async_atmi.rs:1490-1501 | slot, deadline and parked buffer go, the native call is cancelled, the queue is drained and any-reply waiters woken |
| AsyncAtmi.AsyncAtmiCtx.RegisterSubmission | src/async_atmi.rs:1241-1271 | a number still tracked is refused and only the new call given up, the tracked slot and deadline surviving; otherwise an open slot and the given deadline are recorded and nothing else |
| AsyncAtmi.AsyncAtmiCtx.TryCollect | src/async_atmi.rs:1613-1641 | collects before or after one drain; else a pending queue error, else `TPEBLOCK` for a nonblocking caller, else it waits, with nothing changed since the drain and an any-reply waiter still registered |
| AsyncAtmi.AsyncAtmiCtx.AfterWake | src/async_atmi.rs:1643-1682 | after a wake it drains and collects; at the deadline it cancels or releases its own slot only if nothing was collected |
| AsyncAtmi.AsyncAtmiCtx.PollWait | src/async_atmi.rs:1703-1765 | parks the waker first, then readiness beats the reactor and the reactor beats the clock |
| AsyncAtmi.AsyncAtmiCtx.DropPending | src/async_atmi.rs:1842-1851 | an unfinished call is cancelled, a finished one only forgotten |
| AsyncAtmi.AsyncAtmiCtx.Close | src/async_atmi.rs:1792-1798 | dropping the adapter leaves exactly the callers' buffers live |
| DemuxBuffers.TakeSlotKeeps | src/async_atmi.rs:603-672 | a hand-over or a `TPNOCHANGE` refusal loses no buffer: the callers' buffers change by exactly the swap |
| DemuxBuffers.DrainKeeps | src/async_atmi.rs:717-789 | a drain takes no buffer from a caller, loses none and changes none of their contents |
| DemuxBuffers.TpCancelKeeps | src/async_atmi.rs:1490-1501 | cancelling frees what the slot parked and keeps every other buffer where it belongs |
| DemuxDrain.DrainIsFold | src/async_atmi.rs:717-771 | the drain leaves the slot table that folding first-reply-wins routing over the queue gives, up to the first undirected error |
| DemuxDrain.DrainLeavesRest | src/async_atmi.rs:717-771 | what a drain does not receive stays queued, in order, for the next |
| DemuxDrain.FoldSettles | src/async_atmi.rs:717-771 | for every queue and supply of buffers: a slot keeps what it had, else gets the first reply routed for it, else the failure the drain stopped with |
| DemuxDrain.SplitDrain | src/async_atmi.rs:702-771 | draining replies and later the rest, whatever it is, gives the same table as draining it all at once, however few buffers are left |
| DemuxDrain.RepliesCommute | src/async_atmi.rs:798-852 | replies of different descriptors commute in any queue, except exactly when the drain reaches them with one buffer left and both open |
| DemuxRuns.RunSafe | src/async_atmi.rs:150-911 | every world of every run satisfies the claim, loan, delivery, wake-up and deadline invariants together |
| DemuxRuns.DeliverySafety | src/async_atmi.rs:1067-1100 | a `tpcall` collects the first reply or queue failure of its own generation, every payload collected is of a known generation, nobody else collects one of a `tpcall`'s generation, no two calls share a descriptor |
| DemuxRuns.CallReturns | src/async_atmi.rs:1077-1100 | what a call returns in any run, by the history then and ever after: its reply's outcome with payload and length, the queue's error with its buffer untouched, or `TPEOTYPE` |
| DemuxRuns.HistoryStays | src/async_atmi.rs:809-818 | what first happened to a generation never changes later |
| DemuxRuns.NoLostWakeup | src/async_atmi.rs:474-542 | a future that found nothing and whose target is ready has been woken since |
| DemuxFailures.QueueFailureReaches | src/async_atmi.rs:859-888 | in any run a queue failure is pending for every any-reply wait and fills every open slot; a reply that has landed stays |
| DemuxFailures.PendingFailureStays | src/async_atmi.rs:559-573 | a pending queue failure stays pending through any run until its own wait ends |
| DemuxFailures.SameFailureStays | src/async_atmi.rs:559-573 | and is the same one unless the queue fails again |
| DemuxRuns.OneGuard | src/async_atmi.rs:376-402 | a slot claimed by a waiter number has exactly one live guard with it; dropping any other guard changes nothing |
| DemuxRuns.DroppedWaitFreesDescriptor | src/async_atmi.rs:168-193 | in any run a dropped named wait leaves its descriptor claimable: the slot it made is gone if no reply landed, a landed reply stays collectable, other slots stay |
| DemuxRuns.Conservation | src/async_atmi.rs:581-690 | each live buffer is in exactly one slot, or spare, or an orphan, or in the program's hands, which are counted on their own |
| DemuxRuns.HandsChange | src/async_atmi.rs:628-672 | only a collection changes the program's hands, by exactly the swap |
| DemuxRuns.ReleaseLeavesHands | src/async_atmi.rs:898-911 | at any time, freeing all that is held leaves exactly what the program has in hand |
| DemuxRuns.EarliestOfLiveCalls | src/async_atmi.rs:1408-1418 | the deadline `TPGETANY` uses belongs to a call still tracked |
| DemuxRuns.SubmissionRecords | src/async_atmi.rs:1241-1271 | in any run an accepted submission records the deadline it was given |
| DemuxRuns.DeadlineThroughRun | src/async_atmi.rs:411-447 | from its recording to completion or cancellation, in every world of a run between, a deadline is the one recorded |
| DemuxForeign.ForeignCancelMisdelivers | src/async_atmi.rs:609-616 | a run with one foreign cancellation in which the call of generation 0 collects the reply of generation 1 |
| DemuxForeign.OnlyOneRuleBroken | src/async_atmi.rs:609-616 | every other event of that run keeps all the rules |
| DemuxStretches.DrainIsRun | src/async_atmi.rs:717-771 | a whole drain is a run of the transition system |
| DemuxStretches.SubmitIsRun | src/async_atmi.rs:1241-1271 | an accepted or refused submission is a run of it |
| DemuxStretches.CallEndsIsRun | src/async_atmi.rs:1842-1851 | a call that is dropped, fails or times out is a run of it |
| DemuxStretches.CallCompletesIsRun | src/async_atmi.rs:1088-1100 | so is a call that collects its reply |
| DemuxStretches.NamedTimeoutIsRun | src/async_atmi.rs:1657-1682 | so is a named wait that times out |
| DemuxStretches.NamedStartIsRun | src/async_atmi.rs:1430-1436 | starting a named wait is a run: it claims the slot |
| DemuxStretches.NamedRefusedIsRun | src/async_atmi.rs:1430-1436 | a refused named wait is a run that changes nothing |
| DemuxStretches.AnyStartIsRun | src/async_atmi.rs:1422-1426 | starting an any-reply wait is a run: it registers |
| DemuxStretches.PollIsRun | src/async_atmi.rs:1703-1765 | a poll is a run; the future waits on exactly if nothing is ready and nothing else woke it |
| DemuxStretches.ParkingIsRun | src/async_atmi.rs:1613-1643 | a wait that drains, finds nothing and parks is a run; it is pending exactly if nothing is ready and nothing else woke it, and then its slot or registration is there with its waker |
| DemuxStretches.CallGivesUpIsRun | src/async_atmi.rs:1657-1682 | a `tpcall` that drains at its deadline, finds nothing and gives up is a run |
| DemuxStretches.NamedGivesUpIsRun | src/async_atmi.rs:1657-1682 | so is a named wait that does |
| DemuxStretches.AnyGivesUpIsRun | src/async_atmi.rs:1657-1682 | and an any-reply wait that does |
| DemuxStretches.NamedCompletesIsRun | src/async_atmi.rs:1448-1456 | a named wait that collects is a run |
| DemuxStretches.AnyCompletesIsRun | src/async_atmi.rs:1448-1456 | an any-reply wait that collects is a run |
| DemuxStretches.NamedLeavesIsRun | src/async_atmi.rs:1428-1436 | a named wait dropped or finding nothing is a run |
| DemuxStretches.AnyLeavesIsRun | src/async_atmi.rs:1624-1641 | an any-reply wait dropped, timed out, finding nothing or ending with its pending error is a run |
| DemuxStretches.CancelIsRun | src/async_atmi.rs:1490-1501 | so is a program's cancellation |
| UbfFields.PutColumn | src/ubf_complex.rs:192-223 | writing an occurrence writes its column, filling a gap with defaults, and no other |
| UbfFields.DelColumn | src/ubf_complex.rs:47-55 | deleting an occurrence moves the later ones of its column down and touches no other |
| UbfFields.SameColumns | src/typed_ubf.rs:1463-1490 | a buffer in field order is determined by its columns |
| UbfHeap.FreeExactly | src/ubf_complex.rs:470-477 | the cascading free of buffers whose unfolding meets nothing twice frees exactly what it meets, each once |
| UbfComplex.UbfContext.PutNative | src/ubf_complex.rs:192-223 | grows until the occurrence fits, ends, and writes exactly that occurrence, or fails and changes no contents |
| UbfComplex.UbfContext.FreeRoots | src/ubf_complex.rs:470-477 | detached roots and all they own are freed, each once |
| UbfComplex.UbfContext.CollectRoots | src/ubf_complex.rs:439-461 | all pointer targets through inline children, in order; refused exactly beyond 128 nested levels |
| UbfComplex.UbfContext.OwnedFieldRoots | src/ubf_complex.rs:148-179 | what one occurrence owns |
| UbfComplex.UbfContext.UniqueTargets | src/ubf_complex.rs:642-673 | accepts exactly when no target is met twice or was seen, all are live and nesting fits, and returns what was met |
| UbfComplex.UbfContext.EnsureOwnedTree | src/ubf_complex.rs:135-139 | sound and complete: accepts exactly the trees that do not contain their root |
| UbfOwnership.GiveUp | src/ubf_complex.rs:135-179 | after acceptance one occurrence's targets can be freed without freeing anything twice, the root, or what other occurrences own |
| UbfOwnership.OccurrencesApart | src/ubf_complex.rs:642-673 | in an accepted tree the occurrences own disjoint sets |
| SerdeSteps.OwnedIsShallow | src/ubf_complex.rs:135-179 | where every buffer has one owner the check refuses nothing but depth: a buffer of the program is accepted exactly if it nests at most 128 levels |
| SerdeSteps.MayGoShown | src/ubf_complex.rs:148-179 | there, whether an occurrence may be removed or overwritten can be told from the buffer's value: it owns nothing, or the buffer nests at most 128 levels |
| UbfComplex.UbfContext.BdelOwned | src/ubf_complex.rs:47-55 | succeeds exactly when present and allowed; deletes the occurrence and frees what it owned; else changes nothing |
| UbfComplex.UbfContext.PutNullComplex | src/ubf_complex.rs:92-132 | overwrites with the kind's NULL in place and frees what was there; errors change no contents |
| UbfComplex.UbfContext.EmbedUbf | src/ubf_complex.rs:286-335 | the child's contents become the occurrence's, with its targets if transferred; the child is gone in every outcome, its tree freed on failure only; the success part holds for any child, shared or cyclic |
| UbfComplex.UbfContext.WriteValue | src/typed_ubf.rs:631-763 | write or append with growth: on success the value is stored and what it replaced freed; on failure a handed-over buffer is freed and contents are unchanged; the success part holds for any buffer, shared or cyclic |
| UbfComplex.UbfContext.BextractPtr | src/typed_ubf.rs:1342-1354 | succeeds exactly on a non-NULL pointer in an owned tree; removes the reference and hands the target out |
| UbfComplex.UbfContext.ClearFrom | src/ubf_serde.rs:52-63 | removes and frees the occurrences from an index on, last first, or stops at the one that may not go |
| UbfForest.OneOwnerEach | src/ubf_complex.rs:632-634 | in a forest each buffer has one owner: the program once, or one PTR occurrence of one buffer |
| UbfEdits.KeepsForest | src/ubf_complex.rs:47-335 | an edit that exchanges an occurrence's targets for buffers of the program keeps the forest |
| UbfEdits.DeleteReads | src/ubf_complex.rs:47-55 | deleting deletes in the value read back |
| UbfEdits.PutReads | src/typed_ubf.rs:707-755 | writing writes the value's tree at that place of the value read back |
| UbfEdits.OthersRead | src/ubf_complex.rs:632-634 | buffers of other owners read as before |
| UbfRuns.OneOwnerAlways | src/ubf_complex.rs:47-335 | over every run of edits, successes and failures, one owner each, no dangling pointer, no double free |
| UbfRuns.WriteIsEdit | src/typed_ubf.rs:631-763 | what a successful write promises is one of the edits of the runs |
| UbfRuns.RemovalsAreEdits | src/ubf_complex.rs:47-55 | successful deletions and extractions are edits of the runs |
| UbfRuns.NullIsEdit | src/ubf_complex.rs:92-132 | so is a successful NULL placeholder |
| UbfRuns.FailureIsDrop | src/typed_ubf.rs:631-763 | what a failed write promises is the drop of its buffer |
| UbfRuns.ClearIsEdits | src/ubf_serde.rs:52-63 | clearing a suffix, to the end or not, is a run of deletions |
| UbfRuns.NoLeak | src/typed_ubf.rs:631-763 | once the program holds nothing, nothing is live |
| UbfClone.DeepClone | src/ubf_complex.rs:24-35 | succeeds exactly when paths fit 128 levels and targets are live, memory permitting; an equal tree of fresh buffers, source unchanged, accepted as an owned tree; a failure restores the heap |
| UbfClone.CloneUbf | src/ubf_complex.rs:535-630 | the recursive copy at any active path: exact success condition, fresh equal copy, and the path as it was in every outcome |
| UbfClone.CloneBuffer | src/ubf_complex.rs:486-526 | the same for a pointer target of any type |
| UbfClone.ClonePointerTarget | src/ubf_complex.rs:422-430 | the same for the target of a pointer occurrence, which stays where it is |
| UbfClone.CopyKeepsForest | src/ubf_complex.rs:24-35 | the copy is one more buffer of the program and everything else keeps its owner |
| UbfClone.CycleNeverFits | src/ubf_complex.rs:540-546 | a buffer on a pointer cycle fits no depth, so it is never copied |
| UbfClone.LoopNeverFits | src/ubf_complex.rs:540-546 | an address met again on the active path fits no depth |
| SerdeModel.Occurrence | src/ubf_serde.rs:717-725 | exactly the nonnegative sums within the native index range |
| SerdeWindows.WriteTouches | src/ubf_serde.rs:464-586 | any write touches only its window of its column; a collection element takes exactly one occurrence |
| SerdeWindows.ItemsTouch | src/ubf_serde.rs:1154-1188 | element `i` lands at the start plus `i` |
| SerdeWindows.ClearTouches | src/ubf_serde.rs:52-63 | clearing leaves exactly what lies below |
| SerdeRoundTrip.CollectionWindows | src/ubf_serde.rs:528-556 | a nonempty vector leaves exactly start plus length occurrences, an empty one none from the start on; an array changes only its window |
| SerdeRoundTrip.AbsentKeepsPlace | src/ubf_serde.rs:1104-1125 | an absent element of a pointer or VIEW collection keeps its place, at the tail too, and reads as absent |
| SerdeTyping.WriteSucceeds | src/ubf_serde.rs:464-586 | a write succeeds exactly for the values of its type, whatever the buffer holds: vectors of every length in range, arrays, optional values, structures, inline ones without pointers |
| SerdeTyping.FieldsSucceed | src/ubf_serde.rs:144-157 | a structure is written exactly if each field has a value of its type |
| SerdeTyping.PointersInside | src/ubf_serde.rs:646-663 | whether a written structure holds a pointer can be told from its fields |
| SerdeTyping.VecSucceeds | src/ubf_serde.rs:1502-1524 | a vector of rows is written exactly if the rows are well typed and the first row and the end fit the index range |
| SerdeTyping.ArraySucceeds | src/ubf_serde.rs:1550-1567 | an array of rows, exactly if they are well typed and the first and the last fit |
| SerdeDepth.FieldsSmooth | src/ubf_serde.rs:144-157 | in a buffer of at most 128 levels a structure nesting less than 128 makes no edit that could be refused |
| SerdeReads.ReadMeans | src/ubf_serde.rs:501-586 | a read gives exactly the value that stands there, absent, NULL and mistyped occurrences included, if it nests no deeper than the read may go |
| SerdeReads.VecMeans | src/ubf_serde.rs:1527-1547 | reading a flat vector gives exactly the rows that stand there, as many as the anchor says without its offset |
| SerdeRoundTrip.ReadBack | src/ubf_serde.rs:646-682 | a field of any type reads back as written exactly when its children nest no deeper than the read may go |
| SerdeRoundTrip.StructureRoundTrip | src/ubf_serde.rs:144-161 | a structure written into any buffer reads back exactly when its children nest at most 128 levels |
| SerdeRoundTrip.UnmappedStay | src/ubf_serde.rs:144-157 | every occurrence the structure does not map stays, in unnamed fields and below or beyond the windows of named ones; gaps get the default |
| UbfSerde.WriteField | src/ubf_serde.rs:1058-1271 | the write on the native heap does to the value what the mapping says; it fails only if the value is not of the type, a replacement is not allowed, or there is no room or memory; in every outcome the forest and other buffers are kept |
| UbfSerde.WriteChild | src/ubf_serde.rs:646-663 | a child structure is built in its own buffer and given to the occurrence, or dropped |
| UbfSerde.WriteElements | src/ubf_serde.rs:1154-1188 | the loop over elements refines the element-by-element write |
| UbfSerde.UbfWrite | src/ubf_serde.rs:144-157 | a successful write gives the buffer exactly the mapped value: what is not mapped stays, and it reads back within 128 levels; it fails only for an ill-typed structure, a replacement that is not allowed, or lack of room or memory, and below 128 levels with growth allowed only for an ill-typed structure or lack of memory; the result is a forest with everything replaced freed and other buffers untouched |
| UbfRead.ReadIsOfValue | src/ubf_serde.rs:10-40 | reading the heap, with the scope's address and depth checks, is reading the buffer's value |
| UbfRead.HeapRoundTrip | src/ubf_serde.rs:144-161 | a written structure is read back from the heap exactly if it nests at most 128 levels |
| UbfGroups.WriteVector | src/ubf_serde.rs:1502-1524 | the heap write of a flat vector refines the value write and reads back as the rows; it fails only for ill-typed or misplaced rows, a replacement that is not allowed, or lack of room or memory |
| SerdeGroups.GroupRoundTrip | src/ubf_serde.rs:1502-1547 | a flat vector reads back as the rows written, for any number of rows, base and offsets |
| SerdeGroups.ArrayRoundTrip | src/ubf_serde.rs:1550-1590 | a fixed array of rows reads back as written and changes only its window of each column |
| SerdeGroups.VecColumns | src/ubf_serde.rs:1502-1524 | each member's column ends at base plus rows plus offset, or no later than base plus offset without rows, with its prefix kept |
| SerdeGroups.ValidBetween | src/ubf_serde.rs:1516-1523 | validating the first row and the end validates every row between |
| SerdeGroups.RowTouches | src/ubf_serde.rs:1424-1448 | a row puts each member in exactly one occurrence of its column |
| ScriptBuffers.TpScrBuffers.Replace | src/script_buffers.rs:208-220 | the slot and its linked slots get exactly the pointer and length, all others keep theirs, the provider's slots follow, and the old allocation is freed when nothing refers to it |
| ScriptBuffers.TpScrBuffers.Set | src/script_buffers.rs:150-172 | stores an owned buffer with its length or clears, in the slot and those linked to it; refuses exactly an unavailable slot, a foreign buffer and a length beyond the native one, and drops the buffer then |
| ScriptBuffers.TpScrBuffers.Alias | src/script_buffers.rs:185-198 | the destination and its linked slots get the source's pointer and length |
| ScriptBuffers.TpScrBuffers.Get | src/script_buffers.rs:231-257 | refuses a negative or oversized length and a dead pointer; reports the initialized length of the type |
| ScriptBuffers.TpScrBuffers.Take | src/script_buffers.rs:269-285 | the buffer leaves every slot that refers to it and reports its initialized length |
| ScriptBuffers.TpScrBuffers.Edit | src/script_buffers.rs:294-337 | whatever the closure made of the buffer returns to every slot it was taken from |
| ScriptBuffers.TpScrBuffers.Execute | src/tpscript.rs:1047-1081 | whatever the script left in the slots is written out to the provider's slots, also when it failed |
| ScriptModel.SyncWrites | src/script_buffers.rs:451-462 | writing out gives each provider slot the pointer and length of the last slot that is it, and changes no other |
| ScriptModel.AdoptedSlots | src/script_buffers.rs:367-394 | adopted slots hold what the provider's hold, and two are linked exactly if they are one provider slot |
| ScriptBuffers.TpScrBuffers.ReturnToNative | src/script_buffers.rs:410-446 | gives the slots back exactly when they are of its context, none is unavailable and none of the provider's slots gets two values |
| ScriptBuffers.TpScrBuffers.Close | src/script_buffers.rs:466-483 | nulls the provider's slots and frees each allocation once |
| ScriptBuffers.AdoptCallback | src/script_buffers.rs:367-394 | the collection mirrors the provider's slots, equal slots linked; unpaired slots are refused |
| ScriptBuffers.FinishCallback | src/tpscript.rs:1138-1157 | the buffers go back, or the callback fails and the collection is dropped |
| ScriptRuns.RunGood | src/script_buffers.rs:150-337 | over any run the slots' pointers are exactly the allocations owned, linked slots agree and the provider's slots mirror them |
| ScriptRuns.ReplaceGood | src/script_buffers.rs:208-220 | an allocation is freed exactly when its last reference goes |
| ScriptRuns.EditKeepsAliases | src/script_buffers.rs:294-309 | an edit keeps the alias partition |
| ScriptRuns.DropFrees | src/script_buffers.rs:466-483 | dropping after any run leaves exactly what the program holds live and the provider's slots null |
| ScriptRuns.AlwaysReturns | src/script_buffers.rs:410-446 | after a closure that only sets, aliases, takes and edits, the slots can always be given back |
| ScriptRuns.HandOffSafe | src/script_buffers.rs:367-446 | after any closure whatsoever the slots go back holding null or live buffers, or everything is freed once and the slots are null |
| ScriptRuns.HandOff | src/script_buffers.rs:367-483 | after any closure whose replacements lose nothing, the live allocations are exactly the provider's and those outside, or, if the slots cannot go back, exactly those outside |
| ScriptRuns.AgreeingScriptsAreCalm | src/script_buffers.rs:208-220 | no closure loses anything unless a script leaves linked slots differing |
| ScriptRuns.ReplaceAccounts | src/script_buffers.rs:208-220 | replacing keeps the accounts exactly when each linked slot holds nothing, the replaced or the new pointer, or one that an unlinked slot holds too |
| ScriptRuns.SplitLinkLeaks | src/tpscript.rs:1047-1081 | a callback in which a script leaves linked slots different, and clearing one loses the other's allocation |
| Backpressure.SendWithBackpressure | src/async_atmi.rs:71-97 | watched for any number of turns: no send at or after the deadline; only a full queue is retried; the result is that of the attempt that ended the loop, or a time-out once the deadline has passed, never without one; each sleep is the pause due, cut short by the deadline only; with a deadline it ends |
| Backpressure.AttemptsBounded | src/async_atmi.rs:84-96 | the pauses between the attempts fit before the deadline: `16 * A - 65` milliseconds from five attempts on |
| OneShot.Native.RetryTpacall | src/async_atmi.rs:1314-1355 | a retry sends once with the time left, rounded up (the longest timeout only beyond what one can say), and exactly the given priority, or nothing; what is set for the next submission stays |
| OneShot.Sending.Attempt | src/async_atmi.rs:1180-1216 | a first attempt uses what was set and, blocked, remembers the priority it resolved to; a retry uses the remembered one |
| OneShot.NextSubmissionUses | src/async_atmi.rs:1171-1220 | a submission gets exactly what was set since the last one, whatever retries ran between |
| OneShot.CarriedStays | src/async_atmi.rs:1171-1200 | a submission in retries carries its own deadline and first-resolved priority through whatever all tasks do |
| OneShot.EveryRetryIsItsOwn | src/async_atmi.rs:1171-1355 | in any interleaving every retry uses the priority its task's own first attempt resolved and the ceiling of its own remaining time |

## Left out

- AsyncAtmi.AsyncAtmiCtx.PollWait: the reactor and the clock are given as inputs; runtime drivers, file descriptors and readiness tokens are not modelled.
- ReplyDemux.Demultiplexer.WakeAnyWaiters: wakers are numbers collected in a set, so a waker called twice shows once and the order of calls is not captured.
- UbfRead.ReadIsOfValue: the scope is a path handed down; that it is one stack per thread, shared by nested reads of different buffers, is not captured.
- SerdeGroups.GroupRoundTrip: a single row as a field, `flatten`, `skip` and `default` are not modelled. A single row is one turn of the loop over rows, `flatten` puts two structures' fields in one list, and the other two write nothing, so none of them changes what the theorems say.
- UbfComplex.UbfContext.PutNative: native growth keeps the buffer's identity; a moved address and the pointers a foreign graph may hold to it are not captured.
- UbfClone.CloneBuffer: payloads are compared, not spare capacity; the size checks of VIEW layouts and the length limit of VIEW names are not modelled.
- UbfComplex.UbfContext.WriteValue: negative occurrence numbers, which the native layer refuses, and the conversions between scalar types are not modelled; data is an opaque payload.
- ScriptBuffers.TpScrBuffers.Edit: the closure is represented by the buffer and the heap it leaves.
- ScriptBuffers.AdoptCallback: a provider slot is a pointer cell with its length cell; one pointer cell given with two different length cells is not modelled.
- UbfComplex.UbfContext.EmbedUbf: when the write fails and the handed-over child shares a buffer within itself, dropping it would free that buffer twice, and what then becomes of the heap is not said.
- Flag checks of the asynchronous calls (`TPNOABORT`, `TPTRANSUSPEND`, `TPNOREPLY`) and the reading of the context's default timeout.
- The plain native wrappers, runtime registration, VIEW member mapping, the derive macros' syntax, JSON, text and binary dumps, expression evaluation, and the fast-append cursor.
- Errors are kept apart by code only; message texts are not modelled.
