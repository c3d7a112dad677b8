# imps: a verified model

A Dafny 4.11 model of the core of the `imps` harness (a Go library for running
message-driven workers on NATS) and of its durable tier, `persist`, with proofs
of what the two promise. `dafny verify dfyconfig.toml` checks everything.

The sequential, in-place code is modelled by classes whose methods are proved
against pure functions on values; the theorems about whole runs are then proved
over those functions. The concurrent code is modelled by one atomic step per
shared access, and every theorem about it holds for all schedules and any number
of callers.

| file | what it models |
|---|---|
| `Wrappers.dfy` | entities, optional values, finite sums |
| `StoreSpec.dfy`, `Store.dfy` | the write-through LRU store of `persist/store.go`: its transition functions, and the class that implements them in place |
| `StoreRefinement.dfy` | without a wake hook, the store is the plain map it speeds up |
| `StoreOutcomes.dfy` | when each call of the store succeeds, with which error it fails, what it returns and stores |
| `StoreWake.dfy` | the wake law, the wake log, conservation of time |
| `StoreLru.dfy` | recency order, eviction, inclusion between bounds |
| `KeySpace.dfy` | when several stores can share a backend |
| `Registry.dfy`, `RegistryProgress.dfy` | the lock-free capped allocator of `registry.go`: safety and progress |
| `SlotCell.dfy` | the mutex-guarded slot behind a state reference |
| `RegistryObjects.dfy` | the counter, the slot map and the slots as objects that interleaved calls update in place |
| `Lifecycle.dfy`, `LifecycleObjects.dfy` | concurrent `Run` and `Shutdown` over the lifecycle state, and the objects they update |
| `LifecycleProgress.dfy`, `LifecycleVerdict.dfy` | who passes the swap, that everybody who enters `Shutdown` returns, and with what |
| `Resources.dfy`, `Startup.dfy`, `BindOutcomes.dfy` | binding channels, rolling back, unwinding, and when binding and starting succeed |
| `Overlap.dfy`, `OverlapProgress.dfy` | start, rollback and `Shutdown` interleaved channel by channel, and how they end |
| `ReleaseRace.dfy` | several calls of the teardown loop at once, access by access |
| `Drain.dfy` | thinking goroutines, the gauge, and the drain wait |
| `Dispatch.dfy` | the two per-message pipelines and what the counters add up to |
| `RequestMany.dfy` | the fan-out collect loop |
| `Decimal.dfy`, `Durable.dfy` | the decimal printer, durable consumer configuration and compatibility |

## Conventions and assumptions

- Clocks, the backend's and the substrate's health, user callbacks and the
  choices of `select` are parameters (`Env`, `Luck`, `Message`, `Event`, a
  schedule); every theorem quantifies over them.
- The store: its mutex makes each call atomic; the state type is an immutable
  value; `fn`, `wake` and the codec are pure; decoding undoes encoding
  (`Faithful`); one writer per key space; a failing backend call changes nothing.
  Bytes that do not decode are modelled, with the error each kind gives.
- Origins of resident values, the wake log, rounds of the compare-and-swap loop,
  the states seen and similar fields are history: the code does not keep them.
- In `Overlap.dfy` binding one channel is one step, and so is releasing one;
  `ReleaseRace.dfy` splits the release of a consume loop.
- Whether a call's state factory panics is a parameter of the call; the panic
  itself ends in the recovery of awareness or thinking.
- The wait group, `sync.Once`, `sync.Map`, `sync.Mutex` and atomics follow their
  documented behaviour.
- `bootRuntime` has succeeded; state shapes and channels have passed validation.

## Where the documentation and the code differ

- `persist/store.go:83-85` says stores do not collide as long as their names
  differ. `a` and `a.b` do collide. `KeySpace.ApartIff` gives the exact condition.
- `registry.go:48-49` says reads and writes on existing slots succeed regardless
  of the cap. A call that missed its entity before a racing call stored it can be
  refused afterwards (`Registry.RaceCanRefuseAnExistingEntity`); a call that
  begins once the slot exists never is (`Registry.LateCallsAlwaysFind`), and
  `Registry.RefusedIffReadFull` says exactly when a call is refused.
- `registry.go:44-49` gives a reservation back only when a race is lost. A factory
  that panics, where the harness recovers the panic, strands its place for good;
  `Registry.ReservationInvariant` counts those places.
- `imp.go:112-114` reports Run as already invoked also to the only Run there is, if
  a Shutdown came between boot and the swap
  (`LifecycleProgress.RejectedWithoutAWinner`); `LifecycleProgress.WinnerIff` says
  exactly when some Run passes.
- `internal/lifecycle/state.go:10-12` calls transitions one-way, but `Set` takes
  any target (and returns the previous state, not whether it moved). Two runs
  leave the documented order; `Lifecycle.DocumentedIffDrainedWhileRunning` says
  exactly when a run keeps it.
- `imp.go:231-233` says nil means all thinking completed. It means there was a
  moment when it had; a dispatch still under way may launch afterwards
  (`Drain.NilDoesNotMeanIdle`). `Drain.NilMeansIdleIff` says exactly when nil is
  bound to mean it: when no dispatch has a launch still to make.
- `imp.go:196-201` says Shutdown stops accepting new messages. If it overtakes a
  start, channels bound after its loops began stay live
  (`Overlap.ShutdownOvertakesStart`); `Overlap.LeaksIff` says exactly when.
- `start.go:67-68` calls unwind idempotent. Called twice in a row it is
  (`Resources.UnwindTwice`), but two calls at once, which only a failed start can
  bring about (`Overlap.TwoUnwindersOnlyAfterFailure`), can reach Stop through a
  field the other has just cleared; `ReleaseRace.CrashIff` says exactly when.
- A declared ack policy other than explicit is accepted when a durable is created
  and refused on every later start (`stream.go:161-164`, `stream.go:206-208`).
- `itoa` prints the smallest 64-bit integer as a bare sign.

## Model

| member | source | states |
|---|---|---|
| Persist.Backend.Get | persist/backend.go:14-22 | a missing key is its own answer, a failure is never a value |
| Persist.Backend.Put | persist/backend.go:14-22 | a failing put leaves the backend unchanged |
| Persist.Backend.Delete | persist/backend.go:14-22 | deleting an absent key is no error; a failing delete changes nothing |
| Persist.Store.constructor | persist/store.go:86-104 | a new store holds nothing, whatever the backend holds |
| Persist.Store.MoveToFront | persist/store.go:124 | reordering the list keeps map and list in step and moves exactly that element |
| Persist.Store.Insert | persist/store.go:210-217 | evicts from the cold end until there is room, then adds at the front; map and list stay in step |
| Persist.Store.GetLocked | persist/store.go:122-148 | hit, rehydration with wake, zero for never seen, and each error path, as the specification's load, without touching the backend |
| Persist.Store.Get | persist/store.go:114-118 | a get is a load |
| Persist.Store.WriteThrough | persist/store.go:162-180 | nothing is reflected in memory before the backend took it; the branch for an absent resident cannot be reached; the specification's commit, whose outcome StoreOutcomes.UpdateOutcome gives |
| Persist.Store.Update | persist/store.go:154-181 | load, apply, write through, with the value returned even on a failed write: the specification's update |
| Persist.Store.Delete | persist/store.go:186-197 | removes from backend and residency, or neither |
| Persist.Store.Resident | persist/store.go:200-204 | the list length is the number of residents in the map |
| Persist.Serve | persist/store.go:62-217 | the class, driven by any script of calls and rebuilds, returns exactly what the specification's run returns |
| StoreSpec.StepKeeps | persist/store.go:114-217 | every call keeps map and list in step, within bound, and every resident value lawful; failures and reads never change the backend |
| StoreSpec.LoadKeeps | persist/store.go:120-148 | a load never writes; on success the entity is resident, first in the list, with the value returned; a failed load changes nothing |
| StoreSpec.CommitKeeps | persist/store.go:150-181 | after a successful update state and stamp are stored, other entities untouched; after a failed one the resident value is the one before fn |
| StoreSpec.DeleteKeeps | persist/store.go:183-197 | delete empties backend and residency of one entity only, or fails and changes nothing |
| StoreOutcomes.GetOutcome | persist/store.go:120-148 | a get succeeds exactly when the entity is resident or reads are up and its stored bytes, if any, decode; with that value, woken once by the hook; the error otherwise |
| StoreOutcomes.UpdateOutcome | persist/store.go:154-181 | an update succeeds exactly when the load does, the new state marshals, the envelope seals and writes are up; what it stores then, and the first error otherwise |
| StoreOutcomes.DeleteOutcome | persist/store.go:183-197 | a delete succeeds exactly when writes are up, and removes that one key |
| StoreOutcomes.OfflineLoads | persist/store.go:122-134 | with reads down a get fails exactly for an entity that is not resident |
| StoreOutcomes.NothingFails | persist/store.go:114-197 | with the backend up, a total codec and nothing undecodable stored, no call of any run fails |
| StoreOutcomes.PlainMapAnswers | persist/store.go:114-197 | then, without a hook, every call returns what a plain map would after the operations before it |
| StoreRefinement.StepRefines | persist/store.go:114-197 | one call against a plain map: a success answers and moves as the map would, a failure leaves the map |
| StoreRefinement.RunRefinesPlainMap | persist/store.go:114-217 | over every script, bound, failure pattern and rebuild, each successful call returns what a plain map defaulting to zero returns |
| StoreRefinement.ResidencyIsInvisible | persist/doc.go:16-24 | without a wake hook, two stores with different bounds, rebuilds and read failures, whose updates and deletes succeed at the same calls, agree at every call that succeeds in both |
| StoreWake.WakeLaw | persist/doc.go:26-34 | a resident is what was stored, or zero with nothing stored, or the stored state woken once from its own stamp to the moment of its current load; wakes never compound |
| StoreWake.WakeLogIsExact | persist/store.go:24-29 | the hook runs once per rehydration of a stored entity, with its stored state and the interval since its stamp, and at no other time |
| StoreWake.JournalAccounts | persist/store.go:142-172 | what is stored is the replay of the entity's writes, each wake starting at the previous stamp |
| StoreSpec.LoadFailsIff | persist/store.go:128-141 | while reads are up, a load fails exactly on stored bytes that do not decode |
| StoreSpec.StepGarbled | persist/store.go:154-197 | bytes that do not decode stay until a Delete of their entity succeeds, and never appear |
| StoreWake.JournalStarts | persist/store.go:86-104 | whatever a backend holds, a freshly built store's journals account for it, from what is found that decodes |
| StoreWake.TimeIsConserved | persist/store.go:142-172 | the intervals folded into durable state are pairwise disjoint and sum to no more than last stamp minus first; without a journal nothing that decodes is stored |
| StoreLru.ResidentsAreTheMostRecent | persist/store.go:186-217 | over every run the residents are the front of the unbounded move-to-front list, at most bound many, the same distinct entities in map and list |
| StoreLru.EvictsOnlyTheColdest | persist/store.go:206-217 | a load evicts at most one entity, the coldest, only when full, and never the one loaded |
| StoreLru.LargerBoundHoldsMore | persist/store.go:122-217 | while reads are up, a store with a larger bound loading and deleting the same entities holds at every moment at least the same residents in the same order, whatever updates apply, whichever of their writes fail, and through rebuilds and undecodable entries |
| KeySpace.ApartIff | persist/store.go:83-108 | two stores never share a key exactly when neither dotted name begins the other, with or without the empty entity |
| KeySpace.ShadowsIff | persist/store.go:106-108 | that is: the names are equal, or one continues the other after a dot |
| KeySpace.DistinctNamesCanCollide | persist/store.go:83-85 | distinct names that collide |
| KeySpace.ApartStoresDoNotInterfere | persist/store.go:83-85 | over any run, a store never changes what a store kept apart from it has stored |
| Registry.ReservationInvariant | registry.go:44-73 | counter = stored slots + outstanding reservations + places stranded by panicking factories, never above the cap; no slot is removed or replaced; at rest, and without panics, the counter counts the slots |
| Registry.SlotIdentity | registry.go:55-72 | all successful calls for an entity hold the one slot the map keeps; a losing slot is never returned |
| Registry.RefusedIffReadFull | registry.go:55-62 | a call is refused exactly when, having missed its entity, it read a counter equal to the cap |
| Registry.LateCallsAlwaysFind | registry.go:48-57 | a call that begins after its entity has a slot is never refused |
| Registry.RaceCanRefuseAnExistingEntity | registry.go:55-72 | a run in which a call is refused although its entity has a slot by then |
| Registry.ExactlyRoomSucceed | registry.go:58-72 | N calls for distinct absent entities: exactly min(room, N) succeed or strand their place in a panic, the rest are refused |
| RegistryProgress.StepLowersMeasure | registry.go:58-72 | every step of every unfinished call lowers a measure of the whole shape |
| RegistryProgress.EveryScheduleFinishes | registry.go:50-73 | N concurrent calls finish within (2N + 1) 2N + 3N steps under every schedule |
| RegistryProgress.RoundsAreBounded | registry.go:58-66 | no call goes round the loop more than 2(N - 1) + 1 times |
| Registry.SoloOutcome | registry.go:50-73 | a call alone, whatever the others hold: its slot, a refusal at a full counter, a place stranded by its factory, or a fresh slot; it never gives its reservation back |
| RegistryObjects.ShapeObject.CompareAndSwap | registry.go:63-67 | reserves a place and makes a slot with the factory's value, strands it if the factory panics, or retries, as the model's step does |
| RegistryObjects.ShapeObject.LoadOrStore | registry.go:68-72 | stores the slot made, or finds the winner's |
| RegistryObjects.ShapeObject.Drive | registry.go:50-73 | interleaved calls on the shared objects do what the model's run does; slots stay within the cap and every success holds its entity's one object |
| RegistryObjects.ShapeObject.Ref | registry.go:50-73 | one call alone terminates, with the result and slots of the model's run that schedules only it |
| RegistryObjects.Registry.Ref | registry.go:50-73 | an undeclared shape is an error; otherwise the existing slot, the cap error with nothing changed, a panic that costs a place, or a slot added |
| SlotCell.SlotObject.Drive | registry.go:82-100 | a new slot object under interleaved Get, Set and Update does what the model's run does: once released its value is the fold of the operations in lock order |
| SlotCell.NoLostUpdates | registry.go:82-100 | under every interleaving the value is the fold, in lock order, of every operation; each Get returns the fold of those before it |
| SlotCell.GetSeesInitial | registry.go:82-86 | a get before every write returns the initial value |
| SlotCell.GetSeesSet | registry.go:82-93 | a get whose last write before it was a set returns what was set |
| SlotCell.GetSeesUpdate | registry.go:82-100 | a get whose last write before it was an update returns the update of what was read before it |
| SlotCell.EverybodyReturns | registry.go:82-100 | N goroutines take at most 4 N actions that change anything; when none can act, all have returned |
| Lifecycle.DocumentedIffDrainedWhileRunning | imp.go:106-229 | the states seen follow the documented order exactly when Draining, if marked, was marked from Running |
| Lifecycle.PatientRunsAreDocumented | imp.go:106-229 | if nobody enters Shutdown before the imp runs, the order is always the documented one |
| Lifecycle.EachStateOnce | imp.go:202-229 | over any run no state is held twice, so start and the shutdown body run at most once; whoever has returned did so after the body ran |
| Lifecycle.OnceAndForAll | imp.go:112-136 | at most one Run passes the swap, no two callers are in the shutdown body at a time, all return after Stopped with the same error |
| LifecycleProgress.WinnerIff | imp.go:112-114 | once Created is left, and so once any Run is rejected, some Run, and only one, has passed the swap exactly when Draining was not marked from Created |
| LifecycleProgress.PatientRunsHaveAWinner | imp.go:106-136 | if nobody enters Shutdown before the imp runs, some Run has passed as soon as one has tried |
| LifecycleProgress.RejectedWithoutAWinner | imp.go:112-114 | a run in which the only Run is rejected |
| LifecycleProgress.EverybodyReturns | imp.go:202-229 | N callers take at most 14 N steps that change anything; once nobody can move, everybody who entered Shutdown, and the Run that waited, has returned |
| LifecycleVerdict.ReturnsWhatTheDrainFound | imp.go:217-229 | in every run every caller that has returned returned what the one drain wait found; nobody returns before it ended, and the error is not set before |
| LifecycleObjects.Runtime.Drive | imp.go:106-229 | interleaved callers acting on the state holder, the once, the error and the channel do what the model's run does, and return what the drain wait found |
| Lifecycle.ShutdownAfterFailure | imp.go:116-122 | a run that moves Failed to Draining |
| Lifecycle.ShutdownWhileStarting | imp.go:112-124 | a run that ends as Running after Stopped |
| Resources.StartBindsInOrder | start.go:16-36 | start binds in declaration order, each channel with the live resource its kind calls for, and fails exactly when it did not get through; BindOutcomes says when that is |
| BindOutcomes.BindOutcome | stream.go:27-151 | binding a channel fails exactly with the first of its conditions that does not hold, an incompatible durable among them, and otherwise leaves exactly its resources |
| BindOutcomes.StartOutcome | start.go:16-36 | start fails exactly with the first fault of its channels, and succeeds when there is none |
| BindOutcomes.StartSucceedsIff | start.go:16-36 | start succeeds exactly when every channel, met with the JetStream context and the consumers the ones before it leave, has no fault |
| BindOutcomes.RestartBindsIff | stream.go:126-151 | a durable kept by the server from an earlier start is bound again exactly when the declared ack policy is explicit |
| Resources.UnwindReleases | start.go:69-88 | unwind releases exactly what is held and leaves nothing held |
| Resources.NothingIsLeaked | start.go:9-36 | after start and unwind, failed start or shutdown alike, live resources are those from before plus created durables plus exactly those whose release failed |
| Resources.UnwindTwice | start.go:67-88 | unwinding twice equals unwinding once |
| Startup.Imp.BindSubjectChannel | start.go:41-65 | one subscription and its record, or an error and nothing |
| Startup.Imp.ResolveConsumer | stream.go:104-151 | ephemeral, created durable, existing durable after its compatibility check, and each error |
| Startup.Imp.BindStreamChannel | stream.go:27-83 | a consume loop and its record; an ephemeral is deleted again if consuming fails |
| Startup.Imp.Start | start.go:16-36 | the loop does what the specification's start does |
| Startup.Imp.TeardownStreamConsumers | stream.go:334-365 | stops every loop, deletes every ephemeral, clears the records in place |
| Startup.Imp.Unwind | start.go:69-88 | the two loops do what the specification's unwind does |
| Startup.Imp.StartAndUnwind | imp.go:116-122 | a whole life leaves the substrate as it was, up to durables and failed releases |
| Overlap.IsLifecycleRun | imp.go:106-229 | a run taken channel by channel is a run of the lifecycle, whose theorems so apply |
| Overlap.LoopsRangeOverWhatIsBound | start.go:69-88 | each loop of Shutdown's unwind ranges over exactly the channels bound when that loop began |
| Overlap.LeaksIff | imp.go:112-129 | under every interleaving of start, rollback and shutdown, nothing is left live exactly when start failed or every channel was bound before the loop that releases its kind began |
| Overlap.InOrderNothingIsLeaked | start.go:67-88 | nothing is leaked when Draining was marked from Running, or when start failed, whenever Shutdown came |
| OverlapProgress.EveryRunEnds | imp.go:106-229 | N callers and C channels take at most 14 N + 5 C + 6 steps that change anything |
| OverlapProgress.EverythingSettles | imp.go:106-229 | once nobody can move, a failed start has been rolled back and whoever entered Shutdown has returned after unwinding |
| Overlap.TwoUnwindersOnlyAfterFailure | imp.go:116-122 | rollback and shutdown both unwind only if start failed |
| ReleaseRace.CrashIff | stream.go:339-343 | from any state of any number of teardown loops, Stop can be called on a cleared field exactly when a loop is about to, or two have the same live consume loop before them |
| ReleaseRace.BeginningCrashIff | stream.go:339-343 | loops about to begin can do so exactly when there are two of them and a consume loop is live |
| Overlap.ShutdownOvertakesStart | imp.go:202-215 | a run in which a channel stays subscribed after Shutdown |
| Drain.GaugeAndOutcomes | thinking.go:15-39 | the gauge is the thinks launched and not yet lowered; each recorded think counts at most once, by its own outcome |
| Drain.AllGoneAllCounted | thinking.go:15-39 | once every think is gone, gauge and group are zero and each think is counted exactly by how it ended |
| Drain.WindowEndsTheWait | imp.go:231-250 | the answer is the error exactly when the window ran out on the wait; it can at any moment of the wait, and a waiter that cannot move has answered |
| Drain.NilMeansDrained | imp.go:231-250 | if waitDrain returns nil there was a moment during the wait when everything launched had recorded, lowered and left |
| Drain.NilMeansIdleIff | imp.go:231-250 | nil is bound to mean that nothing is thinking exactly when no dispatch has a launch still to make |
| Drain.NilDoesNotMeanIdle | imp.go:231-250 | a run in which nil is returned while a think is running |
| Dispatch.Imp.SafeAwareness | dispatch.go:71-83 | a panic is reported, not propagated |
| Dispatch.Imp.InvokeNote | note.go:7-21 | no hook drops the payload; a panicking hook counts as an awareness panic |
| Dispatch.Imp.Dispatch | dispatch.go:27-66 | exactly the effects of a subject message, in order, with every counter equal to its effects, and the outcome its fields call for |
| Dispatch.Imp.DispatchStream | stream.go:260-314 | exactly the effects of a stream delivery, in order |
| Dispatch.StreamIsSubjectPlusAcks | stream.go:256-314 | without ack and nak, a stream delivery has exactly the effects of a subject message |
| Dispatch.OwnOrder | stream.go:260-314 | at every moment of every interleaving, what a delivery has done is the beginning of what it would do alone |
| Dispatch.CountedBeforeActing | dispatch.go:48-64 | in every interleaving, a delivery that delivered a note or launched a think had called awareness and then counted the verdict before |
| Dispatch.AckedBeforeActing | stream.go:287-304 | in every interleaving, a stream delivery that delivered a note or launched a think had called awareness and then acked before |
| Dispatch.InterleavingDoesNotMatter | dispatch.go:27-66 | however deliveries interleave, each effect happens as often as they ask together |
| Dispatch.EveryEffectIsAskedFor | stream.go:260-314 | after any interleaving every counter, ack, nak, note, think and awareness call has happened exactly as often as there are deliveries whose message fields ask for it |
| Dispatch.OnlyWhatIsAskedFor | dispatch.go:27-66 | at every moment of every interleaving, whatever a delivery has done its own message asked for |
| Dispatch.MessagesAreAccountedFor | dispatch.go:27-66 | every delivery shows in exactly one counter, a panicking hook once more; the naks, and their count, are the stream deliveries that failed before their ack, every other one is acked once |
| Dispatch.CountersMatchEffects | stream.go:260-314 | thinks launched, notes delivered and awareness calls are what the counters say |
| RequestMany.ResolveOptions | request.go:50-69 | the cap and the window are those of the last positive option of their kind, or none and the default |
| RequestMany.LastMaxUnique | request.go:50-69 | that cap is unique |
| RequestMany.NeverMoreThanMax | request.go:260-269 | where collecting stops, the cap has not been exceeded |
| RequestMany.FirstStopUnique | request.go:237-286 | there is one place to stop, so what is collected is determined |
| RequestMany.FirstStopCollects | request.go:237-286 | what is collected, event by event: each application reply at the place of its arrival, nothing else, stopping only at an ending or exactly at the cap |
| RequestMany.StopsSomewhere | request.go:237-286 | a wait some event ends stops, at a shortest prefix |
| RequestMany.Conn.RequestMany | request.go:163-287 | each non-status reply up to the first event that ends or caps the wait, at the place of its arrival; the error of each path; no inbox left if unsubscribing succeeds |
| RequestMany.Conn.Collect | request.go:237-286 | the loop stops at the first event that ends or caps the wait, with the replies in order of arrival |
| Decimal.Itoa | stream.go:232-254 | never writes outside the buffer, and the text printed for every 64-bit integer |
| Decimal.PrintedAt | stream.go:232-254 | each character printed is the digit of decimal notation at its place, after a sign for negative integers, and no digit is missing |
| Decimal.PrintsBackIff | stream.go:232-254 | the text is canonical and reads back as the integer exactly when it is not the smallest one |
| Durable.BuildConsumerConfig | stream.go:156-190 | the configuration is the declaration, field by field, except a negative ack wait |
| Durable.CompatDiff | stream.go:196-222 | the diff is empty exactly when the existing consumer is compatible |
| Durable.DriftIsRefused | stream.go:196-222 | of a consumer that passes, exactly which change of each field is refused |
| Durable.RestartDiff | stream.go:104-222 | a durable created from a declaration passes on a later start exactly when the declared ack policy is explicit |

## Left out

- NATS and JetStream themselves, redelivery and network timing: streams, consumers and subscriptions are sets.
- Backend implementations beyond the contract: a put that times out after storing is not modelled.
- JSON, base64 and time formatting: their decode-after-encode identity is an assumption of the store theorems.
- Saturation of durations beyond about 292 years, and monotonic clock readings.
- The Beacon: one key, read and written.
- Callbacks that re-enter the store, pointer-valued state, several writers to one key space.
- Panics in decoders and extractors, which the harness does not recover.
- A second Run after the options were rejected at boot.
- requestSingle, validation, options, errors and log text, the wording of the compatibility diff among them: one branch each.
- The schedule, soulstream, examples and test support packages.
- RegistryObjects.ShapeObject.Drive: goroutines take turns by a schedule; memory orderings weaker than that are not modelled.
- Overlap.LeaksIff: releasing one channel is one step; `ReleaseRace.dfy` takes the accesses of the teardown loop one by one.
- ReleaseRace.CrashIff: consume loops only; calling Unsubscribe through a cleared subscription is left to the client library, which is not part of this model.
- LifecycleObjects.Runtime.Drive: unwinding is one action here; `Overlap.dfy` takes it channel by channel.
- Drain.NilMeansDrained: goroutines are values moved by steps; the drain window is a move that may come at any time while waiting.
- RequestMany.Conn.RequestMany: replies dropped by a full channel buffer are not among the events.
