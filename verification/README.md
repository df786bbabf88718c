# Room state under late and interleaved commands

The server keeps rooms in Redis and in process memory. Room codes are recycled, many nodes write at once, and a caller
that stops waiting for a command does not cancel it: the command may land at any later step, or never. This project
models the protocols that keep room state correct under those conditions and proves what they promise over every run.

`dafny verify dfyconfig.toml` checks all of it.

## What is modelled

- **`RoomLifecycle`**: one room code across any number of creators, tearers and joiners. The generation key is absent,
  holds a stamp, or holds the tombstone; every command in flight carries the pin it was issued with. Class
  `RuntimeRoom` holds the runtime keys and runs the three guarded scripts on them.
- **`TeardownLedger`**: one process's debts and teardown effects (class `TeardownLedger`), driven by collectors that
  reach it between their awaits.
- **`Rooms`, `InMemoryRoomStore`**: room records, update guards and the in-memory store, which is the specification of
  the Redis one.
- **`RedisRoomScripts`**: the Lua scripts over bodies, expiry index, claim hash and rotation queue, each one atomic step,
  as functions and as in-place methods of class `RedisRoomKeys`.
- **`ScriptOutcomes`**: what each script answers and leaves over any keys at all, unreadable bodies included.
- **`OrphanClaims`**: arbitrary runs of those scripts, seen from the cleanup claims.
- **`IndexReconcile`**: the repair pass as loops over `SCAN` and `ZSCAN` replies (class `RoomIndexReconciler`), exactness
  of the index, counting from the index alone.
- **`RoomStoreRefinement`**: any number of clients running the two-step update beside creates, deletes and sweeps, and
  the refinement of the in-memory store.
- **`DurableWriteQueue`**, **`PendingResyncQueue`**, **`ConcurrencyLimiter`**: the three schedulers. Each `await` is a
  step boundary; a timeout ends an attempt but not its command; the stop switch may fire between any two steps.
- **`MemberRetention`**: presence, tokens and retention clocks of a room, and the batched prune.
- **`SharedVideoOwner`**: the election of the share owner and the resync decisions built on it.
- **`DiagnosisThrottle`**, **`RateLimit`**: bounds over arbitrary call sequences.

In each module a step is a total function: an event that is not possible in a state leaves the state as it is, so "every
run" means every sequence of events. The classes hold the source's mutable fields; their methods change them in place and
are proved equal to the step functions, whose runs the lemmas are about. Beside the invariants each step has a law in plain
terms of the state before and after it, with both directions, so a step that does less or something else breaks a lemma.

## Results that correct a first reading

- A creator that is slow enough to pin the generation after its own room was closed can stamp over the living room that
  took the code (`LateCreatorRestampsLivingRoom`). `StampLostOnlyToItsPin` says exactly which step takes a living room's
  own stamp away; `OnlyLatePinsRestamp` says whose it is. The teardown guarantee does not rest on it.
- The queue of orphan claims needs a batch of at least two: its `!sequence` member ties with the last rotated code and
  sorts before it (`BatchOfOneStarves`). The server uses 500; from two on no claim starves (`EveryClaimIsServed`), which
  rests on a losing remover giving a claim its place back (`PlacesAreKept`).
- Two overlapping `confirm` calls share one list of failures, so the second can resolve over a write it waited for
  (`OverlappingConfirmsShareFailures`). `ResolvesOverFailureIff` gives the exact condition: another confirm returned
  after that failure and nothing failed since. `OverlappingConfirmMeansWritten` is what a confirm still means then.
- Where a patch omits `lastActiveAt` the in-memory update sets it to now and the Redis one keeps it (`DefaultsDiffer`,
  exactly when: `DefaultsDifferIff`). The refinement is exact for updates that keep what they do not name.
- A compare-and-set may answer a conflict where an atomic store would succeed, because it compares whole records
  (`ConflictWhereMemorySucceeds`); `ConflictIsSpuriousIff` says exactly for which guards and records.

## Assumptions

- Each Lua script is one atomic step. Command answers may be lost or late; the store itself does not lose writes.
- Join tokens, claim tokens, member tokens, session ids and generation stamps are fresh. A generation stamp is named by
  the room instance it was drawn for.
- Serialization is injective: records are equal exactly when their bytes are.
- No room code equals the reserved queue member `!sequence`.
- A complete `SCAN` or `ZSCAN` names every key that was there throughout, in any order, any number of times.
- `publish` answers through its promise and does not throw synchronously.
- The clock does not run backwards where a bound or a deadline depends on it; each such lemma says so in its `requires`.

## Model

| member | source | states |
|---|---|---|
| RoomLifecycle.RuntimeRoom.MarkRoomGeneration | server/src/redis-runtime-store.ts:617-623 | stamps exactly when the key still holds the pin and leaves sessions and entries alone; declined, it changes nothing |
| RoomLifecycle.RuntimeRoom.DeleteRoom | server/src/redis-runtime-store.ts:541-552 | clears the room's runtime keys, leaves the tombstone and unlists the code exactly when the key still holds the pin |
| RoomLifecycle.RuntimeRoom.JoinRoomIndex | server/src/redis-runtime-store.ts:653-671 | adds the session to the index and lists the code exactly when the key still holds the pin; declined, it changes nothing |
| RoomLifecycle.InvStep | server/src/room-service.ts:848-923 | every step of creators, tearers, joiners and late commands keeps the pins of all commands in flight stale or shielding as the protocol needs |
| RoomLifecycle.TeardownSparesStampedRooms | server/src/room-service.ts:848-923 | in every run, however late a teardown lands, it changes no runtime key of a stamped room whose body exists |
| RoomLifecycle.PinnedDeleteMeansGoneForGood | server/src/room-service.ts:855-901 | a delete in flight that is pinned to a stamp names an instance whose body never exists again |
| RoomLifecycle.SessionOutlivesStaleCommands | server/src/room-service.ts:848-923 | a session indexed in a stamped room stays indexed while that room's body exists, unless it leaves itself |
| RoomLifecycle.SameValueMeansUnchanged | server/src/redis-runtime-store.ts:383-402 | generations are ABA-free: if the key ends a run with the value it began with, it held that value throughout |
| RoomLifecycle.JoinLandsOnlyInItsInstance | server/src/redis-runtime-store.ts:1638-1743 | a pinned join changes the session index only if the generation never changed since its pin, for all retries; a tombstone is never pinned |
| RoomLifecycle.LandedJoinIndexes | server/src/redis-runtime-store.ts:653-671 | after a join lands a session is indexed if and only if it was before, or the pin still holds and it is the one that joins |
| RoomLifecycle.JoinedSessionStays | server/src/redis-runtime-store.ts:1638-1743 | a session that joined a stamped living room is indexed as long as that room lives and it does not leave, whatever lands |
| RoomLifecycle.OtherWritersTouchTheirOwn | server/src/redis-runtime-store.ts:1795-1815 | a session that leaves is indexed no more, and it, an unlisting or a written key changes nothing else |
| RoomLifecycle.UndisturbedJoin | server/src/redis-runtime-store.ts:1638-1743 | from any state but a tombstone, a join that nobody disturbs indexes its session |
| RoomLifecycle.NeverAbsentAgain | server/src/redis-runtime-store.ts:383-402 | once the generation key has held anything it is never absent again |
| RoomLifecycle.TombstoneMeansEmptyIndex | server/src/redis-runtime-store.ts:541-552 | whenever the key holds the tombstone, the room's session index is empty |
| RoomLifecycle.LandedTeardownClears | server/src/redis-runtime-store.ts:541-552 | an applied teardown leaves the tombstone and no session, seat, token, deadline, block or slot, and unlists the code; a declined one changes nothing |
| RoomLifecycle.TeardownIssuedIff | server/src/room-service.ts:889-917 | a delete is issued, with the confirmed generation as its pin, if and only if no body was seen after the pin and the generation is still that pin |
| RoomLifecycle.TearerAdvancesIff | server/src/room-service.ts:855-888 | a teardown pins what the key holds when it starts, and comes to hold an absent body only by looking after that |
| RoomLifecycle.UndisturbedTeardown | server/src/room-service.ts:848-923 | a teardown of a code without a body that nobody disturbs clears its runtime keys |
| RoomLifecycle.LandedCreateAnswers | server/src/room-service.ts:2255-2273 | a create that lands makes a room where there is none and leaves a living one alone, and a creator still waiting learns which |
| RoomLifecycle.UndisturbedCreation | server/src/room-service.ts:2318-2359 | a creation that nobody disturbs ends as a living room under its own stamp |
| RoomLifecycle.RollbackIsIssued | server/src/room-service.ts:2291-2342 | a creator that gives up, or whose pin no longer held, leaves an expiry of its own room on its way |
| RoomLifecycle.BodiesEndIff | server/src/redis-room-store.ts:350-387 | a body ends if and only if a close of that very instance lands or it is collected expired; an expiry marks its own instance alone |
| RoomLifecycle.OnlyLatePinsRestamp | server/src/room-service.ts:2318-2342 | a foreign stamp that lands over a stamped living room takes effect exactly when its pin is the current generation, and then its creator pinned after its own body was gone |
| RoomLifecycle.StampLostOnlyToItsPin | server/src/redis-runtime-store.ts:617-623 | a living room under its own stamp loses it at a step if and only if another creator's stamp lands that was pinned to it |
| RoomLifecycle.LivingRoomHoldsOwnStamp | server/src/room-service.ts:2318-2342 | as long as no creator pins after its body is gone, every stamped living room holds its own stamp |
| RoomLifecycle.LateCreatorRestampsLivingRoom | server/src/room-service.ts:2318-2342 | a concrete run in which a late creator's stamp replaces a living room's own and a join of that room is declined |
| TeardownLedger.TeardownLedger.RemoveRuntimeTeardownEffect | server/src/room-service.ts:687-700 | only the indexed effect removes itself, and an emptied code goes with it |
| TeardownLedger.TeardownLedger.StartRuntimeTeardownEffect | server/src/room-service.ts:719-752 | reuses the running effect of the same code and generation without taking the debt, else creates one that owns a new debt |
| TeardownLedger.TeardownLedger.EffectSettled | server/src/room-service.ts:754-784 | a settled effect leaves the index; it removes the debt it owns when applied, frees it when skipped or failed, and touches no other |
| TeardownLedger.UnreadableLeavesADebt | server/src/room-service.ts:863-901 | after an unreadable generation, body or confirmation the code is in the debts; a debt it had stands, owner included, and nothing else changes |
| TeardownLedger.UnreadableIsNotForgotten | server/src/room-service.ts:656-677 | over any run that debt is still there unless some step discharged it |
| TeardownLedger.CollectorGoesOn | server/src/room-service.ts:855-917 | a candidate keeps its pin to the end: a live room discharges its debt, an absent one is confirmed, and a confirmed one that still stands waits for the one effect of its code and generation; a moved generation or a replaced debt touches nothing |
| TeardownLedger.SettlementPaysItsDebt | server/src/room-service.ts:754-784 | a settled effect no longer runs; the debt it owns is paid if it applied and left without an owner if not, and every other debt stands |
| TeardownLedger.UndisturbedCollection | server/src/room-service.ts:848-923 | from any reachable state, a fresh or backlog candidate that is read, found absent and confirmed waits for an effect of that code and generation |
| TeardownLedger.OneEffectPerGeneration | server/src/room-service.ts:637-677 | in every run at most one effect runs per code and generation, and a debt's owner is a running effect of its code, the newest one |
| TeardownLedger.DebtLeavesOnlyByDischarge | server/src/room-service.ts:754-784 | a step removes a debt if and only if its owner reports applied or a live room is observed under the code |
| TeardownLedger.LostDebtWasDischarged | server/src/room-service.ts:656-677 | over any run, a debt that is gone was discharged at some step of it |
| TeardownLedger.OlderEffectSettlesQuietly | server/src/room-service.ts:656-677 | while a newer effect of the same code runs, an older one settles without changing any debt, whatever it reports |
| TeardownLedger.ForeignDebtsAreKept | server/src/room-service.ts:754-784 | a settling effect never changes another code's debt or one it does not own, and a failure keeps the debt's identity |
| TeardownLedger.StandingDebtStep | server/src/room-service.ts:679-685 | a debt that stands before and after a step is unchanged, or lost its owner to a settlement that did not apply, or was replaced by a new effect's; an inconclusive read leaves it alone |
| TeardownLedger.StandingDebtIsKept | server/src/room-service.ts:656-677 | over any run a debt stands unchanged until its owner settles, a live room is seen, or a new effect of its code starts |
| TeardownLedger.OwnershipIsNeverRetaken | server/src/room-service.ts:725-732 | an effect that does not own a debt never owns one at any later time |
| TeardownLedger.OvertakenCandidateStartsNothing | server/src/room-service.ts:905-912 | once the debt a backlog item was captured with is settled or replaced, the item starts no effect, joins none and ends, whatever happens in between |
| TeardownLedger.EffectStartsOnlyFromAConfirmedPin | server/src/room-service.ts:855-917 | a new effect needs a confirmed pin after an absent body, a standing debt for a backlog item, and no running effect for that generation |
| InMemoryRoomStore.Store.CreateRoom | server/src/room-store.ts:296-308 | creates at version 0 where the code is free, else fails and changes nothing |
| InMemoryRoomStore.Store.UpdateRoom | server/src/room-store.ts:309-337 | an update writes exactly what its patch names, keeps the rest, stamps the last-active time and counts the version; refused, it changes nothing |
| InMemoryRoomStore.UpdateWritesThePatch | server/src/room-store.ts:329-336 | each patched field takes exactly the value of the patch and each other keeps its own; instance, creation time and creator never change |
| InMemoryRoomStore.UpdateIsGuarded | server/src/room-store.ts:309-328 | not found and version conflict are answered exactly where the guard says so, and then nothing changes |
| InMemoryRoomStore.Store.DeleteRoom | server/src/room-store.ts:338-348 | deletes only the instance named by its join token |
| InMemoryRoomStore.Store.DeleteExpiredRoom | server/src/room-store.ts:349-359 | deletes only a record expired at the given time |
| InMemoryRoomStore.DeletesAreGuarded | server/src/room-store.ts:338-359 | a room goes if and only if the named instance is there, or its expiry has come, and goes alone |
| InMemoryRoomStore.SweepAndCountSelect | server/src/room-store.ts:360-384 | a sweep takes exactly the rooms with an expiry that has come; a count takes what is not expired, or all, and whose folded code contains the keyword somewhere |
| InMemoryRoomStore.Store.DeleteExpiredRooms | server/src/room-store.ts:360-372 | deletes exactly the expired rooms and lists each once |
| InMemoryRoomStore.Store.CountRooms | server/src/room-store.ts:380-384 | counts exactly the rooms that match keyword and expiry filter |
| RedisRoomScripts.RedisRoomKeys.CreateRoom | server/src/redis-room-store.ts:265-289 | body and index member are written together, or neither is |
| RedisRoomScripts.RedisRoomKeys.UpdateRoomCas | server/src/redis-room-store.ts:294-345 | writes body and score only over the exact record that was read, and undoes the body where the index cannot be written |
| RedisRoomScripts.RedisRoomKeys.DeleteRoomInstance | server/src/redis-room-store.ts:350-375 | deletes the named instance only; a missing body still loses its index member |
| RedisRoomScripts.RedisRoomKeys.DeleteExpiredRoom | server/src/redis-room-store.ts:376-387 | deletes only a record expired at the given time |
| RedisRoomScripts.RedisRoomKeys.RemoveIndexWithOrphanClaim | server/src/redis-room-store.ts:145-166 | claim first, then remove the member; a remover that lost restores claim and place |
| RedisRoomScripts.RedisRoomKeys.PruneOrphanedMembers | server/src/redis-room-store.ts:175-198 | removes and claims exactly the given members that have no body |
| RedisRoomScripts.RedisRoomKeys.ReconcileMemberScript | server/src/redis-room-store.ts:204-214 | re-points a member only while the body is the one that was read |
| RedisRoomScripts.RedisRoomKeys.QuarantineMember | server/src/redis-room-store.ts:227-254 | removes and claims the member of a wrong-typed body or of the unreadable bytes that were read, and answers whether it did |
| RedisRoomScripts.RedisRoomKeys.ZRangeQueue | server/src/redis-room-store.ts:507-536 | the batch a sweep takes is the front of the queue without the reserved member |
| RedisRoomScripts.RedisRoomKeys.DeleteExpiredRooms | server/src/redis-room-store.ts:389-585 | one sweep: deliver a batch of claims, then delete or claim every member whose score is due |
| RedisRoomScripts.RedisRoomKeys.AcknowledgeOrphanedIndexClaims | server/src/redis-room-store.ts:587-604 | drops exactly the claims whose current token is presented, and answers how many |
| ScriptOutcomes.CreationIsAllOrNothing | server/src/redis-room-store.ts:265-289 | over any keys: body and score are written if and only if the code is free and the index can be written |
| ScriptOutcomes.UpdateIsAllOrNothing | server/src/redis-room-store.ts:304-332 | over any keys: each of the five answers exactly where it is due, body and score on success, nothing otherwise |
| ScriptOutcomes.DeletionNamesTheInstance | server/src/redis-room-store.ts:350-375 | over any keys: the body goes if and only if it is a string that carries the join token, complete record or not; another instance and a wrong type stay |
| ScriptOutcomes.ExpiryDeletionNeedsADueBody | server/src/redis-room-store.ts:376-387 | over any keys: the body goes if and only if it is a string whose own expiry has come |
| ScriptOutcomes.RemovalIsClaimed | server/src/redis-room-store.ts:131-166 | the remover that takes the member leaves its claim last in the queue; one that lost leaves claim and place as they were |
| ScriptOutcomes.PruneTakesTheBodiless | server/src/redis-room-store.ts:175-198 | a prune takes out exactly the given members without a body and claims exactly those under its token |
| ScriptOutcomes.RepairsAreGuarded | server/src/redis-room-store.ts:204-254 | a score is written only over the record it was taken from; a quarantine acts exactly on a wrong type or on the very string that was read, and keeps the body |
| ScriptOutcomes.SweepCodeByCode | server/src/redis-room-store.ts:389-585 | one sweep, for every code and any bodies: which body, member and claim it leaves, which code it deletes and which it reports, each if and only if |
| OrphanClaims.ClaimsStep | server/src/redis-room-store.ts:128-198 | every script keeps claim hash and queue on the same codes, loses a claim only by settling it, and writes only its own token |
| OrphanClaims.DebtsInvRun | server/src/redis-room-store.ts:128-166 | in every run claim hash and queue hold the same codes, at distinct places not past the sequence |
| OrphanClaims.RemovedMembersAreClaimed | server/src/redis-room-store.ts:175-254 | whatever prune, quarantine or sweep takes out of the index carries that script's claim, except the rooms a sweep deleted and reports |
| OrphanClaims.DebtLastsUntilSettled | server/src/redis-room-store.ts:507-604 | a claim outlives every step that neither acknowledges its current token nor sweeps a usable body |
| OrphanClaims.ReplacedTokenNeverReturns | server/src/redis-room-store.ts:145-166 | a token that was replaced or dropped never becomes a claim's token again |
| OrphanClaims.LateAcknowledgementIsHarmless | server/src/redis-room-store.ts:587-604 | an acknowledgement of an older discovery never removes or changes a newer claim |
| OrphanClaims.SweepReportsItsBatch | server/src/redis-room-store.ts:507-585 | a sweep reports each orphan once under the token left in the hash, among them every claim of its batch without a body |
| OrphanClaims.SweepAdvances | server/src/redis-room-store.ts:507-536 | a sweep that passes a claim over brings it at least one less than the batch limit forward |
| OrphanClaims.PassedOverBoundedly | server/src/redis-room-store.ts:507-536 | over any run, sweeps times (limit - 1) plus the claims still ahead never exceed the claims first ahead |
| OrphanClaims.NoStarvation | server/src/redis-room-store.ts:131-166 | with a batch of at least two, a run with more sweeps than claims ahead in which the claim keeps its place does not pass it over |
| OrphanClaims.PlacesAreKept | server/src/redis-room-store.ts:145-166 | a step that does not visit a claim keeps its place and token, a losing remover included, unless it acknowledges that very token or takes the code's member out of the index under its own |
| OrphanClaims.EveryClaimIsServed | server/src/redis-room-store.ts:507-536 | with a batch of at least two, in every run with more sweeps than claims ahead the claim keeps its place and token until some sweep takes it into its batch, its current token is acknowledged, or its code is discovered anew; whatever else arrives or stays |
| OrphanClaims.BatchOfOneStarves | server/src/redis-room-store.ts:131-138 | with a batch of one there is a claim that every sweep passes over, for ever |
| IndexReconcile.RepairNeverBreaksAnEntry | server/src/redis-room-store.ts:175-254 | with any interference, no single repair script makes a correct index entry wrong |
| IndexReconcile.RoomIndexReconciler.RepointDrifted | server/src/redis-room-store.ts:1064-1082 | every readable body of the chunk ends with the right score, and nothing is written where nothing drifted |
| IndexReconcile.RoomIndexReconciler.QuarantineUnreadable | server/src/redis-room-store.ts:1084-1106 | every unreadable body of the chunk loses its member to a claim, and nothing is written where none has one |
| IndexReconcile.RoomIndexReconciler.ReconcileFromRoomBodies | server/src/redis-room-store.ts:1024-1109 | after the walk every code that has a body has a correct entry |
| IndexReconcile.RoomIndexReconciler.PruneOrphans | server/src/redis-room-store.ts:1112-1141 | after the walk no member is without a body |
| IndexReconcile.RoomIndexReconciler.RunReconcile | server/src/redis-room-store.ts:1145-1148 | from any bodies, index and claims the index ends exact, every dropped member is claimed, no claim is lost, and a second pass writes nothing |
| IndexReconcile.ReachableIndexIsExact | server/src/redis-room-store.ts:265-381 | in every run of the store's own scripts the index has exactly one member per room, at its expiry |
| IndexReconcile.SweepDeletesLikeMemory | server/src/redis-room-store.ts:389-585 | the sweep deletes exactly the rooms the in-memory sweep would, each reported once |
| IndexReconcile.CountNeedsNoBodies | server/src/redis-room-store.ts:1594-1619 | counting from the index alone equals filtering the bodies, with or without keyword and expired rooms |
| RoomStoreRefinement.InvStep | server/src/redis-room-store.ts:265-381 | every step of every client keeps the index exact, join tokens unique and versions equal to the updates counted |
| RoomStoreRefinement.StepRefines | server/src/redis-room-store.ts:1419-1515 | each decided step does to the rooms, and answers, exactly what the in-memory store does at that step for an update that keeps what it does not name; any other step changes no room |
| RoomStoreRefinement.RedisRefinesMemory | server/src/room-store.ts:296-372 | every run leaves exactly the rooms, and gives exactly the answers, of the in-memory store run on the decided operations one after another, each update keeping the last-active time it does not name |
| RoomStoreRefinement.RedisAgreesWithMemory | server/src/room-store.ts:296-372 | against the in-memory store's own default, rooms and answers agree but for `lastActiveAt`, and entirely where every update names it |
| RoomStoreRefinement.AgreeIff | server/src/room-store.ts:329-334 | agreeing means the same codes, and records that are equal once given the same last-active time |
| RoomStoreRefinement.DefaultsDifferIff | server/src/room-store.ts:328-334 | the stores differ on an update if and only if it succeeds, omits the last-active time, and that time is not already now |
| RoomStoreRefinement.DefaultsDiffer | server/src/redis-room-store.ts:1462-1466 | a concrete update after which the two stores hold different last-active times |
| RoomStoreRefinement.VersionCountsSuccesses | server/src/redis-room-store.ts:1462-1466 | a room's version is the number of updates that succeeded on that instance |
| RoomStoreRefinement.RoomHoldsWhatWasLastWritten | server/src/redis-room-store.ts:1462-1466 | in every run each field of a room is what the last successful update of that instance that names it wrote, or what it was created with; instance, creation time and creator are the created ones and the version counts those updates |
| RoomStoreRefinement.OperationsAreDecided | server/src/redis-room-store.ts:1419-1516 | a read answers at once exactly where the atomic update would refuse and else leaves its client with what it read and was asked; only an unwritable index fails a creation, deletions and sweeps are always decided, and a conflict is answered exactly over another record |
| RoomStoreRefinement.UnusableBodyFailsTheRead | server/src/redis-room-store.ts:739-758 | a body that is no complete record fails the read of an update, none at all is not found, and a read changes nothing |
| RoomStoreRefinement.SameBodyMeansUnchanged | server/src/redis-room-store.ts:294-345 | a record equal at the start and end of a run was never changed in between |
| RoomStoreRefinement.CasSucceedsIffUntouched | server/src/redis-room-store.ts:1419-1515 | an update that passed its read succeeds if and only if the index can be written and the record never changed since; a conflict means it changed and something is still there |
| RoomStoreRefinement.ConflictIsSpuriousIff | server/src/redis-room-store.ts:294-345 | a conflict is one the in-memory store would not have answered if and only if the guard names only the instance and it still holds the code, or only the version and another instance has it |
| RoomStoreRefinement.ConflictWhereMemorySucceeds | server/src/redis-room-store.ts:1443-1455 | a concrete run in which a client is answered a conflict although its guard still admits the room |
| DurableWriteQueue.WriteQueue.Enqueue | server/src/durable-write-queue.ts:241-311 | the new write chains behind the key's unreleased one and supersedes it |
| DurableWriteQueue.WriteQueue.AfterGate | server/src/durable-write-queue.ts:247-262 | a write is admitted when its key is free and dropped when the queue stopped |
| DurableWriteQueue.WriteQueue.FirstAttempt | server/src/durable-write-queue.ts:183-195 | the first attempt starts unless the queue stopped, superseded or not |
| DurableWriteQueue.WriteQueue.CommandAnswered | server/src/durable-write-queue.ts:195-212 | an awaited answer lands the write if and only if it is no error, else fails it or backs off; an answer after a timeout only frees the command |
| DurableWriteQueue.WriteQueue.AttemptTimedOut | server/src/redis-runtime-store.ts:1303-1350 | a timeout fails the attempt and leaves its command out |
| DurableWriteQueue.WriteQueue.Retry | server/src/durable-write-queue.ts:213-236 | after every command has answered, superseded or stopped writes give up, others start the next attempt |
| DurableWriteQueue.WriteQueue.ReleaseKey | server/src/durable-write-queue.ts:277-308 | the key is handed on once the caller, the previous write and every command are answered |
| DurableWriteQueue.WriteQueue.CallConfirm | server/src/durable-write-queue.ts:318-325 | a confirm waits for exactly the writes that have not released their key |
| DurableWriteQueue.LandsIff | server/src/durable-write-queue.ts:194-196 | the caller hears that its write landed if and only if the command it waits for answers without an error |
| DurableWriteQueue.BacksOffIff | server/src/durable-write-queue.ts:197-216 | a retryable error or timeout of the awaited attempt backs off if and only if attempts are left, the queue runs and no newer write took over |
| DurableWriteQueue.FailsIff | server/src/durable-write-queue.ts:197-237 | a write fails for good, fails after its attempts, or is superseded, each if and only if |
| DurableWriteQueue.DropsIff | server/src/durable-write-queue.ts:183-187 | a write is dropped if and only if the stop meets it before its first attempt; otherwise its turn comes exactly when its key is free |
| DurableWriteQueue.StartsIff | server/src/durable-write-queue.ts:193-236 | a command starts if and only if an admitted write begins or a waiting retry goes on, and is out until it answers |
| DurableWriteQueue.ReleasesIff | server/src/durable-write-queue.ts:277-308 | the key is handed on if and only if the caller is answered, no command is out and the write before it let go |
| DurableWriteQueue.EnqueuesLast | server/src/durable-write-queue.ts:241-296 | in every run a new write follows the latest unreleased write of its key, if any, and marks that one alone |
| DurableWriteQueue.LandedIffWritten | server/src/durable-write-queue.ts:193-196 | in every run a caller was told that its write landed if and only if the awaited command had answered without an error |
| DurableWriteQueue.InvStep | server/src/durable-write-queue.ts:174-311 | every step keeps the order of the key chains, the attempt counts and the marks of superseded writes |
| DurableWriteQueue.OneUnansweredCommandPerKey | server/src/durable-write-queue.ts:65-79 | in every run a key has at most one unanswered command, across timeouts, retries, supersession and shutdown |
| DurableWriteQueue.NoOlderCommandLandsLater | server/src/durable-write-queue.ts:65-79 | once a write has started, every command of every older write of its key has answered |
| DurableWriteQueue.StartsFollowEnqueueOrder | server/src/durable-write-queue.ts:17-19 | commands of a key start in enqueue order, attempts in order, and no retry starts after a newer write's first attempt |
| DurableWriteQueue.NewerWriteEndsRetries | server/src/durable-write-queue.ts:191-194 | once a newer write of its key is enqueued, an unfinished write starts no retry; only its first attempt may still come |
| DurableWriteQueue.NothingIsDroppedBeforeShutdown | server/src/durable-write-queue.ts:174-238 | before shutdown every answered write had an attempt, and gave up on a retryable error only after all of them |
| DurableWriteQueue.NothingStartsAfterStop | server/src/durable-write-queue.ts:118-131 | after the stop switch no command starts |
| DurableWriteQueue.DrainedMeansQuiet | server/src/durable-write-queue.ts:313-317 | when every key is released no command is out |
| DurableWriteQueue.ResolvesIffNothingGivenUp | server/src/durable-write-queue.ts:318-334 | a confirm resolves if and only if all it waits for is answered and no write was given up on since nothing was remembered, though at most 64 failures are kept |
| DurableWriteQueue.NothingRememberedIff | server/src/durable-write-queue.ts:318-334 | in every run, overlapping confirms included, no failure is remembered if and only if none was given up on since the start or since some confirm returned |
| DurableWriteQueue.ResolvesOverFailureIff | server/src/durable-write-queue.ts:318-334 | a confirm resolves although a write was given up on if and only if another confirm returned after that failure and nothing failed since |
| DurableWriteQueue.ConfirmMeansWritten | server/src/durable-write-queue.ts:107-121 | a lone confirm that resolves: the newest earlier write of each key landed by a command that answered without an error, or was superseded by one enqueued during the call, or had already been reported |
| DurableWriteQueue.OverlappingConfirmMeansWritten | server/src/durable-write-queue.ts:107-121 | any confirm that resolves, others outstanding or not: the newest earlier write of each key landed by a command that answered without an error, or was superseded by one enqueued during the call, or failed before a confirm returned after which nothing failed |
| DurableWriteQueue.OverlappingConfirmsShareFailures | server/src/durable-write-queue.ts:318-334 | a concrete run, for any number of attempts, in which the second of two confirms resolves over a failed write both waited for |
| PendingResyncQueue.ResyncQueue.GiveSlotBack | server/src/pending-resync-queue.ts:167-179 | a freed slot goes to the first waiter with the count unchanged, or the count drops |
| PendingResyncQueue.ResyncQueue.TakeSlot | server/src/pending-resync-queue.ts:190-206 | a slot is taken below the cap, else the room joins the line; a stopped queue takes none |
| PendingResyncQueue.ResyncQueue.Request | server/src/pending-resync-queue.ts:316-332 | an existing record owes one more publish, a new one starts its loop |
| PendingResyncQueue.ResyncQueue.Drive | server/src/pending-resync-queue.ts:273-312 | one step of the loop from whatever it awaited to its next await; before a stop a backoff always leads on to the next attempt |
| PendingResyncQueue.ResyncQueue.PublishAnswered | server/src/pending-resync-queue.ts:236-258 | an answer frees the slot and settles the attempt if it is still awaited |
| PendingResyncQueue.ResyncQueue.StopRetrying | server/src/pending-resync-queue.ts:333-340 | every waiter is woken without a slot |
| PendingResyncQueue.InvStep | server/src/pending-resync-queue.ts:236-332 | every step keeps slots, line, calls and owed publishes consistent |
| PendingResyncQueue.LoopGoesOn | server/src/pending-resync-queue.ts:273-312 | before a stop a resumed loop is about to publish after a backoff, an answered call or an owed round: behind its own call, on a free slot, or last in line; it publishes exactly from a granted slot and ends exactly after a success with nothing owed |
| PendingResyncQueue.LoopEndsAfterStop | server/src/pending-resync-queue.ts:285-305 | after a stop a resumed loop ends, giving a handed slot back, unless it is granted or publishing |
| PendingResyncQueue.RequestIsOwed | server/src/pending-resync-queue.ts:316-332 | a request makes an existing record owe one more publish, and a new one about to publish; a stopped queue takes none |
| PendingResyncQueue.AnswerFreesASlot | server/src/pending-resync-queue.ts:236-258 | an answer is recorded if a success, settles the attempt that waits for it and no other, and passes its slot to the first in line or frees it |
| PendingResyncQueue.GivingUpAndStopping | server/src/pending-resync-queue.ts:245-258 | a timeout fails the attempt and leaves its call out; a stop turns exactly the waiting rooms away |
| PendingResyncQueue.EveryLoopPublishesAgain | server/src/pending-resync-queue.ts:259-312 | in every run without a stop, a room that has made seven of its moves and one more for every room there is has started another publish, or ended after a success with nothing owed |
| PendingResyncQueue.EverybodyCanMove | server/src/pending-resync-queue.ts:163-216 | in every reachable state without a stop each room has a move to make, or waits for a slot whose holder has one |
| PendingResyncQueue.SlotsAreConserved | server/src/pending-resync-queue.ts:163-216 | the counter equals unanswered publishes plus slots in transit, never exceeds the cap, and somebody waits only when every slot is taken |
| PendingResyncQueue.OneUnansweredPublishPerRoom | server/src/pending-resync-queue.ts:281-292 | in every run a room has at most one unanswered publish |
| PendingResyncQueue.ResyncIsAtLeastOnce | server/src/pending-resync-queue.ts:259-312 | without a stop, a room with no record has had a successful publish start after its latest request |
| PendingResyncQueue.StopGrantsNobody | server/src/pending-resync-queue.ts:333-340 | after a stop no room is granted a slot; every publish that still starts is of a room granted before it, once each and giving its grant up, so at most as many as the cap |
| ConcurrencyLimiter.CreateConcurrencyLimiter | server/src/concurrency-limiter.ts:14-19 | only a positive limit is accepted |
| ConcurrencyLimiter.ConcurrencyLimiter.Acquire | server/src/concurrency-limiter.ts:24-32 | a slot at once below the limit, else a place in line |
| ConcurrencyLimiter.ConcurrencyLimiter.Release | server/src/concurrency-limiter.ts:34-43 | the slot goes to the longest waiter, or is given back |
| ConcurrencyLimiter.SlotsAreConserved | server/src/concurrency-limiter.ts:21-43 | the counter equals the slots held, never exceeds the limit, and somebody waits only when every slot is taken |
| ConcurrencyLimiter.SlotsChangeHands | server/src/concurrency-limiter.ts:24-43 | a finished job gives its slot to the longest waiter or back; a new caller holds a slot exactly below the limit and else stands last |
| ConcurrencyLimiter.ServedInOrderOfArrival | server/src/concurrency-limiter.ts:21-53 | the n-th caller has been served exactly when n is below the limit plus the finished jobs: arrival order, no slot wasted |
| MemberRetention.RuntimeStore.PruneExpired | server/src/runtime-store.ts:331-345 | exactly the identities whose deadline has come lose token and clock; other rooms are untouched |
| MemberRetention.RuntimeStore.Add | server/src/runtime-store.ts:502-507 | the member is seated, its token stored, and its clock stopped |
| MemberRetention.RuntimeStore.Remove | server/src/runtime-store.ts:576-588 | only the session that holds the seat takes it away, a remaining token goes on the clock, `roomEmpty` says that no seat is left, and the room is handed out otherwise |
| MemberRetention.RuntimeStore.RevokeIdentity | server/src/runtime-store.ts:376-388 | token and clock go together, unless another session holds the seat |
| MemberRetention.RuntimeStore.FindMemberIdByToken | server/src/runtime-store.ts:508-518 | answers a member that holds the token after pruning, or nobody exactly when none does |
| MemberRetention.FirstExpired | server/src/redis-runtime-store.ts:761-774 | one batch of expired identities, full unless it holds them all |
| MemberRetention.PruneInBatches | server/src/redis-runtime-store.ts:748-774 | only expired identities go, and all of them unless every batch was full |
| MemberRetention.AddingSeats | server/src/runtime-store.ts:502-507 | an added member has its seat and token and no deadline; others only lose what has expired |
| MemberRetention.RemovingStartsTheClock | server/src/runtime-store.ts:576-588 | a removed member loses exactly its seat and its deadline starts if it has a token; another session of it, or one without a seat, changes neither |
| MemberRetention.RevokingForgetsTheToken | server/src/runtime-store.ts:376-388 | token and deadline go together and alone, unless another session holds the seat |
| MemberRetention.LookupsPrune | server/src/runtime-store.ts:331-345 | a lookup prunes exactly the identities whose deadline has come; seats stay |
| MemberRetention.TakenTokenStopsResolving | server/src/runtime-store.ts:376-388 | after a revocation, an eviction or a close no token ever drawn for that member resolves, at any time and whatever else happens, until it joins again |
| MemberRetention.JoinedMemberResolves | server/src/runtime-store.ts:502-518 | a member that joins holds its seat and its token resolves to it, whatever older sessions or other members do, until its session ends or its token is taken |
| MemberRetention.ClockRunsForTheAbsent | server/src/runtime-store.ts:320-325 | in every run the clock runs for exactly the tokens whose member has no seat |
| MemberRetention.IdentityLastsUntilItsDeadline | server/src/runtime-store.ts:576-608 | a disconnected member's token resolves to that member before the deadline and to nobody from it on, unless revoked, evicted, re-added or the room closed |
| MemberRetention.TokenNamesOneMember | server/src/runtime-store-state.ts:80-90 | a token never resolves to anybody but the member it was drawn for, and a seated member's token always resolves |
| SharedVideoOwner.PrecedesIsStrictOrder | server/src/shared-video-owner.ts:36-49 | tenure, then id, is a strict total order in which a missing tenure comes last |
| SharedVideoOwner.ResolveSharedVideoOwnerId | server/src/shared-video-owner.ts:62-82 | the stored sharer while online, else the member no other precedes, else the stored id; nobody without a stored id |
| SharedVideoOwner.OwnerJoinedFirst | server/src/shared-video-owner.ts:36-81 | in plain times and ids: a successor has a recorded time if any member has one, no later than any other, and the least id among those who joined with it; a stored sharer online, or with nobody there, keeps the share |
| SharedVideoOwner.IdsCompareByCodeUnit | server/src/shared-video-owner.ts:47 | ids compare by their first different code unit, a proper prefix first |
| SharedVideoOwner.OrderDoesNotMatter | server/src/shared-video-owner.ts:21-34 | the owner depends on who is there, not on order or repetition |
| SharedVideoOwner.PermutationsAgree | server/src/shared-video-owner.ts:21-34 | every permutation of the candidates gives the same owner |
| SharedVideoOwner.JoinMovesShareOnlyToJoiner | server/src/message-handler.ts:1112-1140 | a new member can move the share only by becoming its owner |
| SharedVideoOwner.SharedVideoOwnerChangedOnLeave | server/src/shared-video-owner.ts:93-122 | answers whether the owners before and after the leave differ, the leaver counted before with the tenure it held |
| SharedVideoOwner.OthersStay | server/src/shared-video-owner.ts:98-112 | the list before a leave has the same other members, and the leaver once with the tenure it held |
| SharedVideoOwner.LeaveMovesShareIffLeaverOwned | server/src/room-service.ts:1860-1874 | a member leaving a room that stays non-empty moves the share if and only if it owned it |
| SharedVideoOwner.ReplacementMovesShareIffOwnerOnOneSide | server/src/shared-video-owner.ts:98-112 | a replaced session whose member keeps the seat moves the share if and only if that member owns it on exactly one side |
| SharedVideoOwner.RoomStateFromSessions | server/src/room-store.ts:418-490 | roster and owner come from exactly the sessions that name the room, each member under its last session's name; a successor brings its own name |
| SharedVideoOwner.CandidatesNameTheRoom | server/src/room-store.ts:431-454 | the candidates are exactly the sessions that name the room, each as its member, or as itself without one |
| SharedVideoOwner.LatestSessionNames | server/src/room-store.ts:448-452 | a later session of a member that names the room gives it its name, and nobody else one |
| SharedVideoOwner.ResidueIsInvisible | server/src/room-store.ts:430-445 | a session left in the index of another room changes neither roster, nor owner, nor any name shown |
| SharedVideoOwner.OwnerIsOnTheRoster | server/src/room-store.ts:463-475 | in a non-empty room a share with a stored sharer is owned by somebody on the roster |
| DiagnosisThrottle.DiagnosisThrottle.DropStale | server/src/diagnosis-throttle.ts:51-55 | exactly the entries at least an interval old are dropped |
| DiagnosisThrottle.DiagnosisThrottle.Allow | server/src/diagnosis-throttle.ts:48-74 | allows, and reserves the interval in the map or in the overflow bucket, or refuses |
| DiagnosisThrottle.NoRepeatWithinAnInterval | server/src/diagnosis-throttle.ts:13-19 | no diagnosis is allowed twice within an interval, tracked or not, and nothing within an interval of an overflow |
| DiagnosisThrottle.ReportsAreBounded | server/src/diagnosis-throttle.ts:44-75 | the map stays within its cap and any window of one interval holds at most cap + 1 reports |
| DiagnosisThrottle.RefusedIffRecentlyReported | server/src/diagnosis-throttle.ts:57-67 | a call is refused if and only if its diagnosis, or an overflow, was reported less than an interval ago |
| DiagnosisThrottle.OverflowsIffFull | server/src/diagnosis-throttle.ts:69-73 | a report goes to the overflow bucket if and only if the cap is taken by tracked reports less than an interval old |
| RateLimit.TokenBucket.Consume | server/src/rate-limit.ts:61-78 | refill by the time that passed, capped, then take one token if there is one |
| RateLimit.TokensStayInRange | server/src/rate-limit.ts:61-78 | tokens stay between zero and capacity over any calls and any clock |
| RateLimit.GrantsArePaidFor | server/src/rate-limit.ts:61-78 | grants and remaining tokens never exceed the tokens at hand plus what forward time refilled, for any clock |
| RateLimit.BucketBoundsAnyStretch | server/src/rate-limit.ts:61-78 | between any two calls at most capacity plus rate times elapsed is granted |
| RateLimit.SteadyCallerIsNeverRefused | server/src/rate-limit.ts:61-78 | a caller that waits for a whole token between calls is always granted |
| RateLimit.RefusedIffAStretchIsSpent | server/src/rate-limit.ts:61-78 | for any clock, a call is refused if and only if granting it would take some stretch of calls that ends with it past the capacity plus what flowed in over the stretch |
| RateLimit.TokensAreSpentOneByOne | server/src/rate-limit.ts:73-78 | a grant costs one token: a bucket grants as many calls in a row as it holds tokens, a full one a burst of its capacity |
| RateLimit.RateIsPerSecond | server/src/rate-limit.ts:67-69 | a second refills as many tokens as the rate says, and refills add up |
| RateLimit.WindowCounter.Consume | server/src/rate-limit.ts:42-59 | a window that has run out restarts at now; below the limit the call is granted |
| RateLimit.FixedWindowBound | server/src/rate-limit.ts:42-59 | at most twice the limit is granted in any half-open stretch as long as the window |
| RateLimit.RefusedIffLimitGranted | server/src/rate-limit.ts:42-59 | a call is refused if and only if the full limit was granted since the counter window it falls into began |

## Left out

- Redis itself, reconnects, pub/sub, client queues and JSON text: commands land late or never, bodies are abstract values.
- Logging, metrics, error texts, HTTP and WebSocket plumbing, origin checks, the admin panel and the extension.
- Exact timeouts, backoff delays and shutdown budgets: a timeout and the end of a delay are steps that may come at any time.
- Room capacity as a global bound: restore and rollback paths re-add members outside the admission lock, so the code does not promise it.
- That the session index holds only sessions of the current instance, and that an occupied room has no expiry: the code filters or reports these cases; only the pin and version guards are stated.
- `playback-authority.ts`, `maintenance-pass.ts`, `mirrored-runtime-store.ts`, announcements, heartbeats and the admin command bus: mostly single-branch claims.
- Listing, sorting and paging of rooms, and purging by instance: presentation and startup housekeeping.
- `expiredRoomCollectionEffects` and the request-side caps on waiting for a teardown: they cap waits and change no debt.
- The generation key of the in-memory runtime store, which a delete removes instead of leaving a tombstone; the lifecycle is that of the Redis store.
- The Redis member scripts apart from the prune: `REMOVE_MEMBER_LUA` restarts the clock of a member that still has a token even where it had no seat; the retention model follows the in-memory store.
- Blocks of evicted tokens, message slots and room locks: independent expiring maps.
- Writes of the durable queue that report no `settle`: the model covers the runtime store's writes, which all report it. Its cap on held commands is not modelled.
- The backlog warning of the resync queue.
- RateLimit.TokenBucket.Consume: computes over reals, so rounding of tokens and refills is not modelled.
- RoomLifecycle.RuntimeRoom.JoinRoomIndex: the session's own record, the set of all sessions and the index of the room the session comes from are not keys of this room code; leaving another room's index is that code's own step.
- RoomLifecycle.RuntimeRoom.DeleteRoom: single dedup slots, which carry their own expiry, are covered by the key that tracks them.
