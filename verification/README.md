# A verified model of the agent runtime's stateful core

This project models, in Dafny 4.11, the parts of the agent runtime that keep state across calls, and proves what
they guarantee over every run. Check everything with `dafny verify dfyconfig.toml`.

Each component comes in up to three layers. A file of plain functions says what one transaction (or one critical
section) does to the tables. Files of lemmas say column by column what each step changes and what it leaves alone, turn
the functions into a transition system and prove invariants and whole-run theorems about it. A file with a class holds
the same tables as mutable fields and proves each method, loops included, against the transaction function.

| component | tables and transactions | whole-run theorems | mutable form |
|---|---|---|---|
| prompt queue and leases | `Queue.dfy` | `QueueRuns.dfy`, `QueueSafety.dfy`, `QueueEffects.dfy` | `QueueStore.dfy` |
| memory journal and table | `Memory.dfy`, `EventCodec.dfy` | `MemoryRuns.dfy`, `MemoryReplay.dfy`, `MemoryOrder.dfy`, `MemoryHistory.dfy`, `MemoryEffects.dfy`, `MemoryQuota.dfy`, `ValidationLog.dfy`, `MemoryCounterexamples.dfy` | `MemoryStore.dfy` |
| response hub | `ResponseHub.dfy` | `HubRuns.dfy`, `HubOrder.dfy`, `HubEffects.dfy` | `HubStore.dfy` |
| TTL cache | `TtlCache.dfy` | `TtlCache.dfy` (module `CacheRuns`) | `TtlCache.dfy` |
| librarian sweep | `Librarian.dfy` | `Librarian.dfy` | `Librarian.dfy` |
| prompt composer, memory handles | `Composer.dfy`, `Handles.dfy` | `Composer.dfy` | `Composer.dfy` |
| test-connect rate limiter | `RateLimit.dfy` | `RateLimit.dfy` | `RateLimit.dfy` |
| organisation slugs | `Slug.dfy` | `Slug.dfy` | `Slug.dfy` |

## Conventions

- A Postgres transaction is one step. A claim is two steps, a reset and a take, as in the code. Every step that reads
  the clock takes the reading as a parameter, so readings may disagree or go back unless a lemma says otherwise.
- Minted ids (requests, sessions, memories, channels) are parameters that are required not to be in use.
- Tokens that heartbeat, release and finalise present are arbitrary; nothing assumes that workers are honest.
- The attempt limit of the queue is at least 1 and the caps of hub and cache are positive; the program's own
  constants are.
- An event of the memory journal is named by its position, which is the order of the commits. The program reads events
  back by creation time and then by random id, so a rebuild and a restore get any listing of the journal that is sorted
  by stamp, ties in any order (`Memory.Reads`). Only the order within one memory matters
  (`MemoryReplay.RebuildIgnoresInterleaving`). Theorems about runs say what they need of it: `OrderlyReads` means that
  each read kept the events of every memory it used in commit order.
- Strings of the composer are byte strings.

## Where the code does not do what its documentation says

- A claim resets orphans in one transaction and takes the lease in the next. When another claim's lease expires in
  between, the take overwrites it and the rows of the overwritten claim stay in processing for good
  (`QueueSafety.SplitClaimLosesWork`, `QueueSafety.StrandedForever`). `QueueSafety.StrandedIffRunStrands` says exactly
  which steps do this.
- For the same reason two memory-mutating jobs of one agent can run at once (`QueueSafety.SplitClaimsDouble`), exactly
  when a claim takes such work while an overdue lease of another session covers some (`QueueSafety.ExcludesIffNeverDoubles`).
- The pending cap bounds what an enqueue may add, not what a session holds: an orphan reset refills the pending rows
  (`QueueSafety.CapIsExceeded`, `QueueSafety.CapBrokenOnlyByReset`).
- The journal is meant to replay every mutation, but it is replayed by stamp, and a stamp is a clock reading taken
  before the memory's row is locked. Every way to read the journal keeps the events of a memory in commit order if and
  only if its stamps increase (`MemoryOrder.ReadsAgreeIffStamped`). When they do not, a rebuild may fail with nothing
  reverted but a forget (`MemoryCounterexamples.LateForgetStampBreaksRebuild`) or take an update back
  (`MemoryCounterexamples.EarlyUpdateStampIsUndone`). When they do, rebuild and undo do as documented up to the two
  points below (`MemoryHistory.StampedRunRebuilds`, `MemoryHistory.StampedForgetIsUndone`). For any reading at all,
  `MemoryReplay.RebuildFailsIffClash` and `MemoryReplay.RebuildIdentityIff` say exactly what a rebuild does.
- Reverting a forget event inserts with a conflict clause, replay inserts plainly. Reverting the forget of a memory
  that is live makes every later rebuild of that agent fail (`MemoryHistory.RebuildBrokenForever`), and as long as
  reads are orderly nothing else does (`MemoryHistory.RebuildSucceedsIffClean`).
- Reverting an update writes back the state and the pin the update itself had set and leaves its embedding in place, so
  the old text is searched under the new text's embedding; only the content goes back
  (`MemoryHistory.UpdateRevertRoundTrip`, `MemoryHistory.PinRevertRoundTrip`).
- A rebuild keeps the journalled columns and the embeddings but resets the validation and access times and the access
  count (`MemoryReplay.RebuildRestores`, `MemoryHistory.AccessIsForgotten`).
- The validation log is described as append-only, but its rows go with the memory rows they refer to, and a rebuild
  deletes those before it inserts them again (`ValidationLog.SurvivesIff`, `ValidationLog.RebuildEmptiesLog`,
  `ValidationLog.RebuildLosesValidation`).
- The cap on an agent's memories is called hard, but no write looks at it, and listing an agent's memories asserts it.
  Writes and restores raise the number of rows without bound (`MemoryQuota.RaisedExactlyByAdds`), the assertion is
  reachable by an agent's own writes (`MemoryQuota.ReadReachesAssertion`), and only a sweep brings the number down,
  exactly when the pinned rows fit (`MemoryQuota.SweepRestoresIffPinnedFit`).
- Cache eviction takes the first expired entry the scan meets, not the oldest expired one
  (`TtlCache.YoungerExpiredGoesFirst`); it is sure to take the oldest exactly when all expired entries are equally old
  (`TtlCache.EvictsOldestIff`).
- Subscribing to an unknown request succeeds with an empty stream instead of failing
  (`HubRuns.SubscribeNeverFails`, `HubRuns.UnknownRequestIsSilent`), and may evict the slot of a request that exists
  (`HubRuns.UnknownRequestEvicts`).
- The rate limiter reads its clock before it takes the lock. Calls that lock in another order than they read can admit
  more than the quota in one minute (`RateLimit.LateLockExceedsQuota`) or reject a call below it
  (`RateLimit.LateLockRejectsEarly`). The quota holds whenever a user's calls lock in the order of their readings
  (`RateLimit.NoMinuteOverQuota`); what is admitted otherwise is counted exactly by `RateLimit.AdmitsExactly`.
- Parsing a memory handle accepts a plus sign and leading zeros besides the canonical form (`Handles.CanonicalIff`,
  `Handles.ParsesIffSpelled`).
- A terminal chunk closes its request's slot when its publish fetches the sender, so a chunk of the same request that was
  committed before but fetches later is persisted, yet refused and never sent (`HubEffects.AcknowledgedIffOpen`).

## Model

| member | source | states |
|---|---|---|
| `QueueRuns.ReachableInv` | src/runtime/pg_queue.rs:105-577 | in every reachable state: a pending row has attempts left, a failure reason is present exactly on failed rows, a row's turn number never exceeds its session's counter, a lease carries the session's latest turn, idempotency keys are unique per organisation |
| `QueueRuns.RowsKeepIdentity` | src/runtime/pg_queue.rs:554-992 | no step changes a row's session, receiver, kind, key or creation time or deletes it, and only an enqueue adds one |
| `QueueRuns.ClaimTakesAndDrains` | src/runtime/pg_queue.rs:199-257 | a claim always gets the lease of its candidate's session, holds it afterwards, and stamps every pending row of the session with the new turn and one more attempt |
| `QueueRuns.FencedForever` | src/runtime/pg_queue.rs:380-423 | once a token handed out earlier no longer matches its lease it never matches again, and heartbeat, release and finalise with it change nothing for the rest of every run |
| `QueueRuns.TokensAreOld` | src/runtime/pg_queue.rs:487-504 | every token handed out carries a turn number between 1 and the session's counter, so a later claim never repeats one |
| `QueueRuns.ReachableHistory` | src/runtime/pg_queue.rs:554-577 | a row's attempts count equals the number of times it was drained, and its turn number is that of the last drain |
| `QueueRuns.FinaliseTouchesOwnClaimOnly` | src/runtime/pg_queue.rs:939-992 | a finalise that passes the fence writes only rows whose most recent drain was that very claim, none of them pending |
| `QueueRuns.BoundedAttempts` | src/runtime/pg_queue.rs:119-148 | no request is drained more than the attempt limit |
| `QueueRuns.ClaimsBounded` | src/runtime/pg_queue.rs:199-257 | a run that enqueued N requests makes at most N times the attempt limit claims, however workers crash |
| `QueueRuns.CancelCommutes` | src/runtime/pg_queue.rs:271-294 | the queue never acts on a cancellation: setting the flag before or after any transaction comes to the same, and it stops none |
| `QueueRuns.CancellationSticks` | src/runtime/pg_queue.rs:271-294 | a request once cancelled stays flagged through every run |
| `QueueSafety.StrandedIffRunStrands` | src/runtime/pg_queue.rs:105-577 | a reachable state has a processing row without a lease of its turn if and only if the run contains a step that overwrote an expired lease with rows in flight or released a lease with rows in flight |
| `QueueSafety.StrandedForever` | src/runtime/pg_queue.rs:105-152 | a row stranded at some point of a run is stranded at its end, whatever happens in between |
| `QueueSafety.NoWorkStranded` | src/runtime/pg_queue.rs:199-423 | when reset and take of a claim see one clock reading with nothing in between and workers release only after finalising, no processing row is ever without its lease |
| `QueueSafety.ResetReclaims` | src/runtime/pg_queue.rs:105-152 | a reset at or after the lease's deadline returns each such row to pending, or parks it as failed with the poison reason exactly when its attempts are used up |
| `QueueSafety.SplitClaimLosesWork` | src/runtime/pg_queue.rs:205-241 | a concrete run without a single release, in which every claim runs its own reset first, that strands a request |
| `QueueSafety.ExcludesIffNeverDoubles` | src/runtime/pg_queue.rs:446-482 | with the two transactions of a claim freely interleaved and sessions of one kind and receiver: no two leased sessions process memory-mutating jobs of one agent at any point of a run, if and only if no claim takes such work for an agent that has some in processing under another session's lease |
| `QueueSafety.DoublesUnderOverdueLease` | src/runtime/pg_queue.rs:462-472 | such a lease is overdue at the claim's clock reading, since the candidate query sees live leases |
| `QueueSafety.SplitClaimsDouble` | src/runtime/pg_queue.rs:205-241 | a concrete run, every claim with its own reset, that ends with two Reflections of one agent under two leases |
| `QueueSafety.MutatorsExclude` | src/runtime/pg_queue.rs:205-241 | when reset and take of each claim run without a transaction in between, exclusion holds at every point of every run, although a heartbeat may revive an expired lease |
| `QueueSafety.ReachableLevels` | src/runtime/pg_queue.rs:710-731 | for every attempt count, the rows of a session pending or in processing at that count never exceed the pending cap |
| `QueueSafety.PendingBounded` | src/runtime/pg_queue.rs:128-136 | a session never has more pending rows than the pending cap times the attempt limit |
| `QueueSafety.ResetRefills` | src/runtime/pg_queue.rs:105-152 | a reset leaves exactly the old pending rows plus the reclaimed ones with attempts left |
| `QueueSafety.CapBrokenOnlyByReset` | src/runtime/pg_queue.rs:710-731 | a step pushes a session over the cap if and only if it is a reset whose returning rows do not fit |
| `QueueSafety.CapIsExceeded` | src/runtime/pg_queue.rs:128-136 | a concrete run that reaches the cap times the attempt limit |
| `QueueEffects.EnqueueDecides` | src/runtime/pg_queue.rs:640-731 | which of the four refusals an enqueue meets, and when: talking to itself, a repeated key of the organisation, an unknown session, or a session it would join that has reached the pending cap |
| `QueueEffects.EnqueueWrites` | src/runtime/pg_queue.rs:640-682 | an admitted request is one new pending row with no attempts, in the named or the minted session; nothing else changes |
| `QueueEffects.ResetWrites` | src/runtime/pg_queue.rs:105-152 | deletes exactly the leases that have run out, and of the rows only those processing under such a lease's turn go back to pending, or to failed with the poison reason when their attempts are used up |
| `QueueEffects.ClaimsOldestFirst` | src/runtime/pg_queue.rs:446-482 | a claim takes work that is free (pending, no live lease on its session, and no memory-mutating work of its agent under a live lease if it is of that kind itself), and no free row is older |
| `QueueEffects.ClaimFindsIffFree` | src/runtime/pg_queue.rs:446-482 | a claim finds work if and only if some row is free |
| `QueueEffects.TakeWrites` | src/runtime/pg_queue.rs:487-577 | stores the next turn and a lease for a full term, drains every pending row of the session and writes no other row or column |
| `QueueEffects.HeartbeatWrites` | src/runtime/pg_queue.rs:380-405 | with a token that holds its lease the deadline becomes a full term from now and nothing else changes; with another token nothing changes |
| `QueueEffects.HeartbeatExtends` | src/runtime/pg_queue.rs:380-405 | at every reading below that deadline the session is busy, the token still holds it, and a reset takes none of its rows |
| `QueueEffects.KeptAlive` | src/runtime/pg_queue.rs:105-405 | on every run: a claim whose token is heartbeated less than a term before every later reset and claim keeps its lease, and each row it drained is processing under it unless its own finalise reported it |
| `QueueEffects.ReleaseWrites` | src/runtime/pg_queue.rs:407-423 | deletes the token's own lease and nothing else |
| `QueueEffects.FinaliseWrites` | src/runtime/pg_queue.rs:905-992 | past the fence every reported row of the token's session and turn is done without a reason, or failed with the given one; all other rows and columns stay, and without the lease all of them |
| `QueueEffects.SettledForever` | src/runtime/pg_queue.rs:939-992 | a done or failed row whose turn's lease is gone never changes again on any run, the cancellation flag aside |
| `QueueEffects.OutcomeStays` | src/runtime/pg_queue.rs:939-992 | on every run: the outcome a worker reports before it releases its lease is the status and reason of the request at every later point |
| `QueueEffects.CancelWrites` | src/runtime/pg_queue.rs:271-294 | sets the flag of that row and nothing else |
| `QueueStore.PromptQueue.Enqueue` | src/runtime/pg_queue.rs:640-682 | the enqueue transaction: self-session, duplicate key, unknown session and full session are told apart in this order and change nothing |
| `QueueStore.PromptQueue.FindByKey` | src/runtime/pg_queue.rs:686-707 | finds a request with the key in the organisation exactly when there is one |
| `QueueStore.PromptQueue.ResetOrphans` | src/runtime/pg_queue.rs:105-152 | the loop over expired leases has the effect of one simultaneous update of all rows |
| `QueueStore.PromptQueue.NextCandidate` | src/runtime/pg_queue.rs:446-482 | returns an oldest eligible row, and nothing exactly when no row is eligible |
| `QueueStore.PromptQueue.BumpTurnSeq` | src/runtime/pg_queue.rs:487-504 | the first turn is 1, later ones count up by one |
| `QueueStore.PromptQueue.TryTakeLease` | src/runtime/pg_queue.rs:510-538 | takes the lease exactly when none is live |
| `QueueStore.PromptQueue.DrainPending` | src/runtime/pg_queue.rs:554-577 | drains exactly the session's pending rows, each listed once |
| `QueueStore.PromptQueue.TakeNext` | src/runtime/pg_queue.rs:213-257 | the second transaction of a claim: the lease-race and empty-batch exits are not taken, the session of an oldest eligible row is drained, and the answer is as the batch demands; the batch assertion holds when sessions are homogeneous |
| `QueueStore.PromptQueue.Assemble` | src/runtime/pg_queue.rs:582-634 | panics exactly when two drained rows disagree on receiver or kind, else fails exactly when a prompt does not parse, else hands out all rows in drain order |
| `QueueStore.PromptQueue.ClaimNextSession` | src/runtime/pg_queue.rs:199-257 | reset followed by take at one clock reading |
| `QueueStore.PromptQueue.Heartbeat` | src/runtime/pg_queue.rs:380-405 | extends the lease exactly when the token holds it, else reports it stale |
| `QueueStore.PromptQueue.Release` | src/runtime/pg_queue.rs:407-423 | deletes the lease exactly when the token holds it |
| `QueueStore.PromptQueue.Finalise` | src/runtime/pg_queue.rs:939-992 | writes the receipt's rows of the token's session and turn, or reports a stale lease and writes nothing |
| `MemoryReplay.StepCommits` | src/memory/pg_store.rs:376-1297 | every mutation path that reads orderly keeps ownership, kind and attribute tracking, and keeps the table equal to the replay in commit order if and only if it does not revert the forget of a live memory |
| `MemoryReplay.StepKeepsOwned` | src/memory/pg_store.rs:376-1297 | in whatever order it reads, every mutation path keeps every memory with one owner and one kind, and every row backed by an event |
| `MemoryRuns.CellIsFoldOfOwn` | src/memory/pg_store.rs:1412-1470 | what the journal says about a memory is the fold of that memory's own events |
| `EventCodec.EncodeThenDecode` | src/memory/pg_store.rs:1301-1376 | the columns written for an event satisfy the table's constraints and are read back as the same event |
| `EventCodec.ColumnsAre` | src/memory/pg_store.rs:1301-1376 | which value of an event stands in which column |
| `EventCodec.AllowedIffEncoded` | src/memory/pg_store.rs:1529-1588 | the constraints admit exactly the rows that lay out some event, so reading an admitted row never fails |
| `MemoryReplay.ReplayIsPointwise` | src/memory/pg_store.rs:1412-1470 | replay of any list of events clashes exactly when some memory's own history does, and otherwise agrees with every memory's own fold |
| `MemoryReplay.RebuiltCells` | src/memory/pg_store.rs:210-258 | in whatever order the events are read: a rebuild that succeeds leaves each of the agent's memories as the fold of its events in that order, with fresh counters and its embedding, and every other row untouched |
| `MemoryReplay.RebuildIdentityIff` | src/memory/pg_store.rs:210-258 | in whatever order the events are read: a rebuild gives back exactly the table, usage counters aside, if and only if the events fold to it memory by memory |
| `MemoryReplay.RebuildRestores` | src/memory/pg_store.rs:210-258 | a rebuild that succeeds on an orderly reading leaves other agents alone and restores the agent's rows with journalled columns and embedding, counters reset |
| `MemoryRuns.RevertForgetCommits` | src/memory/pg_store.rs:882-933 | in whatever order it reads, reverting a forget keeps ownership and fails only for an absent memory; if it reads the attributes that commit order gives, the table stays the replay of the journal exactly when the memory was not live, and else its history clashes |
| `MemoryEffects.RefusedExactly` | src/memory/pg_store.rs:1383-1406 | an update, forget, validation or pin is refused in exactly three cases, a missing memory, another agent's, and a pinned one unless the operator asks, and then changes nothing |
| `MemoryEffects.WriteWrites` | src/memory/pg_store.rs:1175-1227 | a write inserts the row with all clocks at its reading and journals it under the same values |
| `MemoryEffects.UpdateWrites` | src/memory/pg_store.rs:1230-1270 | an update changes content, state and embedding of its row and no other column, and journals the old and the new content |
| `MemoryEffects.ForgetWrites` | src/memory/pg_store.rs:1272-1297 | a forget deletes its row and journals the content it had |
| `MemoryEffects.ValidateWrites` | src/memory/pg_store.rs:996-1061 | a validation moves tentative to held, held to validated and nothing else, and moves the validation clock |
| `MemoryEffects.PinWrites` | src/memory/pg_store.rs:740-776 | a pin changes the pin only, as the operator |
| `MemoryEffects.AccessWrites` | src/memory/pg_store.rs:1108-1131 | an access counts one use of each listed row at its reading and journals nothing |
| `MemoryEffects.RevertsOwnEventsOnly` | src/memory/pg_store.rs:787-803 | only an event of the agent itself is found |
| `MemoryEffects.RevertUpdateWrites` | src/memory/pg_store.rs:840-877 | in every reachable store, reverting any update of a live memory, the latest or an older one, writes back the content before it with the state and the pin that this update had set, keeps every other column and row, and journals just that |
| `MemoryEffects.RevertWriteWrites` | src/memory/pg_store.rs:808-833 | reverting a write forgets the memory, pinned or not |
| `MemoryEffects.RevertForgetOfLiveWrites` | src/memory/pg_store.rs:882-933 | reverting the forget of a memory that is live journals a second write of it and changes no row |
| `MemoryEffects.DecayWrites` | src/memory/pg_store.rs:376-423 | exactly the agent's validated, unpinned rows last validated before the cutoff are held afterwards, every other column and row as it was, with one librarian event each that keeps the content |
| `MemoryEffects.MatureWrites` | src/memory/pg_store.rs:427-487 | likewise the agent's tentative, unpinned rows created before the cutoff and in no open contradiction |
| `MemoryEffects.EvictionWrites` | src/memory/pg_store.rs:616-683 | evicts as many rows as are over the quota or all unpinned ones, lowest first: tentative before held before validated before core, then by last access and use; each with one librarian event, everything else kept |
| `MemoryEffects.ClockMovesOnlyBy` | src/memory/pg_store.rs:474-478 | the validation clock of a memory that stays live moves only to the reading of a validation recorded for it, or to its creation time when its agent is rebuilt |
| `MemoryEffects.ValidatedHasSignal` | doc/memory.md:229 | on every run of orderly reads whose writes and updates name at most held: no memory is ever core, and one that is validated had a validation recorded for it |
| `MemoryHistory.ReachableOwned` | src/memory/pg_store.rs:376-1297 | in every reachable store, in whatever order reads came, a memory has one owner and one kind and every row is backed by an event of its owner |
| `MemoryHistory.ReachableBase` | src/memory/pg_store.rs:376-1297 | after every run of orderly reads the latest write or update event of a live memory carries its current kind, state and pin, and unless its history clashes the table holds what its events say |
| `MemoryOrder.StampedReadsInOrder` | src/memory/pg_store.rs:235-238 | a memory whose stamps increase in commit order has its events read in that order, whatever order ties of the journal come in |
| `MemoryOrder.ReadsAgreeIffStamped` | src/memory/pg_store.rs:235-238 | every listing sorted by stamp keeps a memory's events in commit order if and only if its stamps increase strictly, equal events aside |
| `MemoryHistory.StampedRunsReadInOrder` | src/memory/pg_store.rs:1143-1151 | on a run after which every memory's stamps increase, every read of the journal was orderly, and so is any next one |
| `MemoryHistory.ConsistentIffCleanReverts` | src/memory/pg_store.rs:210-258 | on every run of orderly reads the table equals the replay of the journal in commit order if and only if no step reverted the forget of a live memory |
| `MemoryHistory.RebuildIsIdentity` | src/memory/pg_store.rs:210-258 | after every run of orderly reads, an orderly rebuild that succeeds changes nothing but usage counters and is idempotent; it always succeeds after clean reverts |
| `MemoryReplay.RebuildFailsIffClash` | src/memory/pg_store.rs:1412-1470 | in whatever order the events are read: a rebuild fails exactly when in that order one of the agent's memories has a clashing history |
| `MemoryHistory.RebuildBrokenForever` | src/memory/pg_store.rs:882-933 | after a forget of a live memory was reverted, every later orderly rebuild of that agent fails |
| `MemoryHistory.RebuildSucceedsIffClean` | src/memory/pg_store.rs:882-933 | on every run of orderly reads, an agent's orderly rebuild succeeds if and only if no step reverted the forget of one of its memories while that memory was live |
| `MemoryHistory.StampedRunRebuilds` | src/memory/pg_store.rs:210-258 | on every run after which every memory's stamps increase, and in whatever order ties are read, an agent's rebuild succeeds if and only if no forget of its live memories was reverted, and then changes nothing but usage counters |
| `MemoryCounterexamples.LateForgetStampBreaksRebuild` | src/memory/pg_store.rs:235-243 | a concrete run: a forget stamped before the write it follows is reverted; no live memory's forget was, and yet the rebuild clashes |
| `MemoryCounterexamples.EarlyUpdateStampIsUndone` | src/memory/pg_store.rs:235-243 | a concrete run of one write and one update stamped before it, with nothing reverted: the rebuild succeeds and takes content and state back |
| `MemoryHistory.AccessIsForgotten` | src/memory/pg_store.rs:1108-1131 | in whatever order it reads, a rebuild undoes every recorded access to the agent's memories and commutes with all others |
| `ValidationLog.ReachableLog` | src/memory/pg_store.rs:996-1061 | every logged validation is of a live memory and of that memory's agent |
| `ValidationLog.LogGains` | src/memory/pg_store.rs:1008-1023 | a step logs a validation, with its agent, memory and reading, exactly when it is a validation that is not refused |
| `ValidationLog.SurvivesIff` | src/memory/pg_store.rs:1008-1023 | a logged validation survives the rest of a run, unchanged, if and only if its memory is live at every point of it and no rebuild of the memory's agent succeeds |
| `ValidationLog.DeletesAre` | src/memory/pg_store.rs:210-258 | in every reachable store a step's statements delete a live memory's row if and only if the memory is gone after the step or the step is a successful rebuild of its agent |
| `ValidationLog.RebuildEmptiesLog` | src/memory/pg_store.rs:210-258 | in whatever order it reads, a rebuild that succeeds leaves exactly the other agents' validations |
| `ValidationLog.RebuildLosesValidation` | src/memory/pg_store.rs:210-258 | a concrete run: write, validate, rebuild; the memory is live and promoted, its validation gone |
| `MemoryCounterexamples.SecondRestoreBreaksReplay` | src/memory/pg_store.rs:882-933 | a concrete run with increasing stamps: reverting one forget twice breaks the rebuild, however ties are read |
| `MemoryReplay.RebuildIgnoresInterleaving` | src/memory/pg_store.rs:210-258 | a reading that keeps the events of each of the agent's memories in sequence rebuilds to the same result as commit order |
| `MemoryHistory.ForgetRevertRoundTrip` | src/memory/pg_store.rs:882-933 | reverting a forget, after anything that left the memory alone and with the memory's own events read in sequence, restores its content, kind, state and pin |
| `MemoryHistory.ForgetsJournalContent` | src/memory/pg_store.rs:616-683 | whichever step removes a memory (tool, eviction, revert of its write) journals one forget event with the content it had |
| `MemoryHistory.LastForgetIsUndone` | src/memory/pg_store.rs:685-933 | on every run of orderly reads, the removal made by the last step is undone by reverting the event it journalled |
| `MemoryHistory.StampedForgetIsUndone` | src/memory/pg_store.rs:685-933 | likewise on every run after which every memory's stamps increase, in whatever order ties are read |
| `MemoryHistory.RevertingLatestUpdate` | src/memory/pg_store.rs:840-877 | reverting a memory's latest update changes its content back and no other column of any row |
| `MemoryHistory.UpdateRevertRoundTrip` | src/memory/pg_store.rs:840-877 | an update followed by its revert leaves the row with the update's state and embedding, so it is the identity on the row if and only if the update changed neither |
| `MemoryHistory.PinRevertRoundTrip` | src/memory/pg_store.rs:740-776 | reverting a pin or unpin changes no row: it stays in place |
| `MemoryHistory.PinnedImmune` | src/memory/store.rs:111-117 | no sequence of agent and librarian steps, orderly rebuilds included, changes or removes a pinned memory, from any store reached by orderly reads |
| `MemoryHistory.EvictionCount` | src/memory/pg_store.rs:616-683 | over quota, eviction leaves exactly the larger of the quota and the number of pinned rows |
| `MemoryHistory.EvictionFacts` | src/memory/pg_store.rs:636-655 | the first rows of any listing ordered by the three keys are unpinned rows of the agent, as many as are over quota or all, and none stands higher than one that is left, by state from tentative up to core, then last access, then use |
| `MemoryHistory.EvictionSelects` | src/memory/pg_store.rs:616-683 | so only unpinned rows of the agent go, everything else stays as it was, and no evicted row stands higher than a surviving unpinned one: in particular no held, validated or core row goes while an unpinned tentative one stays |
| `MemoryQuota.RaisedExactlyByAdds` | src/memory/pg_store.rs:1175-1227 | under orderly reads a step raises the number of an agent's rows exactly when it is a write of the agent or the restore of a memory that is not live, and then by one |
| `MemoryQuota.SweepRestoresIffPinnedFit` | src/memory/pg_store.rs:616-683 | a sweep's eviction leaves an agent within its quota if and only if its pinned rows fit |
| `MemoryQuota.WritesAreNotCapped` | src/memory/pg_store.rs:1175-1227 | for every number there is a run of an agent's own writes that leaves it with that many rows |
| `MemoryQuota.ReadReachesAssertion` | src/memory/pg_store.rs:141-169 | a run of nothing but an agent's own writes after which listing its memories fails the assertion on the cap |
| `MemoryStore.Ranking` | src/memory/pg_store.rs:638-648 | lists all given rows, each once, tentative before held before validated before core, then by last access and access count |
| `MemoryStore.MemoryTable.LockExisting` | src/memory/pg_store.rs:1383-1406 | missing row, foreign row and pinned row are refused in this order; only the operator passes a pin |
| `MemoryStore.MemoryTable.ApplyWrite` | src/memory/pg_store.rs:1175-1227 | the write transaction |
| `MemoryStore.MemoryTable.ApplyUpdate` | src/memory/pg_store.rs:1230-1270 | the update transaction, or the error with nothing changed |
| `MemoryStore.MemoryTable.ApplyForget` | src/memory/pg_store.rs:1272-1297 | the forget transaction, or the error with nothing changed |
| `MemoryStore.MemoryTable.RecordValidation` | src/memory/pg_store.rs:1025-1061 | promotes by one state and stamps the validation time, or the error with nothing changed |
| `MemoryStore.MemoryTable.SetPinned` | src/memory/pg_store.rs:740-776 | sets the pin through the operator path |
| `MemoryStore.MemoryTable.DecayValidated` | src/memory/pg_store.rs:376-423 | the loop stores held in exactly the stale validated unpinned rows and journals one event each |
| `MemoryStore.MemoryTable.MatureTentative` | src/memory/pg_store.rs:427-487 | the loop stores held in exactly the old tentative unpinned rows without an open contradiction and journals one event each |
| `MemoryStore.MemoryTable.EvictOverflow` | src/memory/pg_store.rs:616-683 | evicts what the eviction query may return, one forget event each |
| `MemoryStore.MemoryTable.RevertEvent` | src/memory/pg_store.rs:685-933 | the inverse of each kind of event, a forget's by the attributes found in the journal as read by stamp, or the error with nothing changed |
| `MemoryStore.MemoryTable.LatestAttrsFor` | src/memory/pg_store.rs:1143-1172 | the attributes of a write or update event of the memory with the latest stamp, and none exactly when there is no such event |
| `MemoryStore.MemoryTable.RebuildMaterialized` | src/memory/pg_store.rs:210-258 | delete, replay in the order read by stamp, reattach embeddings; a clash rolls everything back |
| `HubRuns.ReachableInv` | src/runtime/pg_response.rs:306-386 | in every reachable hub the persisted numbers of a request are exactly 0 up to its counter under any mix of publish and close, and the slot table lists its keys once each in its deque and stays within its cap |
| `HubRuns.DeliveredAtMostOnce` | src/runtime/pg_response.rs:258-466 | under every interleaving of commit, fetching the sender, sending, subscribe and backlog read a subscriber never sees a number twice, and only persisted chunks after its starting point |
| `HubRuns.DeliveredAtLeastOnce` | src/runtime/pg_response.rs:258-466 | a subscriber whose slot was not evicted has seen every chunk after its starting point that was in its backlog or whose publish returned, even if the publisher's own slot was evicted between fetching the sender and sending |
| `HubEffects.AcknowledgedIffOpen` | src/runtime/pg_response.rs:128-270 | on every run: a committed chunk, terminal or not, is acknowledged if and only if its request's slot was not closed when its publish fetched the sender, and the publish then sent |
| `HubEffects.OpenSlotDelivers` | src/runtime/pg_response.rs:258-466 | so every such chunk is seen, with its number and content, by every subscriber whose slot was not evicted and whose starting point lies before it |
| `HubEffects.CommitWrites` | src/runtime/pg_response.rs:280-346 | a commit of a known request persists the chunk under the next number and marks the stream closed after a final or an error chunk; of an unknown request it does nothing |
| `HubEffects.FetchWrites` | src/runtime/pg_response.rs:128-145 | a publish gets its slot's channel if and only if the slot is not closed, whatever its chunk; a final or an error chunk then closes the slot |
| `HubEffects.SendWrites` | src/runtime/pg_response.rs:258-270 | a send acknowledges the chunk and appends it for exactly the subscribers on its channel |
| `HubEffects.CloseWrites` | src/runtime/pg_response.rs:147-152 | closing marks the stream, then the slot, and drops nothing |
| `HubEffects.SubscribeWrites` | src/runtime/pg_response.rs:115-123 | a subscriber attaches to its request's slot, closed or not, and changes nobody else |
| `HubEffects.TouchWrites` | src/runtime/pg_response.rs:166-178 | a slot is added only when missing, open and on a new channel; exactly one other goes, and only when all are taken |
| `HubEffects.PublishMovesOn` | src/runtime/pg_response.rs:258-270 | a publish on its way can always take its next step |
| `HubEffects.BacklogExists` | src/runtime/pg_response.rs:398-440 | a backlog read always finds its rows, from the starting point to the last chunk committed |
| `HubRuns.BacklogNumbers` | src/runtime/pg_response.rs:398-440 | a backlog has consecutive numbers from the starting point on |
| `HubRuns.SubscribeNeverFails` | src/runtime/pg_response.rs:371-385 | at any point of any run, subscribing to any request id succeeds and leaves the subscriber on a slot of the table |
| `HubRuns.UnknownRequestIsSilent` | src/runtime/pg_response.rs:371-385 | on every run a subscriber of a request that does not exist sees nothing |
| `HubRuns.UnknownRequestEvicts` | src/runtime/pg_response.rs:166-197 | a concrete run in which subscribing to a request that does not exist evicts the slot of one that does |
| `HubOrder.DeliveredInOrder` | src/runtime/pg_response.rs:258-270 | with one publisher per request at a time the delivered numbers are consecutive from the starting point |
| `HubRuns.EvictsOldestClosed` | src/runtime/pg_response.rs:180-197 | the victim is the oldest closed slot if there is one, else the oldest slot, and the others keep their order |
| `HubRuns.TouchedOk` | src/runtime/pg_response.rs:166-178 | touching a slot keeps deque and table in step and within the cap |
| `HubStore.SlotDirectory.EvictOne` | src/runtime/pg_response.rs:180-197 | the scan of the deque removes that victim from both structures |
| `HubStore.SlotDirectory.TouchSlot` | src/runtime/pg_response.rs:166-178 | gets or creates the slot, evicting only when full |
| `HubStore.SlotDirectory.SubscribeLive` | src/runtime/pg_response.rs:115-123 | hands out the slot's channel and closed flag |
| `HubStore.SlotDirectory.PublishSender` | src/runtime/pg_response.rs:128-145 | refuses exactly a closed slot, else answers the slot's channel; the slot is closed afterwards if it was or if the chunk is terminal |
| `HubStore.FetchAsks` | src/runtime/pg_response.rs:258-267 | the fetch step of a publish is one such request with the chunk's own terminal flag |
| `HubStore.SlotDirectory.MarkClosed` | src/runtime/pg_response.rs:147-152 | closes the slot, creating it if missing |
| `HubStore.AssembleBacklog` | src/runtime/pg_response.rs:431-439 | wraps all rows in order and returns the largest of the starting point and all numbers |
| `CacheRuns.ReachableInv` | src/cache.rs:109-188 | under every interleaving, loads that took their epoch after a bump read at least what the source held at the bump, and a loader past its epoch check holds the lock |
| `CacheRuns.FreshAfterInvalidate` | src/cache.rs:109-188 | once a clear or an invalidate of a key has returned, an entry of that key comes from a load that started after its bump and is no older than the source at the bump; the cap holds |
| `CacheRuns.AnswersAreFresh` | src/cache.rs:109-123 | a caller that starts after a clear or an invalidate of its key has returned gets a version no older than the source at the bump, on a hit as on a miss, whether or not its insert was dropped |
| `CacheRuns.InsertsIffNoBump` | src/cache.rs:109-159 | on every run: a load that comes to its check goes on to insert what it read if and only if no clear or invalidate bumped the epoch since it started |
| `CacheRuns.InsertWrites` | src/cache.rs:139-159 | the insert stores what was read under its key and evicts one other entry exactly when the cache is full and the key new |
| `CacheRuns.LookupWrites` | src/cache.rs:125-137 | a lookup answers from the cache exactly while the entry is younger than the time to live |
| `CacheRuns.CallWrites` | src/cache.rs:109-123 | a call starts with the invalidations that have returned, a load with the epoch of its start, and reads the source as it is |
| `CacheRuns.InvalidationWrites` | src/cache.rs:175-188 | an invalidation bumps the epoch first and later drops its key, a clear every key |
| `TtlCache.BoundedTtlCache.LookupFresh` | src/cache.rs:125-137 | returns an entry exactly while it is younger than the time to live |
| `TtlCache.VictimsOfScans` | src/cache.rs:214-237 | some scan order evicts an entry if and only if it is expired, or nothing is and it is a least recently fetched one |
| `TtlCache.VictimIs` | src/cache.rs:214-237 | a scan picks the first entry that is too old; without one, the entry fetched least recently, and of several the first met |
| `TtlCache.EvictsOldestIff` | src/cache.rs:212-237 | every scan order evicts the oldest expired entry (else the oldest one), if and only if all expired entries were fetched at one time |
| `TtlCache.YoungerExpiredGoesFirst` | src/cache.rs:212-237 | a concrete cache and scan order in which a younger expired entry is evicted and the oldest one stays |
| `TtlCache.BoundedTtlCache.PickVictim` | src/cache.rs:214-237 | for a given scan order, the loop returns the first expired entry it meets, else the first of the least recently fetched ones |
| `TtlCache.BoundedTtlCache.InsertIfEpoch` | src/cache.rs:139-159 | drops the value when the epoch moved, else inserts within the cap, evicting exactly the scan's victim when full; the assertion that eviction made room holds |
| `TtlCache.BoundedTtlCache.Clear` | src/cache.rs:175-181 | bumps the epoch and drops everything |
| `TtlCache.BoundedTtlCache.Invalidate` | src/cache.rs:185-188 | bumps the epoch and drops one key |
| `Librarian.Loser` | src/memory/librarian.rs:160-173 | the other row strictly outranks the loser: core over validated over held over tentative, then the older row, then the smaller id |
| `Librarian.SweepSettlesPairs` | src/memory/librarian.rs:88-110 | after the sweep every pair has a forgotten side or a pinned loser, no pinned row is forgotten, none twice |
| `Librarian.SweepKeepsASurvivor` | src/memory/librarian.rs:88-110 | every forgotten row is joined by a chain of listed pairs, each step strictly upward, to a survivor that outranks it |
| `Librarian.DedupSweep` | src/memory/librarian.rs:80-110 | over the query's pairs and rows, and a store that may have moved on, the loop forgets exactly the sweep's rows, or a beginning of it up to the first loser the store refuses; it is never refused when the rows are current |
| `Handles.ShowThenParse` | src/memory/types.rs:235-257 | a printed handle is read back as the same handle |
| `Handles.CanonicalIff` | src/memory/types.rs:235-252 | a text that parses is the printed form of its handle exactly when a non-zero digit follows the prefix |
| `Handles.ShowDigits` | src/memory/types.rs:254-258 | a printed handle is the prefix and its one to four decimal digits |
| `Handles.ParsesIffSpelled` | src/memory/types.rs:235-252 | a text is read as a handle if and only if it is the prefix, perhaps a plus sign, any zeros, and that handle as printed |
| `Handles.NonCanonicalAccepted` | src/memory/types.rs:235-252 | two concrete texts outside the canonical form that parse |
| `Composer.TrimmedIsLongest` | src/memory/composer.rs:140-152 | the first rows of a list, at 32 bytes above their contents, fit the budget if and only if all of them are kept |
| `Composer.TrimToBudget` | src/memory/composer.rs:140-152 | the loop returns that longest prefix |
| `Composer.StableSortSorts` | src/memory/composer.rs:131-136 | core before validated before held before tentative, and in one state the newer row first |
| `Composer.StableSortPermutes` | src/memory/composer.rs:131-136 | sorting loses and adds nothing |
| `Composer.StableSortIsStable` | src/memory/composer.rs:131-136 | rows of one state and creation time keep their order |
| `Composer.StableLayerIs` | src/memory/composer.rs:123-138 | the stable layer is the longest beginning, within 4096 bytes, of the pinned rows and the rows about the agent itself, in that order |
| `Composer.ContextualLayerIs` | src/memory/composer.rs:105-121 | the contextual layer is the longest beginning, within 4096 bytes, of the retrieved rows that the stable layer does not have, in the order given |
| `Composer.ShownIs` | src/memory/composer.rs:154-186 | what is rendered is the stable layer and then the contextual one, in their order, less exactly the reserved ids |
| `Composer.HandlesAreBijective` | src/memory/composer.rs:154-209 | for unique ids, handles 1 to n name the reserved ids and then the rendered rows, each id once |
| `Composer.ShownRows` | src/memory/limits.rs:50-67 | at most 124 rows in each layer, so at most 248 are rendered |
| `Composer.NeverPanics` | src/memory/composer.rs:173-178 | the handle conversions cannot fail while at most 9751 handles are reserved |
| `Composer.TextWithinBudgets` | src/memory/composer.rs:211-248 | the text is never longer than both budgets plus a fixed frame of 400 bytes |
| `Composer.OfKindIs` | src/memory/composer.rs:224-230 | every row is listed under its own kind, as often as it is shown, and under no other |
| `Composer.PrintedHandleResolves` | src/memory/composer.rs:66-73 | for every rendered row the text has the line with its own handle, its state by name and its content, and the handle, read back, resolves to that row |
| `Composer.TextLayout` | src/memory/composer.rs:211-248 | between title and closing tag stand the kinds Self, Other, Collaborator, Procedure, Open in this order, each with its heading and its lines when it has rows, handles going up |
| `Composer.EmptyIffNoneShown` | src/memory/composer.rs:188-193 | the text is empty exactly when no row is rendered, reserved handles or not |
| `Composer.BindReservedHandles` | src/memory/composer.rs:197-209 | binds the reserved ids in order and fails exactly past the largest handle |
| `Composer.RenderText` | src/memory/composer.rs:211-248 | the nested loops print the preamble, the non-empty kinds in the fixed order, and the closing tag |
| `Composer.Render` | src/memory/composer.rs:154-193 | the loop builds exactly the specified text and handle map |
| `Composer.ComposeMemorySection` | src/memory/composer.rs:105-121 | the whole composition: stable layer, contextual rows not already in it, reserved handles |
| `RateLimit.RejectedIffQuotaUsed` | src/mcp/rate_limit.rs:61-100 | for a user whose calls enter the lock in the order of their clock readings, a call is rejected if and only if ten of the user's admits since its bucket was last evicted lie in the closed minute that ends now, and there are never more |
| `RateLimit.NoMinuteOverQuota` | src/mcp/rate_limit.rs:61-100 | for such a user no closed minute holds more admits than the quota |
| `RateLimit.AdmitsExactly` | src/mcp/rate_limit.rs:61-100 | on every run, calls locking in any order: what the limiter counts is an end of the user's history, and it admits exactly when the recent admits, less the recent ones it dropped, plus the stale ones it kept, are under the quota |
| `RateLimit.LateLockExceedsQuota` | src/mcp/rate_limit.rs:62-66 | a concrete run with eleven admits in one closed minute, because a call with a later reading locked first and emptied the samples |
| `RateLimit.LateLockRejectsEarly` | src/mcp/rate_limit.rs:62-66 | a concrete run in which a call is rejected with one admit in its minute, because stale samples stand behind a recent one |
| `RateLimit.HistoryIsComplete` | src/mcp/rate_limit.rs:87-99 | for a user whose bucket is never evicted these are all admits of the run |
| `RateLimit.BucketsBounded` | src/mcp/rate_limit.rs:82-99 | the map is within its bound after every call although a rejected call returns before the eviction |
| `RateLimit.TouchedByLastCall` | src/mcp/rate_limit.rs:70-74 | on every run, the touch a bucket records is the reading of its user's last call, admitted or rejected |
| `RateLimit.EvictsLeastRecent` | src/mcp/rate_limit.rs:87-99 | on every run, a call drops a bucket exactly when it is the first of its user in a map of 4096, and the user dropped is one whose last call reads no later than any other user's in the map |
| `RateLimit.TestConnectRateLimiter.LeastRecentlyTouched` | src/mcp/rate_limit.rs:90-94 | the scan returns a least recently touched bucket of another user |
| `RateLimit.TestConnectRateLimiter.TryAdmit` | src/mcp/rate_limit.rs:61-100 | one call takes the buckets along one step of the runs above; the assertion on the sample count holds |
| `Slug.SlugIsClean` | src/auth/pg_store.rs:390-420 | for every input the slug has 1 to 50 characters of lower-case letters, digits and dashes, starts and ends alphanumeric and has no two dashes in a row |
| `Slug.SlugFixedPoints` | src/auth/pg_store.rs:390-420 | the sanitiser leaves a text alone if and only if it is such a slug, and is idempotent |
| `Slug.SlugIs` | src/auth/pg_store.rs:390-420 | the slug is the joined words of the text cut after 50 characters, or after 49 when the 50th is a dash, and the default word exactly for a text without letter or digit |
| `Slug.SeparatorJoins` | src/auth/pg_store.rs:390-420 | at any other character the joined words are those before it and those after it with one dash between, if there are any on both sides |
| `Slug.WordIsKept` | src/auth/pg_store.rs:390-420 | a text of lower-case letters and digits is its own joined words |
| `Slug.SanitizeSlug` | src/auth/pg_store.rs:390-420 | the character loop computes the alphanumeric words of the input joined by single dashes, or the default word, capped at 50 |
| `Slug.CandidateParses` | src/auth/types.rs:131-166 | the parser accepts the sanitised slug and the slug with a four-digit hexadecimal suffix |
| `Slug.ParsesIff` | src/auth/types.rs:131-166 | the parser accepts exactly 1 to 63 lower-case letters, digits and dashes that do not start with a dash |
| `Slug.CreatePersonalOrg` | src/auth/pg_store.rs:133-175 | one to six inserts are tried, every earlier one clashed, all slugs parse, and the outcome is that of the last insert, giving up exactly after six clashes |

## Left out

- `QueueStore.PromptQueue.Enqueue`: resolving a session keeps only the checks that decide the outcome; session rows, root request ids and the seeded turn budget are not modelled.
- `QueueStore.PromptQueue.TakeNext`: which stored prompts no longer parse is a parameter.
- `MemoryStore.MemoryTable.RecordValidation`: the row it adds to the validation log is modelled by `ValidationLog`, not by this object.
- `MemoryStore.MemoryTable.RebuildMaterialized`: likewise the validations its deletion takes with it.
- `Librarian.DedupSweep`: no other transaction runs between two forgets of the loop; similarity scores are not modelled.
- `RateLimit.NoMinuteOverQuota`: speaks of users whose calls lock in the order of their readings, and counts from the user's last bucket eviction, because an evicted bucket forgets its admits.
- `HubRuns.DeliveredAtLeastOnce`: a receiver that falls behind the broadcast buffer, which the stream reports as stalled, is not modelled.
- `Slug.SanitizeSlug`: Unicode lower-casing happens before the modelled text; the model takes any text as its result.
- Deleting a session (src/session/pg_store.rs:588), which takes its requests, lease and turn counter with it; the queue theorems about rows, stranded work and claim counts speak of sessions that are not deleted.
- SQL text, row-level security, tenant and privileged transaction variants, and `updated_at` columns.
- Races inside one transaction below serializable isolation, such as the count and insert of the pending cap.
- `LeaseTiming::try_new`, claim receipts as a type, trace headers and status queries of the queue.
- The worker pool: releasing after finalising and homogeneous sessions are hypotheses of the lemmas that need them.
- Embedding values, similarity search and contradiction detection of the memory store; an embedding is an opaque value and the set of memories in open contradictions a parameter.
- Notification of thread streams, chunk weights and JSON encoding in the response hub.
- Validation of memory contents beyond their being non-empty.
- The sorting algorithm of the standard library; the stable order it promises is modelled.
- Authentication, HTTP routes, MCP clients, providers, observability and the web interface.
