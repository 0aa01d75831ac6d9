# AgentKit kernel model

A Dafny model of the durable-task kernel of AgentKit, with proofs. It follows the in-memory
stores, the client that resumes a run's event log, and the bridge to tool servers.

Verify with `dafny verify dfyconfig.toml`.

## What is modelled

- **Task store.** `TaskModel` says what each operation makes of the store, `TaskClaim` what a claim
  does, `TaskStore` is the class whose methods and loops are proved equal to them. `ClaimProofs`
  says what a claim means. `TaskRuns`, `TaskHistory`, `TaskTokens`, `TaskWriters`, `TaskAccounts`,
  `TaskGraph` and `TaskRows` are about any number of workers calling in any order at instants that
  never move back. Identifiers made up by the host are fresh; that is the hypothesis `Fair`.
  `TaskFrames` says what each operation leaves alone; `TaskTurns` is about attempts leased again.
  `ClaimOrder`, `TaskRecords` and `TaskLeases` tell claims, records and leases from their fields alone.
- **Transaction gate.** `TxGate`: the chain of promises, owner tokens, timeouts and inline calls, with
  the callbacks that are due run in any order. `GatedTasks`: the task store behind it.
- **Conversation.** `MessageTree`, `TreeProofs`, `TreeSteps`, `TreePaths` are about one chat's
  records; `Conversation` is the store over a table of shared records; `ChatFiles` and `ChatRuns`
  are about its runs, `ChatSteps` and `ChatCalls` about what one call does to what is read.
- **Event streams.** `SseParser` reads the format of sections 9.2.5 and 9.2.6 of the WHATWG HTML
  Living Standard chunk by chunk, `SseFrames` writes it, `SseMeaning` says what any
  text in it means, `RunStream` is the resuming iteration,
  `StreamDelivery` what it delivers, `StreamResume` when it gives up, `StreamVisits` what it yields,
  asks for and waits, `StreamWire` the chain from the server's prints to the yields,
  `StreamServer` the server's scan, and the whole way from the task store to the client.
- **Stores that follow the lease fence.** `Receipts`, `Continuations`, `Outbox`, `OutboxRuns`, what
  their calls do in `ReceiptCalls`, `ContinuationCalls` and `OutboxOffers`, and `Cascade` for runs of all of them and deletion across them.
- **Tool servers.** `ToolIdentity`, `ToolProjection`, `Secrets`, `SecretTemplates`; `ConnectionLife`
  and `ConnectionCalls` interleave lifecycle calls and tool calls at every await;
  `ConnectionOutcomes`, `ConnectionReconcile` and `ConnectionProgress` say what a call comes to that
  nothing disturbs.

An asynchronous method without an await inside is one step. Clocks, identifiers, fence checks and
failures of the outside are inputs of the step.

## What the proofs found

Each with an input that shows it and the exact condition, in the module named.

- `acquireLease` on a leased task with an expiry that has no ISO form, or a clock that throws,
  removes the old token from the index and then throws: the holder can append and can neither
  renew nor release. A claim whose lease step fails the same way does the same (`TaskTokens`), and is
  the one failed claim, besides a reused attempt id, that leaves a trace (`ClaimProofs`).
- `endAttempt` writes the status before it reads the clock: if the clock throws, an abandoned attempt
  is never counted (`TaskAccounts`). `interruptTask` can stop the same way with the lease still held
  (`TaskTokens`).
- A standalone attempt with a throwing clock or a reused id breaks the accounts (`TaskAccounts`).
- A negative aging bonus breaks first-in first-out (`ClaimProofs`).
- Creating a deleted task id again can close a cycle that locks the queue (`TaskGraph`).
- A CR LF pair split over two chunks dispatches what is pending too early (`SseParser`).
- A second execution may name an undecided receipt once a later one is decided (`Receipts`).
- A message id used twice in a chat breaks its tree, used twice across chats its lookup; a chat
  created again under its id leaves messages to hang new ones from that no list holds (`ChatRuns`).
- A pruned outbox id that is enqueued again shows the prune (`OutboxRuns`).
- A secret with a star at either end, or three in a row, can come about again from the redaction, and
  a secret of one or two stars is found again in the stars of those before it (`Secrets`).
- A value that holds a placeholder replaced after it, or ends in a start of one, is substituted again
  (`SecretTemplates`).
- An outbox claim whose window ends past the range of dates spends an attempt of the first record on
  offer and hands out nothing (`OutboxRuns`).
- The events of an attempt leased again after another one had its turn do not stand together (`TaskTurns`).
- A `limit` of 0 lists a whole chat (`TreePaths`).
- A tool that keeps its name is misrouted if an unlisted tool is renamed to it (`ToolProjection`).
- The comment at packages/mcp-client/src/projection.ts:75-80 says that tool names are trimmed; the
  code at packages/mcp-client/src/identity.ts:59-72 does not trim them, and the model follows it.

## Model

| member | source | states |
|---|---|---|
| `TaskStore.MemoryTaskStore.CreateTask` | packages/adapters-memory/src/memory-assistant-store.ts:1084-1157 | the task is stored exactly once per id, with parent and dependencies checked against the tasks present; every refusal leaves the store as it was |
| `TaskStore.MemoryTaskStore.DeleteByScope` | packages/adapters-memory/src/memory-assistant-store.ts:1195-1213 | the row-by-row loop ends in the store without any row of any task of the scope, or in a refusal that changed nothing |
| `TaskStore.MemoryTaskStore.InterruptTask` | packages/adapters-memory/src/memory-assistant-store.ts:1215-1237 | fence and status first, then the running attempts one by one, each with its own reading of the clock; the lease and its token go only if the clock answered for all of them |
| `TaskStore.MemoryTaskStore.InterruptQueued` | packages/adapters-memory/src/memory-assistant-store.ts:1239-1249 | interrupts exactly the tasks queued up to the instant and counts them |
| `TaskStore.MemoryTaskStore.TransitionTask` | packages/adapters-memory/src/memory-assistant-store.ts:1251-1285 | order of refusals (instant, task, fence, transition) and the patched record |
| `TaskStore.MemoryTaskStore.UpdateProgress` | packages/adapters-memory/src/memory-assistant-store.ts:1469-1483 | fenced write of the progress alone |
| `TaskStore.MemoryTaskStore.MarkDeadLettered` | packages/adapters-memory/src/memory-assistant-store.ts:1610-1632 | the dead-letter transition and its refusals |
| `TaskStore.MemoryTaskStore.CreateAttempt` | packages/adapters-memory/src/memory-assistant-store.ts:1287-1301 | the count is raised before the clock is read, so a clock that throws leaves it raised |
| `TaskStore.MemoryTaskStore.EndAttempt` | packages/adapters-memory/src/memory-assistant-store.ts:1303-1333 | the first terminal status wins; the status is written before the clock is read, the poison count of an abandoned attempt after it |
| `TaskStore.MemoryTaskStore.AcquireLease` | packages/adapters-memory/src/memory-assistant-store.ts:1335-1369 | the new lease with the next fencing token; the old token leaves the index before the expiry is computed |
| `TaskStore.MemoryTaskStore.RenewLease` | packages/adapters-memory/src/memory-assistant-store.ts:1371-1384 | moves the expiry of a current lease, refuses every other token |
| `TaskStore.MemoryTaskStore.ReleaseLease` | packages/adapters-memory/src/memory-assistant-store.ts:1386-1390 | drops the lease the token stands for |
| `TaskStore.MemoryTaskStore.ExpireStaleLeases` | packages/adapters-memory/src/memory-assistant-store.ts:1392-1404 | drops and returns exactly the leases expired at the instant |
| `TaskStore.MemoryTaskStore.AppendEvents` | packages/adapters-memory/src/memory-assistant-store.ts:1406-1445 | a batch is appended whole, or refused whole when a seq does not rise or an id repeats within it or in the log |
| `TaskStore.MemoryTaskStore.NextSeq` | packages/adapters-memory/src/memory-assistant-store.ts:1463-1467 | one past the last seq, 0 for an empty log |
| `TaskStore.MemoryTaskStore.UndoClaim` | packages/adapters-memory/src/memory-assistant-store.ts:1668-1707 | the hand-written rollback of a claim that failed after its first write |
| `TaskStore.MemoryTaskStore.ClaimNext` | packages/adapters-memory/src/memory-assistant-store.ts:1509-1608 | the loop over the ordered candidates does what the walk function says: settle, skip or claim, with the rollback on failure |
| `ClaimProofs.ScheduleIsOrdered` | packages/adapters-memory/src/memory-assistant-store.ts:1512-1533 | the candidates come in the promised order: effective priority descending, enqueued ascending, creation order; each eligible task once |
| `ClaimProofs.FifoIffBonusNotNegative` | packages/host/src/ports/task-aging.ts:59-81 | of any two tasks of equal base priority, in any store at any instant, the claim order prefers the one that arrived first, if and only if the bonus is not negative |
| `ClaimProofs.GateVerdict` | packages/host/src/ports/task-store.ts:199-221 | the dependency gate opens exactly when all completed and dooms exactly when one can never complete |
| `ClaimProofs.ClaimTakesFirstReady` | packages/adapters-memory/src/memory-assistant-store.ts:1509-1608 | the claimed task is the first ready one of the order; all it ended on the way come before it; null if and only if (no settlement fault) nothing eligible is ready, before the call and after it |
| `ClaimProofs.ClaimShrinksQueue` | packages/adapters-memory/src/memory-assistant-store.ts:1545-1607 | each call that changes a task strictly lowers the set of queued tasks |
| `ClaimProofs.FailedClaimRestores` | packages/adapters-memory/src/memory-assistant-store.ts:1570-1605 | a failed claim restores the store entirely, if and only if it did not fail in the lease step of a task with an indexed lease and did not reuse an attempt id; tasks, leases and fencing counter are restored in every case |
| `ClaimProofs.FailedCallRestores` | packages/adapters-memory/src/memory-assistant-store.ts:1509-1608 | the same of a whole call: what survives a failed claimNext is what the walk had ended, and nothing else under that condition |
| `ClaimProofs.SuccessfulClaim` | packages/adapters-memory/src/memory-assistant-store.ts:1570-1601 | a claim succeeds exactly without a fault and with a representable expiry; then one task, one attempt and one lease changed, exactly so |
| `ClaimProofs.WalkMeaning` | packages/adapters-memory/src/memory-assistant-store.ts:1545-1560 | the walk over candidates that it changes while walking, in terms of the store before it: which tasks it ends, and where it stops |
| `ClaimOrder.ClaimedIff` | packages/host/src/ports/task-aging.ts:59-81 | in the fields of the tasks: a claim takes the claimable task whose gap of base priority to any other is made up by what it has earned by waiting beyond the other, each whole interval a bonus up to the cap; ties by age, then creation; and no other task is taken |
| `ClaimOrder.HighestPriorityFirst` | packages/host/src/ports/task-aging.ts:59-81 | with a bonus of 0 that is the highest base priority, of these the longest waiting, of these the first created |
| `ClaimOrder.NullIff` | packages/adapters-memory/src/memory-assistant-store.ts:1545-1608 | without a fault of the host, null exactly if no task is queued, due, of a free scope and a wanted kind, with all dependencies complete |
| `ClaimOrder.FirstDecides` | packages/host/src/ports/task-store.ts:199-221 | the first dependency that can never complete decides: only cancelled gives Cancelled without a reason, anything else Failed naming it |
| `ClaimOrder.ClaimEndsRightly` | packages/adapters-memory/src/memory-assistant-store.ts:1545-1560 | every task a claim ends is ended so at its turn, with the claim's instant as finish time, and nothing else of it changes |
| `TaskRuns.Classify` | packages/adapters-memory/src/memory-assistant-store.ts:1195-1739 | what each operation can do to leases, token index and fencing counter, and nothing else |
| `TaskRecords.CreatedIff` | packages/adapters-memory/src/memory-assistant-store.ts:1084-1157 | exactly which submissions are taken, and the record of one that is; otherwise nothing changes, and which refusal comes first |
| `TaskRecords.MovedIff` | packages/adapters-memory/src/memory-assistant-store.ts:1251-1285 | a transition is made exactly along an edge of the table, from a status asked for, by the holder or without a token; each field is the patch's or as it was |
| `TaskRecords.ReportedIff` | packages/adapters-memory/src/memory-assistant-store.ts:1469-1483 | exactly the holder reports progress, and each report writes its own field only |
| `TaskRecords.InterruptedIff` | packages/adapters-memory/src/memory-assistant-store.ts:1215-1237 | exactly a queued or running task is interrupted; its running attempts are cancelled with the reason, its lease goes, nothing else changes |
| `TaskRecords.InterruptedBefore` | packages/adapters-memory/src/memory-assistant-store.ts:1239-1249 | of all tasks exactly those queued by the instant are interrupted, and that many are counted |
| `TaskRecords.AttemptedIff` | packages/adapters-memory/src/memory-assistant-store.ts:1287-1301 | an attempt starts as the next number of its task, which counts it |
| `TaskRecords.EndedIff` | packages/adapters-memory/src/memory-assistant-store.ts:1303-1333 | exactly a running attempt is ended, with what was given; an abandoned one is charged to its task; one that has ended is answered as it stands |
| `TaskRecords.AppendedIff` | packages/adapters-memory/src/memory-assistant-store.ts:1406-1445 | exactly a batch that rises past the log and repeats no id of it or its own is appended, whole and behind what is there, under a token that holds |
| `TaskRecords.EveryStepCarries` | packages/adapters-memory/src/memory-assistant-store.ts:1084-1740 | whatever any worker calls: statuses move along the edges only, what a claim goes by changes by a transition only, reports by their own call only, identities never |
| `TaskRecords.EveryRecordIsAsCreated` | packages/adapters-memory/src/memory-assistant-store.ts:1084-1157 | after any run every task was created in it, and its kind, scope, parent, dependencies and age are those of its last creation |
| `TaskRecords.FinishedForGood` | packages/host/src/ports/task-store.ts:54-90 | a completed, failed or cancelled task stays so through any run, for as long as it is there |
| `TaskLeases.RenewalLasts` | packages/adapters-memory/src/memory-assistant-store.ts:1371-1384 | after a successful renewal at an instant, its token writes to the log exactly until that instant plus the ttl, through any run of steps that leave that lease alone |
| `TaskLeases.GrantLasts` | packages/adapters-memory/src/memory-assistant-store.ts:1335-1369 | the same of an acquisition and of a claim |
| `TaskLeases.RenewableIff` | packages/adapters-memory/src/memory-assistant-store.ts:1371-1384 | exactly a present token is renewed before its expiry, to an expiry that has an ISO form; the answer is its lease with that expiry |
| `TaskLeases.LeaseEndsIff` | packages/adapters-memory/src/memory-assistant-store.ts:1195-1404 | exactly which calls take a lease away from its holder |
| `TaskLeases.SweepAnswers` | packages/adapters-memory/src/memory-assistant-store.ts:1392-1404 | a sweep answers exactly the leases it takes away, those expired by the instant |
| `TaskHistory.RunKeepsInv` | packages/adapters-memory/src/memory-assistant-store.ts:1041-1740 | the representation invariant and the lease history over every fair run of any number of workers |
| `TaskHistory.FencingTokensRise` | packages/adapters-memory/src/memory-assistant-store.ts:1335-1369 | no two leases ever handed out share a fencing token, through failed claims and their rewinds of the counter |
| `TaskHistory.AttemptsNeverInterleave` | packages/adapters-memory/src/memory-assistant-store.ts:1406-1445 | along every log the tags of acceptance never decrease, so the events of one lease, and of one attempt leased once, stand together |
| `TaskTurns.TogetherIffInTurns` | packages/adapters-memory/src/memory-assistant-store.ts:1406-1445 | over all runs that lease a task to its attempts in a given order, the events of each attempt stand together if and only if no attempt is leased again after another one had its turn |
| `TaskHistory.ListingIsAStretch` | packages/adapters-memory/src/memory-assistant-store.ts:1447-1461 | after any run a listing is one stretch of the log: exactly what is past the cursor, up to the limit |
| `TaskTokens.UnusableIsRefused` | packages/adapters-memory/src/memory-assistant-store.ts:1634-1652 | every fenced operation answers an unusable token with an error, lease lost unless it is refused for its target or instant already, and changes nothing; only a release may act on it, and only on an expired lease not yet swept |
| `TaskTokens.UnusableForever` | packages/adapters-memory/src/memory-assistant-store.ts:1335-1404 | a token refused for replacement, expiry, release, interrupt or deletion is never usable again |
| `TaskTokens.RefusedTokenStaysRefused` | packages/adapters-memory/src/memory-assistant-store.ts:1335-1404 | the same over two runs of any workers, down to the error answered at the end |
| `TaskTokens.IndexStaysComplete` | packages/adapters-memory/src/memory-assistant-store.ts:1335-1369 | leases and leasesByToken stay exact inverses through every operation but an acquisition or a claim that finds a lease to replace while the clock fails or the expiry has no ISO form, and through that never |
| `TaskTokens.FailedReplacementStrandsHolder` | packages/adapters-memory/src/memory-assistant-store.ts:1335-1369 | the exception reached: the holder may still append, and can neither renew nor release |
| `TaskTokens.FailedClaimStrandsHolder` | packages/adapters-memory/src/memory-assistant-store.ts:1570-1605 | the exception reached through a claim: a task leased while queued, claimed while the clock fails in the lease step |
| `TaskTokens.InterruptFreesIff` | packages/adapters-memory/src/memory-assistant-store.ts:1215-1237 | an interrupt drops the lease exactly if the clock answers for every attempt it cancels; else the holder may go on writing |
| `TaskTokens.RenewRefusedIffUnusable` | packages/adapters-memory/src/memory-assistant-store.ts:1371-1384 | with a complete index, a renewal is refused as lost exactly for unusable tokens |
| `TaskWriters.EventStamper.Stamp` | packages/core/src/events.ts:44-57 | each call takes the next seq |
| `TaskWriters.EventStamper.StampBatch` | packages/core/src/events.ts:44-57 | a batch stamped one after the other carries consecutive seqs |
| `TaskWriters.LogsAreDense` | packages/adapters-memory/src/memory-assistant-store.ts:1406-1467 | if every holder stamps from nextSeq read under its lease, each log is numbered exactly 0..n-1 across all takeovers, and no current holder is refused for its numbering |
| `TaskAccounts.NewAttemptAccountsIff` | packages/adapters-memory/src/memory-assistant-store.ts:1287-1301 | a standalone attempt keeps the accounts if and only if its id is unused and the clock answers |
| `TaskAccounts.EndAttemptAccountsIff` | packages/adapters-memory/src/memory-assistant-store.ts:1303-1333 | ending an attempt keeps the accounts if and only if it does not abandon a running one while the clock throws |
| `TaskAccounts.UncountedForGood` | packages/adapters-memory/src/memory-assistant-store.ts:1315-1331 | in that case the attempt stays abandoned and its task is never charged, whatever ends it again |
| `TaskAccounts.StepKeepsAccountsIff` | packages/adapters-memory/src/memory-assistant-store.ts:1287-1333 | each operation keeps the accounts if and only if it is careful: attempt ids not in use, a clock that answers where an attempt is counted, no patch of the count |
| `TaskAccounts.AttemptsAreConserved` | packages/adapters-memory/src/memory-assistant-store.ts:1287-1333 | in every state of a run attempts are numbered exactly 1..attemptCount and poisonCount counts the abandoned ones, if and only if every step of the run is careful |
| `TaskGraph.CreateKeepsAcyclicIff` | packages/adapters-memory/src/memory-assistant-store.ts:1084-1157 | creating a task keeps the graph acyclic if and only if no chain of present tasks leads from its parent and dependencies back to its id |
| `TaskGraph.GraphIsAcyclic` | packages/adapters-memory/src/memory-assistant-store.ts:1084-1157 | no set of tasks links only into itself, in every state of a run, if and only if no creation of the run closes such a chain |
| `TaskGraph.FreshIdsNeverClose` | packages/adapters-memory/src/memory-assistant-store.ts:1195-1213 | a run that never creates an id again closes none |
| `TaskGraph.QueueNeverLocksUp` | packages/adapters-memory/src/memory-assistant-store.ts:1545-1561 | an acyclic queue with nothing running holds a task that is ready or doomed |
| `TaskGraph.RecreationCanLockUp` | packages/adapters-memory/src/memory-assistant-store.ts:1195-1213 | creating a deleted id again can close a chain: two tasks that wait for each other for ever |
| `TaskRows.DeleteIsAllOrNothing` | packages/adapters-memory/src/memory-assistant-store.ts:1195-1213 | refused exactly when a task of the scope is live, and then nothing changed; otherwise no row names a task of the scope and every other row stays |
| `TaskRows.RunKeepsNoOrphans` | packages/adapters-memory/src/memory-assistant-store.ts:1195-1213 | no attempt, lease, token or log names a missing task, in runs that lease existing tasks |
| `TaskRows.UngatedRewindRepeatsToken` | packages/adapters-memory/src/memory-assistant-store.ts:1700-1705 | why a claim must be one unit under the gate: interleaved with another acquisition, its rewind repeats a fencing token |
| `Cascade.RunLeavesNoOrphans` | packages/adapters-memory/src/memory-assistant-store.ts:2180-2223 | over every run of all three stores, nothing anywhere names a task that does not exist, with every fence read off the leases |
| `Cascade.DeleteLeavesNoTrace` | packages/adapters-memory/src/memory-assistant-store.ts:2220-2223 | after any run, a delete leaves no attempt, lease, token, log, continuation or receipt of the scope, and keeps exactly those of the tasks that remain; refused, it changes nothing anywhere |
| `TxGate.MemoryTxGate.RunExclusive` | packages/adapters-memory/src/memory-assistant-store.ts:303-322 | a call through the open unit's own view runs inline, any other waits for the tail of the queue it finds |
| `TxGate.MemoryTxGate.TimerFires` | packages/adapters-memory/src/memory-assistant-store.ts:239-252 | a timeout rejects its caller and leaves its place in the queue |
| `TxGate.MemoryTxGate.TurnComes` | packages/adapters-memory/src/memory-assistant-store.ts:309-314 | the callback of a call whose predecessor has settled: refused if it gave up, else it starts under a new token |
| `TxGate.MemoryTxGate.Leave` | packages/adapters-memory/src/memory-assistant-store.ts:325-335 | the end of a unit, whatever its outcome, clears the token |
| `TxGate.OneUnitAtATime` | packages/adapters-memory/src/memory-assistant-store.ts:309-335 | from each call waiting for one promise alone: at most one unit is open in every run, and there is a token exactly while the unit it was minted for runs |
| `TxGate.ArrivalOrderAndOneAnswer` | packages/adapters-memory/src/memory-assistant-store.ts:303-322 | units start in arrival order; each queued caller is told it ran exactly if its unit ran and settled, and that it timed out exactly if it gave up before its turn, never both |
| `TxGate.ViewsRunInTheirOwnUnit` | packages/adapters-memory/src/memory-assistant-store.ts:303-307 | a call runs inline exactly if the unit its view was made for is the one that runs, so never in a stranger's |
| `TxGate.TheQueueDrains` | packages/adapters-memory/src/memory-assistant-store.ts:309-321 | given up or failing turns neither block nor reorder those behind them: one round per call starts exactly the callers that still wait, in order |
| `TxGate.EveryQuietQueueDrains` | packages/adapters-memory/src/memory-assistant-store.ts:309-321 | so in every run, once nothing is open, however the units that wait end |
| `TxGate.ToldWhatHappened` | packages/adapters-memory/src/memory-assistant-store.ts:309-335 | over every run: a caller is told Ran(b) exactly if its own unit ran and left with b, and has settled |
| `TxGate.TimesOutIff` | packages/adapters-memory/src/memory-assistant-store.ts:239-252 | in every run, the timer tells a waiting caller that it timed out exactly if its call was made with a finite and positive timeout |
| `GatedTasks.PieceKeepsRest` | packages/adapters-memory/src/memory-assistant-store.ts:1509-1608 | what a claim comes to is the same at each of its awaits, through settles, skips, failures and the rollback |
| `GatedTasks.UnitsActOneAfterTheOther` | packages/adapters-memory/src/memory-assistant-store.ts:2230-2266 | however claims, writes and transactions interleave at their awaits behind the gate, the store is the one their operations leave as whole steps, in the order in which the units started |
| `GatedTasks.LeasesApartBehindTheGate` | packages/adapters-memory/src/memory-assistant-store.ts:1484-1507 | so no two present leases share a fencing token there, which a claim interrupted by another acquisition brings about |
| `TxGate.ToldStays` | packages/adapters-memory/src/memory-assistant-store.ts:254-263 | what a caller was told never changes |
| `TxGate.NothingRunsOutsideTheUnit` | packages/adapters-memory/src/memory-assistant-store.ts:325-335 | in every state of a run all inline calls came through the view of the one unit that runs, if and only if every callback awaits the nested calls it made |
| `TxGate.UnawaitedCallStrays` | packages/adapters-memory/src/memory-assistant-store.ts:325-335 | without that a nested call still runs inside a stranger's unit |
| `MessageTree.ActivationSetOf` | packages/host/src/conversation/message-tree.ts:155-179 | the two loops compute ancestors, message and descent |
| `TreeProofs.ActivationSetIsPath` | packages/host/src/conversation/message-tree.ts:155-179 | on a tree, the set is exactly the messages of the one path through the message |
| `TreeProofs.SwitchMarksOnePath` | packages/adapters-memory/src/memory-assistant-store.ts:954-960 | a switch makes exactly one root-to-childless path active, whatever flags stood before |
| `TreeSteps.AppendSwitches` | packages/adapters-memory/src/memory-assistant-store.ts:511-585 | an activating append leaves exactly the path to the new message active |
| `TreeSteps.ChainAppendKeepsTree` | packages/adapters-memory/src/memory-assistant-store.ts:938-944 | a chain append keeps exactly one path active: extended at the live end, else unchanged |
| `TreeSteps.SubtreeIs` | packages/host/src/conversation/archive.ts:5-35 | the subtree walk collects exactly what is below the message, and refuses exactly if the message is active |
| `TreeSteps.ArchiveKeepsTree` | packages/adapters-memory/src/memory-assistant-store.ts:709-717 | archiving an inactive subtree leaves one active path |
| `ChatSteps.SwitchShows` | packages/host/src/conversation/message-tree.ts:155-179 | a switch shows the message, and below each from it on the child shown before, or else the one on the lowest branch, of those the oldest |
| `ChatSteps.SwitchToShown` | packages/adapters-memory/src/memory-assistant-store.ts:954-960 | a switch to a message that is shown already changes nothing |
| `TreePaths.ActivePathIsOneChain` | packages/host/src/conversation/message-tree.ts:58-64 | the filtered and sorted reading is one chain from a root to a childless message: depth counts up, keys rise, nothing live is left out |
| `TreePaths.PagesJoinUp` | packages/adapters-memory/src/memory-assistant-store.ts:631-651 | paging backward by beforeOrderKey with any page size joins up to exactly the active path |
| `TreePaths.PageOfZero` | packages/adapters-memory/src/memory-assistant-store.ts:649-650 | a limit of 0 returns everything |
| `Conversation.MemoryConversationStore.Create` | packages/adapters-memory/src/memory-assistant-store.ts:432-445 | the chat is filed with an empty list, and nothing else changes |
| `Conversation.MemoryConversationStore.Delete` | packages/adapters-memory/src/memory-assistant-store.ts:498-509 | the chat, its list, its key and all its messages go |
| `Conversation.MemoryConversationStore.ApplyActivation` | packages/adapters-memory/src/memory-assistant-store.ts:954-960 | the loop rewrites the flags of the chat's own records only |
| `Conversation.MemoryConversationStore.Append` | packages/adapters-memory/src/memory-assistant-store.ts:511-585 | every refusal before the first write, the record built, the maps and flags after |
| `Conversation.MemoryConversationStore.Activate` | packages/adapters-memory/src/memory-assistant-store.ts:719-727 | the flags after the switch, and the path read off them |
| `Conversation.MemoryConversationStore.SubtreeOf` | packages/host/src/conversation/archive.ts:19-33 | the worklist loop is the subtree walk |
| `Conversation.MemoryConversationStore.Archive` | packages/adapters-memory/src/memory-assistant-store.ts:709-717 | all of the subtree or none of it is archived |
| `TreePaths.ListingIsAStretch` | packages/adapters-memory/src/memory-assistant-store.ts:631-651 | two cursors are refused; else a listing is one stretch of the conversation: exactly the messages between the cursors, of which the page is the last `limit`, or what a limit of 0 or below makes of them |
| `ChatRuns.AppendKeepsTreesIff` | packages/adapters-memory/src/memory-assistant-store.ts:511-585 | a successful append leaves every chat one conversation if and only if no message of its own chat has the id |
| `ChatRuns.ReusedIdShowsTwoRoots` | packages/adapters-memory/src/memory-assistant-store.ts:511-585 | such an id in use: a chat of one message then reads as two roots, one after the other |
| `ChatRuns.AppendKeepsIff` | packages/adapters-memory/src/memory-assistant-store.ts:557-563 | it keeps the id map in step as well if and only if the id is used nowhere |
| `ChatRuns.ReusedIdNamesAnother` | packages/adapters-memory/src/memory-assistant-store.ts:557-563 | else the id names the new message, and the one it named is still in its chat and out of reach |
| `ChatRuns.RecreatedChatBreaksIff` | packages/adapters-memory/src/memory-assistant-store.ts:432-445 | after a chat was created again under its id, some append of a fresh message breaks a chat if and only if a forgotten message is not archived |
| `ChatRuns.CreateChatKeepsIff` | packages/adapters-memory/src/memory-assistant-store.ts:432-445 | creating a chat keeps the id map in step if and only if its id names no chat with messages |
| `ChatRuns.ArchiveRefusedIff` | packages/adapters-memory/src/memory-assistant-store.ts:709-717 | archiving is refused exactly for messages on the active path |
| `ChatRuns.EveryChatReadsAsOne` | packages/adapters-memory/src/memory-assistant-store.ts:511-651 | over every run with fresh ids: each chat is one root-to-leaf conversation, and pages of any size join up to it |
| `ChatRuns.RecreatedChatLosesItsRoot` | packages/adapters-memory/src/memory-assistant-store.ts:432-445 | a chat created again under its id can show a conversation that starts at no root |
| `ChatCalls.AppendedIff` | packages/adapters-memory/src/memory-assistant-store.ts:511-563 | exactly which messages are taken: the writer, the chat, the parent; and which refusal comes first |
| `ChatCalls.AppendIs` | packages/adapters-memory/src/memory-assistant-store.ts:511-585 | a message is written as submitted, under the parent asked for, last in order, on a branch of its own; what was shown then continues with it, or is as before; other messages change in their flag only, other chats not at all |
| `ChatCalls.ActivatedIs` | packages/adapters-memory/src/memory-assistant-store.ts:719-727 | a switch is made exactly to a message that is there and not archived, and the path read is the one a switch shows |
| `ChatCalls.ArchivedIff` | packages/adapters-memory/src/memory-assistant-store.ts:709-717 | an archive is made exactly of a message that is there, not archived and not shown |
| `ChatCalls.ArchivedIs` | packages/host/src/conversation/archive.ts:5-35 | it archives that message and all that hangs from it, and changes nothing else anywhere |
| `ChatCalls.DeletedIs` | packages/adapters-memory/src/memory-assistant-store.ts:498-509 | a delete takes exactly the chat, its messages and their ids |
| `SseParser.ParseSseStream` | packages/client/src/sse.ts:44-131 | the incremental loops yield the frames, and the size failure, of parsing the whole text in one piece |
| `SseParser.TakeLines` | packages/client/src/sse.ts:82-128 | the inner loop takes every complete line and leaves the unfinished one |
| `SseParser.TakeLine` | packages/client/src/sse.ts:87-95 | one line is counted against the limit, then dispatched or read |
| `SseParser.ReadField` | packages/client/src/sse.ts:97-127 | one line is a comment or one field, of whose value exactly one leading space is dropped |
| `SseParser.ChunkedIsOneShot` | packages/client/src/sse.ts:74-131 | for any chunks: the one-shot parse of the text in which each chunk's own breaks count as one LF |
| `SseParser.ChunkingIsInvisible` | packages/client/src/sse.ts:74-131 | two chunkings of one text that split no CR LF pair give the same frames and the same failure |
| `SseParser.LexConcat` | packages/client/src/sse.ts:82-86 | cutting a text in two away from a CR LF pair does not change its lines |
| `SseParser.PastLimitStays` | packages/client/src/sse.ts:129-130 | a line past the limit fails whatever follows, so checking after every chunk is sound |
| `SseParser.SplitPairAddsBlankLine` | packages/client/src/sse.ts:83 | a CR LF split over two chunks reads as one blank line more |
| `SseParser.SplitPairInventsFrame` | packages/client/src/sse.ts:83 | so it dispatches a frame that the text leaves unfinished |
| `SseParser.SplitPairShowsIff` | packages/client/src/sse.ts:83 | from any state of the parser: a split pair changes how some following text is read if and only if something, be it a comment, is pending at the end of its line |
| `SseFrames.FieldReadsBack` | packages/client/src/sse.ts:99-104 | a written field reads back unchanged, leading spaces included |
| `SseFrames.FrameReadsBack` | packages/client/src/sse.ts:63-128 | the lines of any frame the format can carry read back as that frame |
| `SseFrames.WrittenFramesReadBack` | packages/client/src/sse.ts:44-131 | a document of frames and comments, cut off and chunked at will, yields exactly its frames and nothing for the partial one |
| `SseMeaning.OneSaying` | packages/client/src/sse.ts:97-105 | a line that is no comment says exactly one thing of one field: what follows its first colon and one space, or nothing |
| `SseMeaning.BlockIs` | packages/client/src/sse.ts:82-128 | of any lines, not only printed ones: a block dispatches at most one frame, none exactly if all its lines are comments, and that frame has the last id without NUL, the last event, the last whole number as retry, and all data lines joined; or its characters pass the limit, exactly if they are more |
| `SseMeaning.TailIs` | packages/client/src/sse.ts:129-131 | the unfinished end of a text dispatches nothing, and fails exactly if its characters pass the limit |
| `RunStream.Connect` | packages/client/src/stream.ts:246-270 | control frames are taken out; only a clean end after the settlement marker is a normal end |
| `RunStream.TakeFrames` | packages/client/src/stream.ts:155-194 | the loop over one connection: hint, replay check, cursor, budget |
| `RunStream.Iterate` | packages/client/src/stream.ts:135-214 | the whole iteration with its two budgets |
| `RunStream.DrainRun` | packages/client/src/stream.ts:284-296 | one pass without reconnecting or dropping replays |
| `StreamDelivery.NumbersRise` | packages/client/src/stream.ts:183-188 | whatever the server sends, no usable seq is yielded twice or out of order |
| `StreamDelivery.ReconnectsAreBounded` | packages/client/src/stream.ts:208-210 | at most 1 + maxTotalReconnects connections, whatever the server does |
| `StreamDelivery.BarrenStretchesAreBounded` | packages/client/src/stream.ts:192-210 | at most maxRetries + 1 connections in a row without a yield, from any point on |
| `StreamDelivery.DelaysAreBounded` | packages/client/src/stream.ts:217-221 | every delay is the caller's own or within the clamp |
| `StreamDelivery.DeliversTheLog` | packages/client/src/stream.ts:135-214 | over connections that drop, replay or resume anywhere: one contiguous stretch of the log, each event once; on normal return all of it past the cursor |
| `StreamDelivery.StoppedEarly` | packages/client/src/stream.ts:135-214 | a consumer that stops anywhere, also within a connection, has had such a stretch too |
| `StreamDelivery.DrainDelivers` | packages/client/src/stream.ts:284-296 | a drain of a log answers nothing, or all of the log past its cursor, in order |
| `StreamVisits.IterationFollows` | packages/client/src/stream.ts:150-214 | an iteration yields exactly the news among all frames of its connections: unnumbered events and those numbered above all before; each request resumes from the last of the news, each wait is by the last hint held to the clamp |
| `StreamResume.PipeEnds` | packages/client/src/stream.ts:246-270 | exactly how a connection ends: settled, answered, or broken |
| `StreamResume.GivesUpIff` | packages/client/src/stream.ts:201-211 | it gives up exactly if its last connection broke and maxTotalReconnects reconnects were made or the last maxRetries in a row yielded nothing; every connection before broke and left some of both |
| `StreamResume.DeliveredToTheEnd` | packages/client/src/stream.ts:135-214 | a server that breaks less than that and then settles: the iteration returns, with all of the log past its cursor delivered |
| `StreamResume.FewBreaksAreResumed` | packages/client/src/stream.ts:201-211 | so in particular after fewer breaks than either limit, whatever arrived before each |
| `StreamWire.WrittenIsServed` | packages/transport-http/src/sse.ts:232-236 | what the server prints, keepalive comments between, cut off and chunked anywhere, is such a connection |
| `StreamServer.ResolveStreamStart` | packages/transport-http/src/sse.ts:175-199 | the walk over pages finds the seq after the cursor's event, or the beginning, announced if the cursor is not blank |
| `StreamServer.Drain` | packages/transport-http/src/sse.ts:367-383 | page by page, the log from the cursor on, up to the first event that ends a pass or else to its end, and which of the two |
| `StreamServer.WalkOut` | packages/transport-http/src/sse.ts:400-411 | the last read of a run that is over goes on past every such event, until all of the log is written |
| `StreamServer.ScanningServerIsHonest` | packages/transport-http/src/sse.ts:175-199 | a server that scans for the cursor and prints from there, over a log that may grow between, is what the delivery asks for |
| `StreamServer.StoredLogIsLog` | packages/adapters-memory/src/memory-assistant-store.ts:1406-1445 | however writers took over from each other, a stored log is one a client can resume |
| `StreamServer.StoreReachesClient` | packages/client/src/stream.ts:135-214 | from the task store through pages, prints, broken pipes and chunks to the yields: one stretch of the stored log, each event once, to its end on normal return |
| `StreamWire.CutTextParses` | packages/client/src/sse.ts:44-131 | a text cut off anywhere parses to the first of its frames |
| `Receipts.MemoryToolExecutionStore.AdmitExecution` | packages/adapters-memory/src/memory-tool-execution-store.ts:37-77 | refusals in order, then at most one receipt more |
| `Receipts.MemoryToolExecutionStore.CompleteExecution` | packages/adapters-memory/src/memory-tool-execution-store.ts:79-108 | an admitted receipt gets its result; a completed one stays as it is |
| `Receipts.MemoryToolExecutionStore.PruneDeletedRuns` | packages/adapters-memory/src/memory-tool-execution-store.ts:31-35 | drops exactly the receipts of runs that are gone |
| `Receipts.AcceptedIffChained` | packages/adapters-memory/src/memory-tool-execution-store.ts:48-75 | an admission is accepted if and only if ids stay used once and whatever follows an undecided receipt names it |
| `Receipts.RunKeepsChain` | packages/adapters-memory/src/memory-tool-execution-store.ts:31-108 | that holds after any calls |
| `Receipts.DecidedIsFinal` | packages/adapters-memory/src/memory-tool-execution-store.ts:92-106 | a receipt stays until its run is pruned, and a completed result never changes |
| `Receipts.AdmittedOnce` | packages/adapters-memory/src/memory-tool-execution-store.ts:48-56 | no execution id and no approval request is admitted twice, unless the first one's run was pruned in between |
| `Receipts.NextNamesIff` | packages/adapters-memory/src/memory-tool-execution-store.ts:57-70 | an admitted execution that names an undecided receipt directly follows it if and only if the last receipt of the call is undecided |
| `Receipts.NamedAgainIff` | packages/adapters-memory/src/memory-tool-execution-store.ts:57-70 | an undecided receipt that was followed already is named a second time and admitted if and only if the last receipt of the call is decided |
| `Receipts.OnlyTheNextNames` | packages/adapters-memory/src/memory-tool-execution-store.ts:57-70 | so while nothing after it is decided, only the direct successor of an undecided receipt names it |
| `Receipts.NamedTwice` | packages/adapters-memory/src/memory-tool-execution-store.ts:66-70 | four calls that name one undecided receipt twice |
| `ReceiptCalls.AdmittedIff` | packages/adapters-memory/src/memory-tool-execution-store.ts:37-77 | in the fields of the receipts: exactly which admissions are accepted, which refusal comes first, and what is filed |
| `ReceiptCalls.CompletedIff` | packages/adapters-memory/src/memory-tool-execution-store.ts:79-108 | exactly an admitted execution of the run is completed, in that one receipt; a completed one stays, a resolved one is refused |
| `ReceiptCalls.PrunedIff` | packages/adapters-memory/src/memory-tool-execution-store.ts:31-35 | pruning takes exactly the receipts of runs that are gone and keeps the order of the others |
| `Continuations.MemoryProviderContinuationStore.Bind` | packages/adapters-memory/src/memory-provider-continuation-store.ts:55-71 | binds once; the same scope again changes nothing, another is refused |
| `Continuations.MemoryProviderContinuationStore.Store` | packages/adapters-memory/src/memory-provider-continuation-store.ts:77-101 | stores only in the bound scope, under a message of that chat and run |
| `Continuations.MemoryProviderContinuationStore.GetByRun` | packages/adapters-memory/src/memory-provider-continuation-store.ts:162-188 | the record, nothing, or the refusal, with the lazy deletions |
| `Continuations.MemoryProviderContinuationStore.DropChat` | packages/adapters-memory/src/memory-provider-continuation-store.ts:135-139 | the chat's records go, what they required stays required |
| `Continuations.MemoryProviderContinuationStore.Prune` | packages/adapters-memory/src/memory-provider-continuation-store.ts:141-149 | everything of runs that are gone goes |
| `Continuations.RunKeepsBound` | packages/adapters-memory/src/memory-provider-continuation-store.ts:77-101 | every stored record is in the scope its run is bound to, after any calls |
| `Continuations.ScopeIsFinal` | packages/adapters-memory/src/memory-provider-continuation-store.ts:63-69 | a run's bound scope never changes while the run exists |
| `Continuations.NeverReadsAsAbsent` | packages/adapters-memory/src/memory-provider-continuation-store.ts:162-188 | once stored, a continuation reads as the one stored last or as missing, never as nothing, while the run exists; a mismatch only if its message was moved |
| `Continuations.RecreatedRunStartsUnbound` | packages/adapters-memory/src/memory-provider-continuation-store.ts:141-157 | a run id created again after its run was pruned starts with nothing bound |
| `ContinuationCalls.BoundIff` | packages/adapters-memory/src/memory-provider-continuation-store.ts:55-71 | exactly when a run is bound, to what, and nothing else |
| `ContinuationCalls.StoredIff` | packages/adapters-memory/src/memory-provider-continuation-store.ts:77-101 | exactly when a record is stored: lease, run, chat, scope and anchor; and what it leaves |
| `ContinuationCalls.ReadIs` | packages/adapters-memory/src/memory-provider-continuation-store.ts:162-188 | what a reading answers in every case, and what it forgets |
| `ContinuationCalls.DroppedIff` | packages/adapters-memory/src/memory-provider-continuation-store.ts:135-149 | exactly what dropping a chat and pruning take away |
| `Outbox.MemoryOutboxStore.Claim` | packages/adapters-memory/src/memory-assistant-store.ts:2035-2060 | the loop hands out the first records on offer, up to the limit, or throws with the first of them counted |
| `Outbox.MemoryOutboxStore.PruneOld` | packages/adapters-memory/src/memory-assistant-store.ts:2077-2091 | drops exactly the doomed records and their places in the order |
| `OutboxRuns.ClaimEffect` | packages/adapters-memory/src/memory-assistant-store.ts:2038-2058 | per record: hand-outs and attempts match, only records on offer are handed out, each made invisible for the window |
| `OutboxRuns.ClaimThrowsIff` | packages/adapters-memory/src/memory-assistant-store.ts:2048-2056 | a claim throws if and only if it finds a record on offer and the end of the window is no date; that record's attempt is then spent in vain, and nothing else changed |
| `OutboxRuns.HandedOutAtMost` | packages/adapters-memory/src/memory-assistant-store.ts:2043-2048 | the attempts of a record are its hand-outs and the claims that threw on it, together at most maxAttempts |
| `OutboxRuns.NotAfterPublishing` | packages/adapters-memory/src/memory-assistant-store.ts:2042 | nor after it was published |
| `OutboxRuns.HandOutsAreSpaced` | packages/adapters-memory/src/memory-assistant-store.ts:2049-2056 | two hand-outs without a failure marked in between are a visibility window apart |
| `OutboxRuns.PruneIsInvisible` | packages/adapters-memory/src/memory-assistant-store.ts:2077-2091 | every later batch is the one that would have been handed out without the prune, as long as no id it dropped is enqueued again |
| `OutboxRuns.ReusedIdShowsIff` | packages/adapters-memory/src/memory-assistant-store.ts:2014-2033 | calls that enqueue an id again can tell that there was a prune if and only if it is an id the prune dropped |
| `OutboxOffers.ClaimedIff` | packages/adapters-memory/src/memory-assistant-store.ts:2035-2060 | a batch holds exactly the records on offer with fewer than the limit before them on offer |
| `OutboxOffers.OfferedOnceEnqueued` | packages/adapters-memory/src/memory-assistant-store.ts:2014-2033 | a new record is on offer from the instant given, or at once |
| `OutboxOffers.OfferedAfterFailure` | packages/adapters-memory/src/memory-assistant-store.ts:2066-2075 | a failed record keeps why, and is on offer again from the instant named |
| `OutboxOffers.PruneDropsIff` | packages/adapters-memory/src/memory-assistant-store.ts:2077-2091 | exactly which records a prune drops |
| `OutboxOffers.HandedOutAsEnqueued` | packages/adapters-memory/src/memory-assistant-store.ts:2014-2060 | over every run, what is handed out under an id is what was enqueued under it last |
| `ToolIdentity.RoutingSuffix` | packages/mcp-client/src/identity.ts:216-221 | the loop computes the 64-bit FNV-1a hash in sixteen hexadecimal digits |
| `ToolIdentity.ParseOfBuilt` | packages/mcp-client/src/identity.ts:98-150 | a built canonical id parses to its alias and name, dots in the name included |
| `ToolIdentity.CanonicalIsInjective` | packages/mcp-client/src/identity.ts:98-122 | so two tools share a canonical id only if they share server and name |
| `ToolIdentity.ParsesOnlyBuilt` | packages/mcp-client/src/identity.ts:125-150 | whatever parses is such an id |
| `ToolIdentity.RegistryNameExists` | packages/mcp-client/src/identity.ts:82-96 | every canonical id has a legal registry name of at most 64 characters |
| `ToolIdentity.BuildIs` | packages/mcp-client/src/identity.ts:98-122 | a tool gets an identity exactly if its names are in the grammar, so the two later errors are unreachable |
| `ToolIdentity.ParsesIff` | packages/mcp-client/src/identity.ts:125-150 | in characters: an id parses exactly if it is mcp., an alias, a dot and a tool name, and to these |
| `ToolIdentity.RegistryNameIs` | packages/mcp-client/src/identity.ts:82-96 | the registry name is the id with __ for each dot, cut to its first 47 characters, _ and 16 more exactly if that is longer than 64 |
| `ToolProjection.BuildIndex` | packages/mcp-client/src/identity.ts:169-184 | the loop over two maps builds the identities in order or stops at the first failure |
| `ToolProjection.IndexIs` | packages/mcp-client/src/identity.ts:169-184 | a batch succeeds exactly if all build and none share a canonical id or a registry name; it is aligned with its inputs |
| `ToolProjection.ProjectionIsPositional` | packages/mcp-client/src/projection.ts:55-112 | each listed tool gets its own descriptor; the missing-identity error is unreachable |
| `ToolProjection.BuildReverseToolAliases` | packages/mcp-client/src/projection.ts:164-180 | the map back, or the refusal of two tools with one alias |
| `ToolProjection.ResolvesIff` | packages/mcp-client/src/session.ts:337-344 | a contributed name resolves to its tool, if and only if no unlisted tool is renamed to the name an unrenamed tool keeps |
| `ToolProjection.ResolvesListed` | packages/mcp-client/src/session.ts:337-344 | so it always does when every renamed tool is listed |
| `Secrets.SecretMaterial.SubstituteIn` | packages/mcp-client/src/secrets.ts:75-81 | the loop over placeholders computes the substitution that `SubstitutionFills` is about |
| `Secrets.SecretMaterial.RedactIn` | packages/mcp-client/src/secrets.ts:82-86 | the loop over values, longest first |
| `Secrets.RedactionIsTotal` | packages/mcp-client/src/secrets.ts:82-86 | whatever the text and the other values, a value without a star at either end or three in a row is left nowhere in the output |
| `Secrets.RedactedAlwaysIff` | packages/mcp-client/src/secrets.ts:82-86 | and only such a value: any other one is left in the output of some text and map |
| `Secrets.StarFreeIsRedacted` | packages/mcp-client/src/secrets.ts:82-86 | so in particular every value without a star is gone |
| `Secrets.NoSuffixLeft` | packages/mcp-client/src/secrets.ts:68-72 | a value on its own becomes exactly the stars, if and only if no value of one or two stars has its turn after it |
| `Secrets.ShortestFirstLeaks` | packages/mcp-client/src/secrets.ts:68-72 | the other order would leave the end of a longer value |
| `Secrets.LeaksIff` | packages/mcp-client/src/secrets.ts:82-86 | of one value: some text brings it about again from the stars if and only if it starts or ends with a star or holds three in a row |
| `SecretTemplates.SubstitutionFills` | packages/mcp-client/src/secrets.ts:75-81 | one placeholder after the other, and yet every hole of a template gets exactly its own value, if no value holds or ends in a start of a placeholder replaced after it |
| `SecretTemplates.SubstitutionFillsIff` | packages/mcp-client/src/secrets.ts:75-81 | every template is filled so in every round if and only if the map is such; a placeholder that stands for itself may be opened |
| `SecretTemplates.NoPlaceholderLeft` | packages/mcp-client/src/secrets.ts:75-81 | then a known placeholder is left in no template if and only if no value at all holds it or ends in a start of it |
| `SecretTemplates.ValueIsReadAgain` | packages/mcp-client/src/secrets.ts:75-81 | a value that holds a later placeholder is itself substituted |
| `ConnectionLife.MemoryConnectionStore.Put` | packages/adapters-memory/src/memory-connection-store.ts:12-19 | compare and swap on the revision |
| `ConnectionLife.MoveKeeps` | packages/mcp-client/src/connections.ts:147-283 | at every await of every lifecycle call, each live session is tied to the record as stored |
| `ConnectionLife.DroppedBeforeChanged` | packages/mcp-client/src/connections.ts:208-209 | no record is exchanged or removed while its session is live |
| `ConnectionLife.DroppedIsGone` | packages/mcp-client/src/connections.ts:619-654 | a session that was live and after a step is not, whatever dropped it, is carried by no pending work: it is gone |
| `ConnectionLife.GoneForever` | packages/mcp-client/src/connections.ts:619-654 | and so it is never live again |
| `ConnectionOutcomes.SaveLeavesRecord` | packages/mcp-client/src/connections.ts:152-212 | an undisturbed save leaves the record stored at its next revision; an enabled one is connected with a new session |
| `ConnectionOutcomes.ConnectLeavesSession` | packages/mcp-client/src/connections.ts:214-219 | an undisturbed connect of an enabled record leaves it connected with a live session tied to it |
| `ConnectionOutcomes.ReconnectLeavesNewSession` | packages/mcp-client/src/connections.ts:221-227 | a reconnect always leaves a new one |
| `ConnectionOutcomes.DisconnectLeavesRecord` | packages/mcp-client/src/connections.ts:234-242 | a disconnect leaves the record, disconnected, and no session |
| `ConnectionOutcomes.RemoveLeavesNothing` | packages/mcp-client/src/connections.ts:244-262 | a remove leaves neither the record nor its session, and all others as they were |
| `ConnectionReconcile.ReconcileLeaves` | packages/mcp-client/src/connections.ts:264-283 | an undisturbed reconcile ends every session without a record, of a disabled one or made for another one, and leaves every record that is enabled and not disconnected with a session made for it; no other record is touched |
| `ConnectionOutcomes.DisposeLeavesNoSession` | packages/mcp-client/src/connections.ts:570-583 | a dispose leaves no session, and every record |
| `ConnectionCalls.DispatchIsPinned` | packages/mcp-client/src/connections.ts:515-524 | at the instant of dispatch the live session is the one contributed, and the stored record has the revision, account and workspace granted, under any interleaving |
| `ConnectionCalls.DispatchIsRecordedOnce` | packages/mcp-client/src/connections.ts:471-524 | a pending receipt precedes every dispatch, a write was approved on exactly those arguments, and no operation is sent twice |
| `ConnectionCalls.DroppedRunIsCutOff` | packages/mcp-client/src/connections.ts:519-523 | a run whose contributed session is not live never reaches the server again, even if the connection is created anew at the same revision |
| `ConnectionCalls.CutOffFromTheDrop` | packages/mcp-client/src/connections.ts:519-523 | so from the very step that drops the session |
| `ConnectionProgress.UndisturbedCallIs` | packages/mcp-client/src/connections.ts:424-560 | an undisturbed call with the outside answering reaches the server: the log grows by exactly the approval (for a write), the pending receipt, the dispatch and the closing, if and only if record, session, tool, input, arguments and effect are as granted |
| `ConnectionProgress.ContributedIff` | packages/mcp-client/src/connections.ts:342-421 | a run gets the tools of a connection exactly if it is as granted |
| `ConnectionCalls.NeverChangedBehindASession` | packages/mcp-client/src/connections.ts:152-283 | over every run, the stored record changes only after its session was dropped |

## Left out

- The SQLite adapters, the REST routes, the native binding, the transports and OAuth: not part of this model.
- Copies and aliasing of what callers hand in or get back: values here are snapshots already.
- Forking and importing chats, message search and snippets, titles and other bookkeeping of chats, `updateMessage`, `lastMessageOfRun`, `listSiblings`.
- Stores of settings, providers, proposals, summaries, templates and agent inputs: they would only add easy members.
- Decoding bytes to text, and abort signals: text arrives decoded, and an abort is one more way a call can fail.
- Characters are Unicode scalar values, so lengths differ from UTF-16 lengths outside the basic plane: this touches the frame size limit and the cut of long registry names.
- `retry:` values are exact; the source's numbers round above 2^53.
- Seqs of received events are integers or unusable; fractional ones are not modelled.
- Results of `JSON.parse` and `JSON.stringify` are inputs: what a text decodes to, whether a value is a tool result.
- `findByAnchors` of the continuation store: it reads each match as `GetByRun` does.
- When the server closes a stream (task status, polling) and its second sort of a page that comes sorted: a reply is what had been written of the log when its connection ended.
- Tie-breaking between equal map orders: where the source iterates a map and the order cannot be seen, the model does not fix it.
- GatedTasks.UnitsActOneAfterTheOther: the operations of one transaction follow one another; a view kept past its transaction writes to the task store without the gate, and `TaskRows.UngatedRewindRepeatsToken` shows what such a write can do to a claim.
- ConnectionCalls.DispatchIsPinned: assumes that this service is the store's only writer, as the source asks of its callers; reading remote resources and prompts is not modelled.
- RunStream.Iterate: what one connection's parser yields is taken as a list; of a consumer that stops within a connection the model has what it received (`StreamDelivery.StoppedEarly`), not what it left unread.
