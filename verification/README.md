# Eventide: what its event log guarantees

Eventide runs agents over an append-only log of facts. Budgets, run scheduling, conversation history, saved
preferences and cost estimates are all decided the same way: fold the log, decide, append. This project models
those decisions in Dafny and proves what they keep over whole runs, and with them a few self-contained algorithms
of the same program: streaming redaction, excerpt fitting, JSON pointer differences, price partition.

`RuntimeStore.transact_facts` is taken as one atomic step: read the facts in commit order, decide, append. Times
are inputs (microseconds since the epoch), identities handed out are fresh, digests are injective.

| file | part of the program |
|---|---|
| `Common.dfy` | options, results, small facts about sequences |
| `Budgets.dfy`, `Ownership.dfy`, `Ledger.dfy`, `Charges.dfy`, `BudgetRuns.dfy` | the token budget: fold, owners, the ledger's operations, what each of them charges, whole runs |
| `Scheduling.dfy`, `SchedulerSafety.dfy`, `ExecutionKeys.dfy`, `Dispatch.dfy`, `RunState.dfy` | the run queue, the scheduler's invariant, the keys of what a Run has to itself, the dispatcher, the status of one Run |
| `Redaction.dfy` | redaction of a secret from text that arrives in chunks |
| `Conversation.dfy`, `ToolPairing.dfy`, `Compaction.dfy`, `SummaryClaims.dfy` | message history, recovery, tool pairing, folding, summary claims |
| `FailureLoop.dfy` | the window of repeated failures |
| `Preferences.dfy`, `PreferenceLog.dfy`, `PreferenceInjection.dfy` | saved preferences, their log, what a Run may inject |
| `Feedback.dfy`, `Differences.dfy`, `Prices.dfy` | excerpt fitting, configuration differences, price partition |

Facts about the code that the proofs brought out:

- Streaming redaction equals batch redaction exactly for secrets without a border (`Redaction.StreamingExact`);
  `aba` in `ababa` is a counterexample. This holds of every secret, even of one such as `[REDACTED][REDACTED]`, for
  which the two outputs coincide by accident on the texts that tell them apart for other secrets.
- A settlement may exceed its reservation, so a bucket is bounded by its limit plus the excess of the attempts in
  it (`BudgetRuns.RaisedLimitSafety`). With limits that were lowered, the bound is the limit under which the latest
  reservation was admitted (`BudgetRuns.BudgetSafety`).
- Recovery closes every history whose tool calls come from model responses. An imported assistant message with a
  call is out of its sight, and such a history stays incomplete (`Conversation.ImportedCallStaysOpen`).
- A message that arrives while calls are open puts their results further down (`ToolPairing.NoisyLogIsUnpaired`).
  A projection is paired exactly when that never happens (`ToolPairing.PairedIffQuiet`).
- A real member `{"missing": true}` is taken for an absent one (`Differences.RealSentinelIsLost`), so an empty result
  means that the trees are equal once such members are dropped, no less and no more
  (`Differences.EmptyIffCleanEqual`).
- The early stop of the chain walk can lose a failure window (`FailureLoop.UnanchoredRunDiffers`): exactly when,
  among the last three outcomes it has read, one has no checkpoint of its own while all three could still be one
  repeated failure (`FailureLoop.EarlierHistoryIsIrrelevant`, which calls such a log fragile). The host logs a
  checkpoint with each admission (eventide/host.py:1994-1996, 2173-2174), so only Runs created without an
  admission can be without one of their own.
- The status of a Run is told twice, by its own projection and by the queue. As pure projections of any log they
  agree all along exactly when, before the Run's end, it is not admitted again after its start and no approval
  comes between its admission and its start (`RunState.StatusAgreesIff`). The store never holds the first kind of
  log, as `admit_run` (eventide/store.py:575-593) inserts each Run id once. The program does write the second kind:
  a Run that continues a session is admitted in one commit with an `approval.resolved` for every approval left open
  there (eventide/host.py:1977-1979, 2164-2166), and a host that stops while a Run waits for the user leaves one
  open. The continued Run then shows itself as running while the queue still holds it
  (`RunState.StoppedThenContinued`), until it starts (`RunState.StartAgrees`) or ends. Over everything the program
  does, the two agree exactly when this never happens and nothing else asks for an approval under a Run that has
  not started (`RunState.ProgramAgreesIff`).

## Model

| member | source | states |
|---|---|---|
| `Budgets.Project` | eventide/budgets.py:134-178 | the projection loop gives the book that the log folds into, or the first error met; a folded book has distinct attempts, each reserved under its own identity |
| `Budgets.ReadBucket` | eventide/budgets.py:201-220 | committed tokens, summed attempt by attempt as held plus known, equal the sum of the charges of the scope's attempts; remaining, warning and blocked follow from it |
| `Budgets.SumSplit` | eventide/budgets.py:185-198 | every charge splits into the part within the attempt's reservation and the overshoot, for any family of attempts |
| `Ownership.ReadParents` | eventide/budgets.py:352-359 | the parent map read from the run facts, or the conflict that stops it |
| `Ownership.ParentsExact` | eventide/budgets.py:352-359 | the map holds for each Run exactly the one parent its facts state |
| `Ownership.FindRoot` | eventide/budgets.py:360-368 | the ledger's ancestor walk ends at a root, a cycle or an unknown Run |
| `Ownership.WalkFindsRoot` | eventide/budgets.py:360-368 | the walk answers a root if and only if a chain of known parents leads to it |
| `Ownership.ResolveContext` | eventide/model_budget.py:42-103 | the controller's walk terminates and gives the session and budget context, or the error of the ancestor that stops it |
| `Ownership.ClimbFollowsParents` | eventide/model_budget.py:58-83 | each round of the controller follows exactly the link in the ledger's parent map |
| `Ownership.ControllerRootIsLedgerRoot` | eventide/model_budget.py:51-103 | the root the controller resolves is the root the ledger's own walk demands |
| `Ownership.ClimbStates` | eventide/model_budget.py:51-103 | the resolved context names the one delivery that the root's own facts state, if they do, and the project of the workspaces that the Runs on the way work in |
| `Ledger.ControllerContextAccepted` | eventide/budgets.py:340-376 | a context resolved by the controller passes the ledger's checks if and only if no Run of the log names two parents and its family keeps one owner |
| `Ledger.BudgetLedger.Configure` | eventide/budgets.py:242-265 | appends one configuration, replays or refuses; the bucket answered from memory is the bucket of the folded log |
| `Ledger.BudgetLedger.Reserve` | eventide/budgets.py:267-338 | every outcome of a reservation, the store's refusal of a started attempt of a Run that is over included, its exact additions, and a receipt equal to the one from folding the log again |
| `Ledger.BudgetLedger.CheckContext` | eventide/budgets.py:340-376 | the owner checks in their order: session, probe, parents, root, one context per Run family |
| `Ledger.BudgetLedger.FindViolations` | eventide/budgets.py:316-326 | exactly the buckets that the request would take past their limit, or that are blocked |
| `Ledger.BudgetLedger.Settle` | eventide/budgets.py:378-430 | every outcome of a settlement, the store's refusal of one that names a Run that is over included, its exact additions, and a receipt equal to the one from folding the log again |
| `Ledger.BudgetLedger.ResolveUnknown` | eventide/budgets.py:440-465 | every outcome of a manual resolution, its exact addition, and a receipt equal to the refolded one |
| `Ledger.MemoryIsRefold` | eventide/budgets.py:327-333 | a receipt read from the state changed in memory equals the one read after folding the appended fact |
| `Charges.SettlementCharges` | eventide/budgets.py:378-430 | an accepted settlement whose report has every total of the basis settles the attempt at the input, and for an input and output basis the output, counter; any other leaves it open at its reservation or at the reported counters, whichever is more; each bucket that the attempt is charged to changes by the difference, and nothing else changes |
| `Charges.SettledIff` | eventide/budgets.py:398-427 | what is no replay is settled if and only if the call is well formed, agrees with its reservation, may be written, and the attempt is neither resolved nor settled with a known total |
| `Charges.ResolutionCharges` | eventide/budgets.py:440-465 | a manual resolution charges what it states in place of what was held, in exactly the attempt's buckets |
| `Charges.ResolvedIff` | eventide/budgets.py:452-464 | what is no replay is accepted if and only if the attempt is the session's own and its usage unknown, and the request was not used before |
| `Charges.ReservationCharges` | eventide/budgets.py:267-338 | an admitted reservation holds the sum of both estimates in exactly the buckets of its root, its Run, its delivery, its project and the UTC day of its time, and in no other |
| `Charges.AdmittedIffRoom` | eventide/budgets.py:316-326 | between admitted and over budget, a request is admitted if and only if each of those buckets has a rest and room for the estimate |
| `Charges.ReservedIff` | eventide/budgets.py:300-334 | a new attempt is reserved if and only if the call is well formed, its owner is valid, every charged bucket has room, and its start may be written |
| `Charges.ReplayIsSameRequest` | eventide/budgets.py:303-314 | a replayed reservation is for the same Run, owner, estimates and basis, and for the same time where one is given |
| `Charges.ConfigurationLimits` | eventide/budgets.py:242-265 | a configuration sets the limit of its scope, leaves the other limits, and charges nothing |
| `Charges.BucketReads` | eventide/budgets.py:212-220 | a bucket is blocked when nothing remains and warns when at most a fifth does; what is committed is actual plus held |
| `Charges.ReceiptReads` | eventide/budgets.py:223-233 | a receipt lists the bucket of each charged scope in order, and warns of exactly those that warn |
| `BudgetRuns.LedgerLogsFold` | eventide/budgets.py:134-178 | no log built by the ledger, whatever else is written meanwhile, makes the projection raise |
| `BudgetRuns.ItemNeverGrows` | eventide/budgets.py:185-198 | within its reservation an attempt's charge never grows when its usage becomes known |
| `BudgetRuns.ViolationsComplete` | eventide/budgets.py:316-326 | an empty list of violations means that the request fits every scope it is charged to |
| `BudgetRuns.BudgetSafety` | eventide/budgets.py:300-334 | over every run: charges within reservations stay within the limit in force at the scope's latest reservation, and the committed total within that plus the excess |
| `BudgetRuns.RaisedLimitSafety` | eventide/budgets.py:300-334 | over every run: with a limit set before the first reservation and only raised since, the scope stays within its current limit plus the excess |
| `BudgetRuns.ReplayedIffRecorded` | eventide/budgets.py:303-314 | a call is answered as a replay if and only if it is well formed and the book already holds what it asks for |
| `BudgetRuns.ReplayIsSilent` | eventide/budgets.py:398-427 | repeating any accepted call after any later history appends nothing and leaves the store as it was |
| `BudgetRuns.LedgerOwnership` | eventide/budgets.py:340-376 | over every run all reservations of one root family share one context, and each is charged to the scopes of its own context |
| `BudgetRuns.ProjectConservation` | eventide/budgets.py:73-82 | over every run a project's bucket is the sum of its root families, for every figure |
| `BudgetRuns.DayConservation` | eventide/budgets.py:73-82 | over every run the day buckets together are all reservations: each lies in exactly one UTC day |
| `Scheduling.ProjectQueue` | eventide/scheduler.py:50-88 | the queue projection: one entry per admitted root in commit order with its status, or the conflict met |
| `Scheduling.EntriesExact` | eventide/scheduler.py:78-88 | entries are exactly the admitted roots, each with its own admission and status |
| `Scheduling.QueueCount` | eventide/scheduler.py:129-137 | counting entries one by one counts each unowned root of a status once |
| `Scheduling.EntriesInCommitOrder` | eventide/scheduler.py:78-88 | of two entries the earlier one was admitted by a part of the log that does not yet admit the other |
| `Scheduling.LaneIff` | eventide/scheduler.py:143-169 | an admission gets the active lane if and only if it is free, may start and an active place is left, and the waiting lane if and only if it is free, does not get the active one, and the queue has a place |
| `Scheduling.CommitsIff` | eventide/scheduler.py:171-180 | a ticket commits if and only if it is owned and the queue shows its Run as queued in its session |
| `SchedulerSafety.CountedOnce` | eventide/scheduler.py:129-141 | the two counts are the sizes of two disjoint sets of Runs: no Run is counted twice |
| `SchedulerSafety.ExecKeeps` | eventide/scheduler.py:143-225 | every step of the scheduler or the store keeps the invariant |
| `SchedulerSafety.SchedulerSafe` | eventide/scheduler.py:143-225 | in every reachable state tickets and leases are disjoint, both counts are within their limits, and each session has at most one Run that is ticketed, leased or unfinished |
| `Dispatch.RuntimeScheduler.Counts` | eventide/scheduler.py:129-141 | active and waiting roots as the cardinalities that the invariant bounds |
| `Dispatch.RuntimeScheduler.ReserveAdmission` | eventide/scheduler.py:143-169 | every refusal, and otherwise a fresh ticket in the lane that the counts allow |
| `Dispatch.RuntimeScheduler.CommitAdmission` | eventide/scheduler.py:171-182 | only the owned ticket of a durable unstarted root is committed; an active one becomes a fresh lease, a waiting one leaves the Run queued |
| `Dispatch.RuntimeScheduler.ReleaseTicket` | eventide/scheduler.py:184-191 | a foreign ticket changes nothing, a durable unfinished Run keeps its ticket |
| `Dispatch.RuntimeScheduler.ClaimNext` | eventide/scheduler.py:193-216 | below capacity the earliest entry that is offered and accepted is claimed; otherwise nothing changes and no entry could have been |
| `Dispatch.RuntimeScheduler.ReleaseRoot` | eventide/scheduler.py:218-225 | only the owned lease of a Run with a terminal fact is released |
| `Dispatch.BusyByEntries` | eventide/scheduler.py:156-162 | the session test over owners and entries is the one over the folded queue |
| `Dispatch.RunningSessions` | eventide/scheduler.py:203-207 | the sessions a claim avoids are those of running roots, leases and tickets |
| `Dispatch.ClaimIsStep` | eventide/scheduler.py:208-215 | every claim is a step of the scheduler's transition system, uses a free key and fills one place |
| `Dispatch.OfferedExact` | eventide/scheduler.py:203-211 | an entry is offered if and only if it is queued without an owner and no running entry, lease or ticket is of its session |
| `Dispatch.ClaimableIffAvailable` | eventide/run_dispatch.py:61-69 | the callback accepts an entry if and only if its Run waits and its session and its workspace, copy or delivery are free |
| `ExecutionKeys.SharedResourceSharesKey` | eventide/host.py:1170-1185 | two Runs that need one workspace, copy or delivery have one execution key, however they are bound to it |
| `ExecutionKeys.SharedKeySharesResource` | eventide/host.py:1170-1185 | one execution key means one workspace, copy or delivery or one Run, for all bindings, where no workspace has a name with a colon |
| `Dispatch.ClaimsExclusive` | eventide/run_dispatch.py:61-69 | in every state of the dispatcher two claims that are held at once are for different workspaces, copies or deliveries |
| `Dispatch.RunDispatch.Admitted` | eventide/run_dispatch.py:30-37 | a granted lease is kept; a Run left in the queue holds no execution claim |
| `Dispatch.RunDispatch.Start` | eventide/run_dispatch.py:39-59 | the future of a Run with a lease is resolved at once, any other only by a dispatch |
| `Dispatch.RunDispatch.Claim` | eventide/run_dispatch.py:61-69 | accepts exactly when the future is pending, the session is not locked, and the workspace, copy or delivery of the entry is neither held nor locked; the Run then holds it |
| `Dispatch.RunDispatch.Dispatch` | eventide/run_dispatch.py:71-76 | terminates; each future is resolved at most once and only for a Run that has just got its lease; an open host ends at capacity or with every offered entry refused |
| `Dispatch.RunDispatch.Finished` | eventide/run_dispatch.py:78-86 | gives the lease up only after a terminal fact, forgets the future and dispatches again |
| `Dispatch.RunDispatch.ReserveWorkspace` | eventide/host.py:1921-1938 | the host's own reservation takes a workspace exactly when nobody has reserved or locked it, and keeps every claim exclusive |
| `Dispatch.RunDispatch.RecordKey` | eventide/host.py:2119-2145 | recording a key that is new or the Run's own keeps every claim exclusive |
| `Dispatch.RunDispatch.ReleaseExecutionClaims` | eventide/host.py:1556-1559 | removes every key of the Run and keeps the claims of the others |
| `RunState.ProjectStatus` | eventide/projections.py:57-121 | the status loop: approvals and starts count until the first terminal fact, which fixes the status |
| `RunState.StatusIff` | eventide/projections.py:87-121 | a Run is over if and only if it has ended; until then it waits for the user if and only if its last event asks for an approval, and is queued if and only if its last event admits it |
| `RunState.EndsAgree` | eventide/projections.py:116-120 | in every log the Run's own projection and the queue take the same first terminal fact |
| `RunState.StatusAgreesIff` | eventide/projections.py:87-115 | on every prefix of a log the Run's own status is the queue's, waiting for the user only while it runs, if and only if before its end no admission follows a start and no approval comes between admission and start |
| `RunState.ReadmittedDisagrees` | eventide/projections.py:87-90 | the two pure projections differ on a log that admits a started Run again |
| `RunState.EarlyApprovalDisagrees` | eventide/projections.py:108-115 | an approval appended while the Run is still queued always makes them differ |
| `RunState.StartAgrees` | eventide/projections.py:89-90 | after the Run's start the two agree again, whatever was before |
| `RunState.ProgramAgreesIff` | eventide/projections.py:87-115 | over every sequence of scheduler steps, approvals and continued admissions, the two agree all along if and only if they did at first, no approval is written under the Run while it is queued, and it is not continued while one is open in its session |
| `RunState.ContinueShows` | eventide/host.py:1977-1997 | a Run just admitted as a continuation is queued, and its own status is running if and only if an approval was open in its session |
| `RunState.StoppedThenContinued` | eventide/host.py:2512-2560 | a Run asks for an approval, the host stops and interrupts it, and the Run that continues the session shows itself as running while it is queued |
| `Redaction.NormalizeText` | eventide/normalization.py:49-54 | the string case replaces the secrets one after another |
| `Redaction.ReplaceFirst` | eventide/normalization.py:49-54 | redacted text is the text up to the first occurrence, `[REDACTED]`, and what follows redacted alike |
| `Redaction.NoSecretsLeft` | eventide/normalization.py:49-54 | after all replacements no secret that shares no character with the mask is in the text, also none that an earlier replacement took out |
| `Redaction.SafeTextBuffer.Feed` | eventide/previews.py:21-34 | releases the cleaned text up to the cut moved out of every straddling secret, and keeps the rest |
| `Redaction.PendingIsBounded` | eventide/previews.py:21-34 | after a feed that is not final at most twice the secret's length less two characters are pending |
| `Redaction.CutIsClear` | eventide/previews.py:26-32 | for a secret without a border no cut falls inside an occurrence, whatever text follows |
| `Redaction.CutsAvoidOccurrences` | eventide/previews.py:26-32 | for every chunking no cut falls inside an occurrence of the secret in the whole text |
| `Redaction.ReplaceSplits` | eventide/normalization.py:49-54 | replacing two parts separately equals replacing the whole when the border between them is clear |
| `Redaction.StreamingEqualsBatch` | eventide/previews.py:12-34 | for every chunking the outputs together with the final flush are the batch redaction |
| `Redaction.SplitSafety` | eventide/previews.py:26-32 | every cut of every stream is clear if and only if the secret has no border |
| `Redaction.StreamingExact` | eventide/previews.py:12-34 | for every secret, streaming equals batch redaction for every chunking if and only if the secret has no border |
| `Redaction.AbaStreamsDifferently` | eventide/previews.py:12-34 | the counterexample of the secret `aba` in `ababa` |
| `Redaction.PreviewStream` | eventide/host.py:1062-1072 | what a client is shown of a stream of deltas, which is never flushed |
| `Redaction.PreviewIsPrefix` | eventide/host.py:1062-1072 | whatever is still to come, a preview is a prefix of the batch redaction |
| `Conversation.ProjectMessages` | eventide/projections.py:11-54 | the message projection loop, with the error for an incomplete history |
| `Conversation.SaidInPlace` | eventide/projections.py:18-31 | each message and response of the log comes right after all that was projected before it, and stays there |
| `Conversation.MessagesComeFromLog` | eventide/projections.py:18-54 | every projected message is stated by the log or consists of results of its tools, each with its own call, error flag and stored or previewed content |
| `Conversation.ReadRecovery` | eventide/host.py:2659-2681 | the recovery loop over open calls and approvals, with the order a dictionary keeps |
| `Conversation.OpenCallIff` | eventide/host.py:2665-2676 | recovery finds a call if and only if no outcome follows a response that makes it |
| `Conversation.OpenApprovalIff` | eventide/host.py:2677-2681 | recovery finds an approval if and only if no resolution follows a request for it |
| `Conversation.PendingIsOpen` | eventide/host.py:2665-2673 | every call the projection waits for, recovery has seen, also when ids are used again |
| `Conversation.AbandonAll` | eventide/projections.py:32-51 | appending the abandon facts gives each pending call exactly one result and passes over the others |
| `Conversation.RecoverySucceedsIff` | eventide/host.py:2682-2701 | recovery makes the projection succeed if and only if it has seen every pending call |
| `Conversation.RecoveryClosesHistory` | eventide/host.py:2659-2701 | for every log with calls from model responses the projection succeeds after recovery, with exactly one closing message when calls were open |
| `Conversation.ImportedCallStaysOpen` | eventide/host.py:2668-2671 | an imported message with a call, whatever it is, leaves the history incomplete |
| `Conversation.RecoveryIsFinal` | eventide/host.py:2659-2701 | nothing is open after recovery, so a second recovery adds nothing |
| `ToolPairing.ProjectionIsPaired` | eventide/projections.py:18-54 | on quiet logs each assistant message with calls is immediately followed by one user message with exactly one result per call |
| `ToolPairing.PairedIffQuiet` | eventide/projections.py:18-54 | for every log of tool results whose projection succeeds, it is paired if and only if no message arrives while calls are open |
| `ToolPairing.NoOtherResults` | eventide/projections.py:18-54 | on quiet logs there are no results but those that answer the message right before them |
| `ToolPairing.RecoveredHistoryIsPaired` | eventide/host.py:2659-2701 | a quiet history cut off while calls were open is paired once recovery has closed it |
| `ToolPairing.NoisyLogIsUnpaired` | eventide/projections.py:25-31 | a message between a call and its result breaks the pairing |
| `Compaction.ElideTaskPlanUpdates` | eventide/context_builder.py:111-145 | the elision loop, its count of plan updates and of omitted characters, and the unchanged list when there are none |
| `Compaction.ElideKeepsPairing` | eventide/context_builder.py:111-145 | elision keeps every message, role, block and id, and the pairing |
| `Compaction.ElideOnlyPlans` | eventide/context_builder.py:125-141 | exactly the assistant's plan updates that still list something change, to an empty plan, and eliding again changes nothing |
| `Compaction.ElisionReport` | eventide/context_builder.py:111-145 | the reported updates and characters are those by which the elided messages differ from the original ones |
| `Compaction.FoldToolResults` | eventide/context_builder.py:168-213 | folds the shortest run of foldable results in document order that fits the budget, or all of them, and reports exactly those |
| `Compaction.SpotsExact` | eventide/context_builder.py:186-201 | the candidates are all foldable results of the groups, in document order |
| `Compaction.NewestAreProtected` | eventide/context_builder.py:185-186 | of the messages with tool results all but the newest three may be folded, and those three may not |
| `Compaction.RecentResultsVerbatim` | eventide/context_builder.py:185-192 | messages outside the older groups stay verbatim |
| `Compaction.FoldOnlyShortens` | eventide/context_builder.py:193-206 | only text results change, each to a strictly shorter text |
| `Compaction.FoldKeepsPairing` | eventide/context_builder.py:168-213 | folding keeps every message, role, block and id, and the pairing |
| `Compaction.OmittedIsExact` | eventide/context_builder.py:206-213 | the reported characters are exactly the length that folding removed |
| `Compaction.FoldReport` | eventide/context_builder.py:205-213 | one reported call for each fold, in document order, and the exact removed length |
| `SummaryClaims.ReadLength` | eventide/context_builder.py:33-37 | the serialized length of a part of a session, read as a summary reads it, or the error of an open call |
| `SummaryClaims.SummaryLog.ClaimSummary` | eventide/context_builder.py:40-73 | every refusal in its order, the error of reading what has been added, and otherwise one appended claim |
| `SummaryClaims.AttemptIsExec` | eventide/context_builder.py:52-73 | where claimed prefixes were read without an error, so is what has been added between them, and an attempt is the step the claims' bounds are about |
| `SummaryClaims.ClaimsAreSpaced` | eventide/context_builder.py:49-73 | in every log one owner's claims cover more and more, a minute apart, with enough new characters and different prefixes |
| `SummaryClaims.ClaimedIff` | eventide/context_builder.py:49-73 | a claim is made if and only if its owner has not claimed the prefix, and it is the first or comes a minute later, covers more and adds 4,000 characters |
| `SummaryClaims.SlicesAddUp` | eventide/context_builder.py:62-68 | where lengths add up over a claim's slice and what lies before it, all slices together are no longer than the stretch between the first and the last claim |
| `SummaryClaims.ReadContinues` | eventide/projections.py:18-54 | after a log that leaves no call open, reading goes on as if from the start, but for results left over |
| `SummaryClaims.HistoryAdds` | eventide/context_builder.py:33-37 | two adjoining parts of a log, the first of them closed, are serialized to no more than the whole, and the whole is readable if and only if the second part is |
| `SummaryClaims.HistoryBoundsClaims` | eventide/context_builder.py:60-68 | whatever is attempted, 4,000 characters for each claim after the first are no more than the serialized history between the first and the last claimed position |
| `SummaryClaims.ClaimsAreBounded` | eventide/context_builder.py:49-73 | the number of claims is bounded by the added characters and by the elapsed time |
| `FailureLoop.FindCandidate` | eventide/tool_loops.py:70-133 | the loop with a window of three outcomes gives the verdict over all outcomes |
| `FailureLoop.CandidateIff` | eventide/tool_loops.py:112-124 | a candidate is returned if and only if the last three outcomes are evidenced failures with one fingerprint and one usable checkpoint |
| `FailureLoop.SignatureIff` | eventide/tool_loops.py:15-31 | an outcome has a signature if and only if it is a known failure with a fingerprint, either a timeout or an execution that failed with an exit code other than zero or an exception |
| `FailureLoop.CandidateReports` | eventide/tool_loops.py:112-133 | a candidate's last three outcomes failed with its fingerprint; it names the tool of the last one, the three calls in order with their Runs, and whether another Run is among them |
| `FailureLoop.LatestIff` | eventide/tool_loops.py:84-93 | a checkpoint is in force if and only if it is the last of the log and usable |
| `FailureLoop.OutcomeCheckpoint` | eventide/tool_loops.py:77-111 | an outcome has the latest checkpoint up to the next prepared tool or outcome, whatever follows |
| `FailureLoop.ReadHistory` | eventide/tool_loops.py:51-67 | the walk along continued Runs terminates; a missing Run gives an empty history |
| `FailureLoop.EarlierHistoryIsIrrelevant` | eventide/tool_loops.py:64-67 | for every log with three outcomes, no earlier history can change the verdict if and only if the log is not fragile |
| `FailureLoop.EarlyStopIsSafe` | eventide/tool_loops.py:51-67 | for every chain, stopping early gives the verdict of the whole chain unless what was read is fragile, which it never is when each Run logs a checkpoint before its first outcome; a missing Run empties the whole chain, and the early stop misses it only beyond the three outcomes it has read |
| `FailureLoop.UnanchoredRunDiffers` | eventide/tool_loops.py:51-67 | a Run with three equal failures and no checkpoint of its own that continues one with a checkpoint: the walk stops at it without a candidate, and the whole chain holds one |
| `Preferences.ReadState` | eventide/preference_memory.py:48-64 | the folding loop |
| `Preferences.PreferenceMemory.Create` | eventide/preference_memory.py:147-161 | every refusal, and otherwise one active record at revision 1 |
| `Preferences.PreferenceMemory.ChangeSettings` | eventide/preference_memory.py:162-167 | compare and set on the settings revision |
| `Preferences.PreferenceMemory.Edit` | eventide/preference_memory.py:168-192 | compare and set on a record that is not revoked; a new content has a manual source |
| `Preferences.PreferenceMemory.Resolve` | eventide/preference_memory.py:193-212 | compare and set on a pending suggestion; an accepted one with verified sources becomes a record |
| `Preferences.CreateIff` | eventide/preference_memory.py:147-161 | a record is created if and only if its scope and content are allowed and no record in use has its topic |
| `Preferences.EditIff` | eventide/preference_memory.py:168-192 | an edit is accepted if and only if the record is active or paused at the expected revision and a new content is allowed |
| `Preferences.ResolveIff` | eventide/preference_memory.py:193-212 | a resolution is accepted if and only if the suggestion is pending at the expected revision, and for an acceptance its sources, scope and content are allowed and its topic is free |
| `Preferences.ResolveEffect` | eventide/preference_memory.py:193-212 | a resolved suggestion was pending at the expected revision; accepting it saves one active record of its topic and source, dismissing it saves none |
| `Preferences.PreferenceMemory.Observe` | eventide/preference_memory.py:327-387 | what one statement adds: nothing, its observation, a record, or a suggestion with the latest message that is not bound |
| `Preferences.ObserveExact` | eventide/preference_memory.py:327-387 | a new and allowed statement is observed if it is explicit or the switch is on; an explicit one becomes a record where its topic is free, any other one a suggestion with the latest earlier message of its session that says the same and is not bound |
| `PreferenceLog.ExecKeeps` | eventide/preference_memory.py:152-217 | every operation keeps the log's invariant |
| `PreferenceLog.LogsAreSound` | eventide/preference_memory.py:152-217 | every reachable log: one record that is not revoked per topic, revisions 1, 2, 3, ... ended by a revocation, suggestions bound to two messages of one session that state the same, and no message bound by two suggestions |
| `PreferenceLog.NewSuggestion` | eventide/preference_memory.py:361-387 | a new suggestion names two different messages, neither of them bound before |
| `PreferenceLog.SeenStaysSeen` | eventide/preference_memory.py:331-340 | a message once observed or bound never makes a preference again |
| `PreferenceInjection.Snapshot` | eventide/preference_memory.py:409-430 | at most twelve usable records, one per key, the project's before the global one, and none left out that ranks before a chosen one |
| `PreferenceInjection.FirstIsSnapshot` | eventide/preference_memory.py:417-427 | the first twelve by rank are such a snapshot |
| `PreferenceInjection.AvoidedFirst` | eventide/preference_memory.py:418-427 | in a snapshot what is to be avoided (a content that opens with "never", "don't" or the Chinese "not") comes first, and each kind in order of its keys |
| `PreferenceInjection.SnapshotGovernsRun` | eventide/preference_memory.py:409-479 | over every run of the preference operations: at any point after the snapshot at most twelve preferences are injected, with the contents in the snapshot, none that an earlier request with the switch on did not inject, and none paused or revoked by then |
| `PreferenceInjection.ReadContext` | eventide/preference_memory.py:437-479 | the injection loop over the snapshot; with the switch on it gives what every allowed reference injects and nothing else |
| `PreferenceInjection.ContextExact` | eventide/preference_memory.py:450-479 | with the switch on something is in the context if and only if its reference is in the snapshot, its id is allowed or no set is given, and the reference injects it |
| `PreferenceInjection.InjectedInOrder` | eventide/preference_memory.py:450-479 | what is injected comes in the order of the snapshot, each item for a reference of its own |
| `PreferenceInjection.InjectsIff` | eventide/preference_memory.py:454-471 | a reference injects something if and only if its version is known and every version from it on is active |
| `PreferenceInjection.FirstRequestInjectsAll` | eventide/preference_memory.py:409-479 | a request right after the snapshot with every id allowed injects exactly the records of the snapshot, in its order, with their contents |
| `PreferenceInjection.SnapshotIsKnown` | eventide/preference_memory.py:417-479 | right after the snapshot each of its records is injected with its current content |
| `PreferenceInjection.InjectsSnapshottedVersion` | eventide/preference_memory.py:469-478 | what is injected is the content of the revision in the snapshot |
| `PreferenceInjection.InjectionOnlyShrinks` | eventide/preference_memory.py:452-478 | whatever a later request injects for a reference, an earlier one injected just the same |
| `PreferenceInjection.ContextOnlyShrinks` | eventide/preference_memory.py:437-479 | with the switch on, a later context is a part of an earlier one |
| `PreferenceInjection.StoppedStaysOut` | eventide/preference_memory.py:461-468 | a preference paused or revoked from the snapshotted revision on never returns, even when it is active again |
| `Feedback.SearchLargest` | eventide/delivery_repair.py:219-229 | the binary search finds the largest number that fits |
| `Feedback.FitsDownward` | eventide/delivery_repair.py:224-226 | what is shorter than an excerpt that fits, fits too, with escaped widths of 1, 2 or 6 |
| `Feedback.KeptIsLargest` | eventide/delivery_repair.py:219-229 | the kept excerpt fits its allowance and no longer one does |
| `Feedback.FitFeedback` | eventide/delivery_repair.py:213-233 | each failed check in turn gets what is left divided by the checks to come, rounded down; every check that failed shows the longest head and tail that fit its share, and every other check shows none |
| `Feedback.ShareIsQuotient` | eventide/delivery_repair.py:218 | the share is the floor of the quotient, also for what is overdrawn |
| `Feedback.FeedbackFits` | eventide/delivery_repair.py:215-234 | the feedback is within 12,000 characters if and only if its skeleton is |
| `Feedback.SharesAreFair` | eventide/delivery_repair.py:216-218 | no failed check's allowance is below an even split of what the skeleton leaves |
| `Feedback.FailedExact` | eventide/delivery_repair.py:215 | the checks served are exactly those that failed, in order, each at the turn that the failures before it give |
| `Feedback.EveryCheckShown` | eventide/delivery_repair.py:200-232 | for every check: a failed one shows the longest head and tail that fit its share, which do not overlap and with the omitted count make up the output; any other one shows nothing |
| `Feedback.EveryFailureIsServed` | eventide/delivery_repair.py:215-234 | with a skeleton within 12,000 characters the feedback is, too, and every check that failed has at least an even share of what the skeleton leaves |
| `Feedback.EscapedIsJsonLength` | eventide/delivery_repair.py:226 | the width counted for a text is the length of its JSON string (RFC 8259, section 7) without the quotes |
| `Differences.EscapeInjective` | eventide/evaluation_metrics.py:514-516 | the escaping of RFC 6901, section 3, loses nothing |
| `Differences.PointerInjective` | eventide/evaluation_metrics.py:514-517 | pointers of different paths are different |
| `Differences.FindDifferences` | eventide/evaluation_metrics.py:510-519 | the recursion terminates; the result holds every difference at its pointer with both values, and nothing else |
| `Differences.Merge` | eventide/evaluation_metrics.py:515-517 | updating the dictionary with one more key's differences loses none |
| `Differences.CleanDiffersAlike` | eventide/evaluation_metrics.py:22 | the comparison sees the same differences in two trees as in the two with sentinel members dropped |
| `Differences.EmptyIffCleanEqual` | eventide/evaluation_metrics.py:510-519 | for all trees the result is empty if and only if they are equal once sentinel members are dropped |
| `Differences.EmptyIffEqual` | eventide/evaluation_metrics.py:510-519 | without real sentinels the result is empty if and only if the trees are equal |
| `Differences.PutRemovesOne` | eventide/evaluation_metrics.py:22 | in all trees, writing the right value at one difference removes it and no other, with absent members as the sentinel |
| `Differences.ResultTurnsLeftIntoCleanRight` | eventide/evaluation_metrics.py:510-519 | for all trees, the after-values of a result, written at its pointers in any order, turn left into a tree that equals right once sentinel members are dropped |
| `Differences.ResultTurnsLeftIntoRight` | eventide/evaluation_metrics.py:510-519 | without real sentinels they turn left into right |
| `Differences.RealSentinelIsLost` | eventide/evaluation_metrics.py:22 | a real sentinel is not told from an absent member |
| `Prices.SplitGroup` | eventide/budget_prices.py:65-88 | the loop over the details of one total |
| `Prices.PartitionIsExact` | eventide/budget_prices.py:65-91 | each total is unknown as a whole, or its priced details as stated and the remainder sum exactly to it |
| `Prices.UnknownIff` | eventide/budget_prices.py:71-88 | a total is unknown if and only if it is not stated, a priced detail is not, or the details exceed it |
| `Prices.EachTokenOnce` | eventide/budget_prices.py:62-91 | in the merged quantities of a basis no token is counted twice |
| `Prices.PriceLines` | eventide/budget_prices.py:59-104 | every total of the basis is split exactly or unknown as a whole; each of its quantities with a rate has its one line, every line is at its rate, and every quantity without a rate is reported as unknown |
| `Prices.LinesAccount` | eventide/budget_prices.py:62-103 | for each total that is not unknown: each of its parts with a rate has exactly one line, with that quantity and that price, and its lines and unpriced quantities sum to the reported total; each part without a rate is unknown |
| `Prices.LinesOfBasis` | eventide/budget_prices.py:92-103 | every line is at the rate of its category for a total of the basis or one of its details, at price times quantity |
| `Prices.AmountsAreExact` | eventide/budget_prices.py:97-100 | with prices up to 1e12 at 18 decimals and counts below 10^18 no line and no sum needs rounding at 50 digits |
| `Prices.PriceLedger.RegisterPrice` | eventide/budget_prices.py:113-131 | the first earlier price with the same version, or the same slot and time, decides; otherwise one price is appended |
| `Prices.RegistrationIff` | eventide/budget_prices.py:116-129 | over every run of registrations a price is added if and only if none registered before has its version or its slot and time, and answered as a replay if and only if it is there |
| `Prices.PricesStayApart` | eventide/budget_prices.py:116-129 | over every run versions are never reused and a slot never has two prices at one time |
| `Prices.RateIsLatest` | eventide/budget_prices.py:177-187 | a slot has a rate if and only if one of its prices is in effect, and it is the latest of those |
| `Prices.RateIsUnique` | eventide/budget_prices.py:177-187 | over every run every other price of the slot in effect is strictly older than the rate |

## Left out

- The store, files, Git, containers, HTTP and providers: what they answer is an input of the operation that asks.
- Text and range checks of arguments (`_text`, `_count`, limits of lengths, enumerations): the types stand for them.
- Budgets.Project: a day scope is the number of the UTC day, where the program writes the date as text.
- Ledger.BudgetLedger.Settle: `usage_snapshot` is not part of this model; usage is a map of counters, complete when the totals of its basis are there.
- Ownership.ResolveContext: the preparations of a delivery, the paths of workspaces and the question whether a Run repairs a delivery are inputs.
- BudgetRuns.RaisedLimitSafety: nothing is claimed of the current limit once a limit was lowered or removed; `BudgetRuns.BudgetSafety` states what holds then.
- `BudgetLedger.snapshot` and the budget views: they only list buckets.
- Redaction.NormalizeText: the clip of `redact` at 4,000 characters and the cases of containers.
- `PreviewStore`: a bounded buffer of previews.
- Dispatch.RunDispatch.Dispatch: tasks, locks and futures of asyncio; each method is one atomic step, and a future is pending or resolved.
- SchedulerSafety.SchedulerSafe: roots are admitted under their ticket and started under their lease, no terminal fact is partial, and the log starts with no unfinished roots, as the host arranges; slots for model requests are not modelled.
- Dispatch.RunDispatch.RecordKey: that the key is new or the Run's own is what its callers see to, by the tests of `ReserveWorkspace`, by a key named after a new Run, or by a copy just created; the rest of the host's preparation is not modelled.
- RunState.ProgramAgreesIff: which Run a continuation continues, and the other facts of its commit, are not modelled; the resolutions come in any order, where the program sorts them.
- RunState.ProjectStatus: only the status of the projection, not its times, steps, usage or pending approvals.
- Conversation.ReadRecovery: approvals are a set; the program sorts them, and the proofs hold for every order. A response's message is always a list of blocks, as the host writes it.
- `TaskPlanProjection`, `preview` of long tool results and the assembly of a request around compaction.
- SummaryClaims.SummaryLog.ClaimSummary: the lengths of a text, a block and the rest of a message in JSON are inputs.
- FailureLoop.FindCandidate: how a fingerprint is taken from a call and its result.
- Preferences.PreferenceMemory.Observe: the grammar of statements, content rules, the checks before the decision (control sessions, child Runs, attachments) and record times.
- PreferenceInjection.Snapshot: the checks that a Run takes one snapshot only, and no child Run any.
- Feedback.FitFeedback: the JSON text itself; its length is a fixed part plus the escaped excerpts and the digits of the omitted counts.
- Differences.FindDifferences: arrays and scalars are leaves compared by value, and keys are visited in any order.
- Prices.PriceLines: parsing a decimal; a price is its number of units of 10^-18. Estimates kept per attempt and their sums over attempts are not part of this model.
