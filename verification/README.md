# A verified model of KernelCap

KernelCap is a circuit breaker for AI workloads. Detectors raise alerts about processes that loop, leak memory or hog
a GPU; a policy ledger authorises or refuses what may be done about them; a mitigator freezes processes and a router
throttles their requests; a rollback controller undoes what has expired and reconciles the books with the process
table. Around this sit a streaming proxy that counts tokens, a bounded telemetry queue with its sender, a webhook
notifier with retries, and numeric detectors.

`dafny verify dfyconfig.toml` checks the whole project.

## How the source is modelled

* Objects whose methods update their fields are classes (`TransactionLedger`, `Engine`, `MitigationLedger`,
  `Mitigator`, `Registry`, `AlertRouter`, `Controller`, `Reader`, `SSEAccumulator`, `Detector`, `ProcessWindow`,
  `RingBuffer`, `Streamer`, `ResourceHistory`, `AlertMultiplexer`, `RetryQueue`, `WebhookDispatcher`). Each method is
  proved against a specification function of the old state, and the laws are lemmas about those functions.
* The policy engine, its two kinds of clients, the ledger's sweeper, the rollback loop, the reconciler and resume calls
  form one state machine (`Protocol`). An action is one critical section or one system call, so that everything the
  source does between two locks may interleave with everything else. `ProtocolBasics`, `ProtocolVelocity`,
  `ProtocolWindow`, `ProtocolLifecycle` and `ProtocolFreeze` prove what every action keeps, `ProtocolTheorems` what
  holds in every reachable state, `ProtocolRollback` when an action is undone, and `ProtocolRuns` exhibits particular
  runs. Left alone, the machine's steps compose to one call of the classes: an engine call and an alert of either
  client in `ProtocolRuns`, a resume call, a rollback check and a reconciliation pass in `ProtocolLoops`.
* The telemetry sender, the retry loop, the detector and the router's registry are such machines too, because they give
  up a lock halfway (`StreamerRuns`, `RetryRaces`, `DetectorRaces`, `RegistryRaces`). The laws of the simpler machines,
  in which a call is one step, stand beside them.
* Beside its specification function a method or its lemma also says in plain terms, with the source's constants written
  out, what the result is: counts of bits and records, positions in the input, calls in order. `StreamText` prints event
  streams and `WhiteSpace` encodes runes, so that the reader and its tables are proved against what they read.
* Clocks, generated ids, jitter, HTTP responses, process probes and the outcomes of signals and container calls are
  parameters. Times are integers, `float64` is `real`, Go strings on which byte lengths matter are byte sequences.
  64-bit integers are bounded where the source depends on it (`itoa`, `ParseUint`, the resident size).

## What the proofs found

* The configured velocity window is stored but never used: the window that counts is the cooldown of the record.
* `EvaluateAndRegister` takes the ledger lock twice. With k clients the cap can be exceeded by k - 1 and by no more
  (`VelocityCap`, `VelocityCapIsTight`); with mitigator and router, by one.
* A full ledger evicts unexpired records, and with them the memory of the cap: then no bound at all is left
  (`EvictionBreaksWindow`). A sweep evicts exactly when it finds more than maxEntries unexpired records.
* The detector's garbage collection forgets when a process was last reported. Were an ingestion one step, its cooldown
  could be relied on exactly if an idle window outlives it (`SpacingNeedsMemory`). But the detector lets go of its lock
  between finding a window and feeding it; a collection in between leaves two windows that each raise an alert, so
  that no positive cooldown can be relied on (`SpacingUnderRaces`). Each single window keeps it
  (`WindowsSpaceTheirAlerts`).
* `Resume` hands its reversibility token to the policy engine as a transaction id; no record is closed by it
  (`ResumeClosesNoTransaction`).
* An OpenAI usage chunk discards the completion text collected so far (`UsageForgets`); no text is lost exactly if no
  usage chunk comes after some (`TextSurvives`). A last line without a newline is never fed. The line format is a
  subset of section 9.2.5 of the WHATWG HTML Living Standard.
* An executed action need not be rolled back: a sweep drops the expired record too, and if it comes before the rollback
  loop has listed it, nothing undoes the action any more (`RollbackCanBeMissed`; `NeverUndoneIff` says exactly when).
* A rollback of a frozen container can report COMPLETED and leave the process stopped, because the freeze had fallen
  back to SIGSTOP and the unpause succeeds, or leave the container paused, because the unpause failed and SIGCONT
  succeeds (`CompletedYetHeld`). The process runs exactly if unpausing worked when pausing had, and only then
  (`RolledBackRuns`).
* The telemetry queue can lose entries although no producer finds it full: what is produced during a failing batch
  leaves no room for what is put back (`PutBackEvicts`, `InterleavedRunConserves`).
* The retry loop can block itself for good: it is the only reader of the queue it puts failed tasks back into, and while
  it waits for a response first attempts may fill the queue (`LoopCanGetStuck`, `StuckForever`).
* A lookup in the router's registry decides under one lock that an entry has expired and clears its flag under another;
  an alert in between is forgotten at once (`KnockedOut`; `LookupsAgreeIff` says exactly when).
* The sender never backs off in an outage: only a batch that fails after sending something lengthens its pause, and a
  batch that fails at once resets it (`OnlyPartlySentBacksOff`).
* A failed batch goes to the back of the telemetry queue, so its order is rotated (`BatchKeepsOrder` says exactly
  when it is not); a failed final flush loses the rest of its batch (`FlushLoses`).
* Chopping a conversation whose first system message lies strictly inside the latest messages drops the messages
  before it without counting them (`ChopConserves`, `MessagesVanish`); unless keepRecent + 2 <= maxMessages a second
  chop can replace the printed count by a smaller one (`SecondChopSettles`).
* `itoa` prints the least 64-bit integer as a lone minus sign (`PrintedReadsBack`).
* On real abscissae the degenerate guard of the regression also rejects points that do differ, if they are close
  (`GuardRejectsSmallSpread`); on the integer timestamps it is used with, it is exact (`GuardOnIntegers`).
* An out-of-order sample keeps older points in the resource history beyond their age, unless it holds a single point
  (`OrderMattersUnlessSingle`).
* Reactivating an expired registry entry keeps its old counters and model; the entry is only dropped by `Deactivate`.

## Model

| member | source | states |
|---|---|---|
| `PolicyLedger.TransactionLedger.constructor` | internal/proxy/policy/ledger.go:19-40 | an empty, indexed ledger; a capacity that is not positive becomes 10000 and a negative cooldown 60 |
| `PolicyLedger.TransactionLedger.Register` | internal/proxy/policy/ledger.go:42-72 | the ledger gains exactly the new record, under its id and at the end of its PID's index list; the record counts the earlier ones and expires one cooldown after its stamp |
| `PolicyLedger.TransactionLedger.UpdateStatus` | internal/proxy/policy/ledger.go:74-84 | any status is written over any other; an unknown id changes nothing and is reported; the index stays exact |
| `PolicyLedger.TransactionLedger.HistoricalCount` | internal/proxy/policy/ledger.go:92-108 | the number found through the index is the number of unexpired records of the PID in a full scan |
| `PolicyLedger.TransactionLedger.ListExecutedExpired` | internal/proxy/policy/ledger.go:110-122 | a snapshot of exactly the EXECUTED records past their expiry, each once |
| `PolicyLedger.TransactionLedger.ListActive` | internal/proxy/policy/ledger.go:124-138 | a snapshot of exactly the unexpired PENDING and EXECUTED records, each once |
| `PolicyLedger.TransactionLedger.Sweep` | internal/proxy/policy/ledger.go:164-193 | terminates; expired records go, then the oldest until the ledger fits; no evicted record is newer than a survivor; the index is exact again |
| `PolicyLedger.TransactionLedger.DeleteExpired` | internal/proxy/policy/ledger.go:170-174 | what remains is exactly the unexpired records |
| `PolicyLedger.TransactionLedger.FindOldest` | internal/proxy/policy/ledger.go:176-184 | an oldest record, or none when all are stamped in the future |
| `PolicyLedger.TransactionLedger.RebuildPidIndex` | internal/proxy/policy/ledger.go:195-202 | the rebuilt index lists each record once under its own PID and the records are unchanged |
| `PolicyLedger.HistoricalCountIsFullScan` | internal/proxy/policy/ledger.go:92-108 | for every well-indexed ledger, the indexed count equals the size of the full scan |
| `PolicyLedger.InsertKeepsIndex` | internal/proxy/policy/ledger.go:65-69 | registering under a fresh id keeps each id listed exactly once, under its own PID |
| `PolicyLedger.SetStatusKeepsIndex` | internal/proxy/policy/ledger.go:74-84 | a status write leaves the index exact |
| `PolicyLedger.InsertExtendsScan` | internal/proxy/policy/ledger.go:65-69 | the new record joins the scan of its own PID, if unexpired, and no other scan changes |
| `PolicyLedger.SweepKeepsNewest` | internal/proxy/policy/ledger.go:164-193 | with no stamps from the future a sweep leaves the newest min(capacity, unexpired) unexpired records |
| `PolicyRules.VerdictMeaning` | internal/proxy/policy/evaluator.go:53-94 | authorised iff nothing protects the target and the count is below the cap; the cap is blamed only when nothing else forbids the request |
| `PolicyRules.VerdictInOrder` | internal/proxy/policy/evaluator.go:53-94 | a refusal is blamed on the first failing check in the source's order; a request that reaches the cap matches the PID boundary first, any other refusal matches only the rule it is blamed on, and an authorisation matches boundary and blacklist |
| `PolicyRules.RuleEvaluator.constructor` | internal/proxy/policy/evaluator.go:18-51 | the rules of the configuration, with the source's defaults and without empty names |
| `PolicyRules.RuleEvaluator.UpdateWhitelist` | internal/proxy/policy/evaluator.go:118-134 | replaces both whitelists by the non-empty names and ids given, and nothing else |
| `PolicyEngine.Engine.EvaluateAndRegister` | internal/proxy/policy/engine.go:75-128 | authorised iff the target is unprotected and has fewer unexpired records than the cap; the ledger gains one record, of the request as made, PENDING iff authorised and otherwise REJECTED; the event says of id, verdict, target, container, status, rules, reason, history and cooldown what that record says |
| `PolicyEngine.RecordMeaning` | internal/proxy/policy/ledger.go:42-72 | every field of the record, with its history the number of all earlier records of the target |
| `PolicyEngine.Engine.ConfirmExecution` | internal/proxy/policy/engine.go:130-132 | a known record becomes EXECUTED, and nothing else changes |
| `PolicyEngine.Engine.Complete` | internal/proxy/policy/engine.go:134-136 | a known record becomes COMPLETED, and nothing else changes |
| `PolicyEngine.Engine.Reject` | internal/proxy/policy/engine.go:138-140 | a known record becomes REJECTED, and nothing else changes |
| `Mitigation.MitigationLedger.Record` | internal/proxy/mitigator/policy.go:35-46 | stores the entry under the fresh token as PAUSED with a zero timestamp, whatever the caller passed |
| `Mitigation.MitigationLedger.UpdateState` | internal/proxy/mitigator/policy.go:54-64 | writes the state of a known token only |
| `Mitigation.MitigationLedger.ListActive` | internal/proxy/mitigator/policy.go:66-77 | exactly the PAUSED and THROTTLED entries, each once |
| `Mitigation.TokensAreNotTxIds` | internal/proxy/mitigator/mitigator.go:301 | a reversibility token is never a transaction id |
| `Mitigation.Mitigator.MitigateFromAlert` | internal/proxy/mitigator/mitigator.go:102-211 | one alert under a policy engine: refused, it leaves only a REJECTED record; frozen, an EXECUTED record and a reversible entry; not freezable, a REJECTED record and no entry; the system calls are those, in that order |
| `Mitigation.Mitigator.Act` | internal/proxy/mitigator/mitigator.go:150-192 | the authorised part: freeze, status write, and an entry iff the freeze worked |
| `Mitigation.Mitigator.MitigateUnconditionally` | internal/proxy/mitigator/mitigator.go:213-268 | one alert without a policy engine: the freeze is attempted and, if it worked, exactly one PAUSED entry is added under the fresh token; otherwise nothing changes |
| `Mitigation.Mitigator.Freeze` | internal/proxy/mitigator/mitigator.go:155-167 | a container is paused, with SIGSTOP as fallback; without a container only SIGSTOP is sent |
| `Mitigation.AttemptMeaning` | internal/proxy/mitigator/mitigator.go:155-167 | the calls of a freeze attempt case by case, whether it worked, and the mechanism it reports |
| `Mitigation.Mitigator.Resume` | internal/proxy/mitigator/mitigator.go:270-331 | on success the entry is RESUMED; an unknown token or a failed call changes nothing; the policy ledger is never changed |
| `Mitigation.Mitigator.RollbackPID` | internal/proxy/mitigator/mitigator.go:345-356 | unpauses, or sends SIGCONT if there is no container or that failed; the ledgers are not touched |
| `RouterRegistry.Registry.ActivatePid` | internal/proxy/router/registry.go:21-51 | the entry is active and cools from now; an existing entry keeps its counters and its model |
| `RouterRegistry.Registry.DeactivatePid` | internal/proxy/router/registry.go:53-57 | removes the entry |
| `RouterRegistry.Registry.Lookup` | internal/proxy/router/registry.go:59-80 | answers iff the entry exists and now <= CoolingUntil; the flag never disagrees with the clock |
| `RouterRegistry.Registry.RefreshAlert` | internal/proxy/router/registry.go:82-94 | restarts the cooling of an existing entry |
| `RouterRegistry.Registry.RecordTokensSaved` | internal/proxy/router/registry.go:96-106 | adds to the counters of an existing entry |
| `RouterRegistry.Registry.ActiveCount` | internal/proxy/router/registry.go:108-125 | counts, by remedy, exactly the PIDs a lookup would find |
| `RouterRegistry.Registry.Snapshot` | internal/proxy/router/registry.go:138-150 | lists exactly the states a lookup would find, each once |
| `RouterRegistry.ApplyKeepsConsistent` | internal/proxy/router/registry.go:21-106 | every operation keeps CoolingUntil = LastAlertAt + cooling, and a cleared flag means the deadline has passed |
| `RouterRegistry.EnteredMatchesHistory` | internal/proxy/router/registry.go:21-94 | after any run the stored last alert is the one read off the calls |
| `RouterRegistry.EntryMatchesHistory` | internal/proxy/router/registry.go:21-106 | after any run an entry stands iff it was activated and not deactivated since; it holds the remedy asked for last, the first model named since its creation, and the sum and the number of the token counts since then |
| `RouterRegistry.LazyExpiryIsInvisible` | internal/proxy/router/registry.go:59-80 | while every call is one step, and under a monotone clock: a lookup finds a PID iff its last standing alert is at most the cooling period old, however often somebody looked before |
| `RegistryRaces.LookupsAgreeIff` | internal/proxy/router/registry.go:59-80 | with the gap between a lookup's reading and its flag write: that holds at every moment of a run iff no late write strikes an entry that was refreshed in the gap |
| `RegistryRaces.LazyExpiryUnderRaces` | internal/proxy/router/registry.go:59-94 | it holds in all such runs iff the cooling period is negative, that is, nothing is ever throttled |
| `RegistryRaces.KnockedOut` | internal/proxy/router/registry.go:71-94 | for every other cooling period some run hides a process from lookups at the very time of its last alert |
| `RegistryRaces.LookupAtOnce` | internal/proxy/router/registry.go:59-80 | the two halves of a lookup, at once, are the call |
| `Router.AlertRouter.HandleAlert` | internal/proxy/router/router.go:101-139 | the record asks for a reroute for HOST_MEMORY_LEAK and IDLE_GPU_HOG and for a chop for any other anomaly, and ends EXECUTED iff authorised; then the process is throttled for the cooling period, under the remedy it visibly had or else FALLBACK_ROUTE for those two anomalies and TOKEN_CHOP for any other; refused, no entry changes |
| `Router.AlertRouter.HandleUnconditionally` | internal/proxy/router/router.go:101-139 | without a policy engine: every alert throttles its process in the same way, and no other |
| `Router.AlertRouter.Throttle` | internal/proxy/router/router.go:130-138 | an entry that a lookup finds is refreshed and keeps its remedy, otherwise one is activated |
| `Router.AlertThrottles` | internal/proxy/router/router.go:110-152 | the entry after an alert, by anomaly: its remedy, its models and counters, and until when a lookup finds it |
| `Router.AlertedIsFound` | internal/proxy/router/router.go:116-128 | after an authorised alert the process is throttled until the cooling period has passed; a visible entry keeps its remedy |
| `Rollback.Controller.DispatchRollback` | internal/proxy/rollback/dispatcher.go:51-100 | a SIGSTOP is undone by SIGCONT, a container freeze by unpausing with SIGCONT as fallback, a router action by dropping the entry; the calls are exactly those, in that order; only if they worked the record becomes COMPLETED and a detail reports it |
| `Rollback.Controller.Release` | internal/proxy/rollback/dispatcher.go:57-73 | a SIGSTOP is undone by SIGCONT, a container freeze by unpausing with SIGCONT as fallback |
| `Rollback.UndoneByACall` | internal/proxy/rollback/dispatcher.go:57-73 | a freeze counts as undone iff a SIGCONT to its process or an unpause of its container succeeded |
| `Rollback.UndoMeaning` | internal/proxy/rollback/dispatcher.go:51-100 | calls and detail of an undone action, by its type and by what the system answered |
| `RollbackEffects.RolledBackRuns` | internal/proxy/mitigator/mitigator.go:345-356 | an alert that froze a running process, followed by its rollback: the record ends COMPLETED iff some call of the rollback works, and then the process runs iff it is in no container or unpausing worked exactly if pausing had |
| `RollbackEffects.CompletedYetHeld` | internal/proxy/rollback/dispatcher.go:66-87 | for every frozen container process there are outcomes after which the record is COMPLETED and never due again, yet the process is still stopped, or its container still paused |
| `Rollback.Controller.CheckExpired` | internal/proxy/rollback/dispatcher.go:11-49 | exactly the due records that can be undone end COMPLETED, after exactly the calls that undo the due records, in order; one event without drift reports those undone, iff there were any |
| `Rollback.CheckReport` | internal/proxy/rollback/dispatcher.go:21-48 | the event counts the due records and those that could be undone, and has one detail for each of the latter, that names it |
| `Rollback.CallsInOrder` | internal/proxy/rollback/dispatcher.go:21-29 | the calls for two lists of records one after the other are those for the first and then those for the second |
| `Rollback.Controller.DispatchAll` | internal/proxy/rollback/dispatcher.go:21-29 | every record is tried in order; a failing one is skipped and stays due; ledger, registry and system calls are those of the records one after another |
| `Rollback.Controller.ReconcileOnce` | internal/proxy/rollback/reconciler.go:9-57 | one pass turns the ledger into its reconciliation with the process table; an event with drift set is emitted iff some entry was out of step |
| `Rollback.Controller.ReconcileEntries` | internal/proxy/rollback/reconciler.go:20-37 | the loop probes and updates each listed entry once |
| `Rollback.PassSynchronises` | internal/proxy/rollback/reconciler.go:59-92 | an active entry becomes ORPHANED_CLEANED if its process is gone, stays if it is stopped or paused, and becomes DRIFT_SYNCED otherwise; inactive entries stay |
| `Rollback.DriftReport` | internal/proxy/rollback/reconciler.go:59-107 | the detail of an entry that is out of step: its process, its state before and after, and what was probed |
| `Rollback.DriftIsCounted` | internal/proxy/rollback/reconciler.go:20-37 | a pass has as many details as listed entries out of step, each of them reporting one |
| `Rollback.ReconcileIsFixpoint` | internal/proxy/rollback/reconciler.go:9-92 | over an unchanged table the entries still active are those whose PID probes STOPPED or PAUSED, a second pass changes nothing, and no later pass makes an entry active again |
| `Rollback.CheckExpiredSettles` | internal/proxy/rollback/dispatcher.go:11-49 | after a check only the records that could not be undone are due, and a second check changes nothing |
| `ProtocolBasics.ResumeClosesNoTransaction` | internal/proxy/mitigator/mitigator.go:301 | closing the policy record from a resume call changes nothing |
| `ProtocolBasics.StepKeepsIndex` | internal/proxy/policy/ledger.go:65-84 | every action of the protocol keeps the PID index exact |
| `ProtocolBasics.StepChangesOnlyStatus` | internal/proxy/policy/ledger.go:42-84 | apart from registration, no action changes more of a record than its status |
| `ProtocolBasics.StepKeepsTokens` | internal/proxy/mitigator/policy.go:35-64 | every action keeps entries under their own tokens and the tokens of resume calls resolvable |
| `ProtocolVelocity.StepPending` | internal/proxy/policy/engine.go:75-97 | only a count below the cap makes a client a threat to it, and registering ends the threat |
| `ProtocolVelocity.StepWithinCap` | internal/proxy/policy/engine.go:75-97 | every action keeps unexpired authorised records plus pending authorisations within the interleaved bound |
| `ProtocolWindow.CountSeesWindow` | internal/proxy/policy/ledger.go:99-106 | without eviction a count sees every authorisation of a window that reaches the present |
| `ProtocolWindow.StepWithinWindow` | internal/proxy/policy/engine.go:75-97 | every action keeps the bound on each closed window of cooldown length |
| `ProtocolLifecycle.StepFollowsEdge` | internal/proxy/policy/ledger.go:74-84 | every status change in a run is PENDING to EXECUTED, PENDING to REJECTED or EXECUTED to COMPLETED |
| `ProtocolLifecycle.BirthStatus` | internal/proxy/policy/engine.go:86-97 | a record is born PENDING if authorised and REJECTED otherwise |
| `ProtocolLifecycle.StepKeepsUndone` | internal/proxy/rollback/dispatcher.go:84 | nothing undone is undone again; it is COMPLETED, gone, or about to be completed |
| `ProtocolFreeze.StepKeepsHandle` | internal/proxy/mitigator/mitigator.go:150-192 | the handle of a stopped process survives every action that leaves it stopped |
| `ProtocolFreeze.StepNeverReactivates` | internal/proxy/mitigator/policy.go:54-64 | no action makes an inactive entry active |
| `ProtocolTheorems.IndexedCountIsExact` | internal/proxy/policy/ledger.go:92-108 | in every reachable state the indexed count is the full scan |
| `ProtocolTheorems.VelocityCap` | internal/proxy/policy/engine.go:75-97 | in every interleaving of k clients, unexpired authorised records of a PID plus authorisations not yet registered are at most maxActions + k - 1 |
| `ProtocolTheorems.SlidingWindow` | internal/proxy/policy/engine.go:75-97 | without capacity eviction any closed window of cooldown length holds at most maxActions + k - 1 authorisations of a PID, and at most maxActions for one client |
| `ProtocolTheorems.SweepEvictsIff` | internal/proxy/policy/ledger.go:176-189 | a sweep evicts an unexpired record iff it finds more of them than the ledger may hold |
| `ProtocolTheorems.RoomyRunsEvictNothing` | internal/proxy/policy/ledger.go:164-193 | a run evicts an unexpired record iff some sweep of it finds the ledger too full |
| `ProtocolTheorems.SlidingWindowOfRoomyRun` | internal/proxy/policy/engine.go:75-97 | the window bound for every run whose sweeps all find at most maxEntries unexpired records |
| `ProtocolTheorems.StatusLifeCycle` | internal/proxy/policy/ledger.go:74-84 | between any two moments of any run a transaction only moves along PENDING, EXECUTED, COMPLETED or PENDING, REJECTED |
| `ProtocolTheorems.RolledBackAtMostOnce` | internal/proxy/rollback/dispatcher.go:21-28 | no transaction is rolled back successfully twice, and between checks what was rolled back reads COMPLETED |
| `ProtocolTheorems.NoFreezeWithoutHandle` | internal/proxy/mitigator/mitigator.go:150-192 | a process stopped by the mitigator and continued by nobody is still in the stopping client's hands or has a PAUSED signal-stop entry whose token resolves |
| `ProtocolLoops.StopCanBeUndone` | internal/proxy/mitigator/mitigator.go:270-331 | for every such process that no client is still at work on, an undisturbed resume call with its token leaves the process running, its stop forgotten and the entry RESUMED |
| `ProtocolTheorems.NeverActiveAgain` | internal/proxy/rollback/reconciler.go:20-37 | in no run does an entry return to active, even with probe and update apart |
| `ProtocolRuns.VelocityCapIsTight` | internal/proxy/policy/engine.go:75-97 | for every number of clients and every cap some run attains the bound |
| `ProtocolRuns.EvictionBreaksWindow` | internal/proxy/policy/ledger.go:176-189 | with eviction there is no bound: in every configuration that lets anybody act, and for every number, some run authorises one PID that often at one instant |
| `ProtocolRuns.UninterruptedCall` | internal/proxy/policy/engine.go:75-97 | for either kind of client: count, judge, stamp and register without interruption are one call of the engine |
| `ProtocolRuns.UninterruptedRequest` | internal/proxy/router/router.go:101-128 | the machine's steps for one router alert, left alone, do to the policy ledger what `HandleAlert` does |
| `ProtocolRuns.UninterruptedAlert` | internal/proxy/mitigator/mitigator.go:102-192 | the machine's steps for one alert, left alone, compose to the method's outcome |
| `ProtocolLoops.UninterruptedCheck` | internal/proxy/rollback/dispatcher.go:11-49 | the rollback loop's steps, left alone, do to the policy ledger what `CheckExpired` does |
| `ProtocolLoops.UninterruptedReconcile` | internal/proxy/rollback/reconciler.go:9-57 | the reconciler's steps, left alone over an unchanged table, do what `ReconcileOnce` does and nothing else |
| `ProtocolLoops.UninterruptedResume` | internal/proxy/mitigator/mitigator.go:270-331 | the steps of a resume call, left alone, do what `Resume` does, and a signal that worked sets the process running |
| `ProtocolRollback.LeavesBySweep` | internal/proxy/policy/ledger.go:164-193 | a record leaves the ledger in a step iff the step is a sweep that drops it |
| `ProtocolRollback.SweepDropsDue` | internal/proxy/policy/ledger.go:170-174 | a sweep drops every record that is due for rollback |
| `ProtocolRollback.ForgottenIff` | internal/proxy/rollback/dispatcher.go:11-29 | a step makes a transaction gone and not to be undone iff a sweep drops its record while the rollback loop has not listed it, or its undoing fails after a sweep dropped it |
| `ProtocolRollback.NeverUndoneIff` | internal/proxy/rollback/dispatcher.go:11-29 | over any run a transaction ends up gone and never to be undone iff some step of the run was one of those two |
| `ProtocolRollback.RollbackCanBeMissed` | internal/proxy/policy/ledger.go:110-174 | in every configuration that lets anybody act some reachable state has a due EXECUTED record and an idle rollback loop; after a sweep no continuation undoes it |
| `InterceptReader.SSEAccumulator.FeedLine` | internal/proxy/proxy/response.go:85-92 | a line that trims to a `data: ` prefix hands over what follows the prefix, once; any other line is ignored (`StreamText.WrittenReadsBack` reads it against a printer) |
| `InterceptReader.SSEAccumulator.ProcessData` | internal/proxy/proxy/response.go:94-150 | the payload's effect on the completion text, by provider, with the end marker and undecodable chunks ignored and a usage chunk resetting it |
| `InterceptReader.SSEAccumulator.FinalMetrics` | internal/proxy/proxy/response.go:152-159 | the metrics are the number of fields of the completion |
| `InterceptReader.CountTokens` | internal/proxy/proxy/response.go:161-172 | the number of fields |
| `InterceptReader.Reader.Read` | internal/proxy/proxy/response.go:202-223 | one read: bytes and error pass through; complete lines are fed once the gate is open, the rest is kept; the metrics are reported at the first EOF (over a whole body, `StreamText.WrittenReadsBack` and `StreamText.WordsAreCounted` say what comes of it) |
| `InterceptReader.Reader.FeedLines` | internal/proxy/proxy/response.go:207-215 | all lines but the last are fed in order, the last becomes the buffer |
| `InterceptReader.ShutGateHidesNothing` | internal/proxy/proxy/response.go:229-231 | while the gate is shut no complete line in the buffer carries data |
| `InterceptReader.ChunkIndependence` | internal/proxy/proxy/response.go:202-223 | for both formats and every cutting into reads, at every moment the payloads delivered are those of the newline-terminated data lines read so far, in order, once each |
| `InterceptReader.FinalFiresOnce` | internal/proxy/proxy/response.go:218-221 | the final callback fires exactly once, at the first EOF, with the metrics of the whole body read by then |
| `InterceptReader.CuttingDoesNotMatter` | internal/proxy/proxy/response.go:202-223 | two cuttings of one body deliver and report the same |
| `StreamText.WrittenReadsBack` | internal/proxy/proxy/response.go:85-92 | a body printed from payloads, each behind the six bytes of `data: ` with ASCII white space around, with other lines between and an unfinished one behind, delivers exactly those payloads in order, however it is cut into reads |
| `StreamText.WordsAreCounted` | internal/proxy/proxy/response.go:93-223 | a stream of n chunks that carry one word each, and perhaps the end marker, is reported as n completion tokens |
| `StreamText.AbsorbMeaning` | internal/proxy/proxy/response.go:94-150 | the effect of one payload on the text: none for the end marker and for what cannot be decoded; the text of an Anthropic block delta or the contents of any other chunk is appended; a usage chunk leaves nothing |
| `InterceptReader.UsageForgets` | internal/proxy/proxy/response.go:117-120 | what came before a usage chunk does not count |
| `InterceptReader.TextSurvives` | internal/proxy/proxy/response.go:93-151 | a stream keeps all its text iff no usage chunk comes after some text; in the Anthropic format it always does |
| `ByteText.SplitAppend` | internal/proxy/proxy/response.go:207-215 | splitting a concatenation is splitting the first part and going on from its rest |
| `WhiteSpace.RecognisedAtStart` | internal/proxy/proxy/response.go:86 | of the runes of the basic plane exactly the white-space ones are trimmed at the start, by their whole encoding |
| `WhiteSpace.RecognisedAtEnd` | internal/proxy/proxy/response.go:86 | and so they are at the end |
| `Regression.OLSSlope` | internal/analytics/profiler/regression.go:5-39 | the loop and the closed form compute the fitted line; all three results are zero when there are too few points or the spread is below 1e-15 |
| `Regression.ResidualsExpand` | internal/analytics/profiler/regression.go:15-21 | the sum of squared residuals of any line is a quadratic in the five running sums |
| `Regression.NormalEquations` | internal/analytics/profiler/regression.go:28-29 | slope and intercept solve the normal equations |
| `Regression.LeastSquares` | internal/analytics/profiler/regression.go:11-38 | unless the guard is taken no line has a smaller sum of squared residuals, and only the returned one attains it |
| `Regression.RSquaredExplains` | internal/analytics/profiler/regression.go:31-37 | 0 <= R squared <= 1, and it is the part of the variation that the line explains |
| `Regression.FlatSeries` | internal/analytics/profiler/regression.go:31-37 | where y does not vary, slope and R squared are zero |
| `Regression.ShiftInvariance` | internal/analytics/profiler/profiler.go:241-251 | measuring time from any origin changes neither slope nor R squared, and the line is the same |
| `Regression.GuardOnIntegers` | internal/analytics/profiler/regression.go:23-26 | for integer timestamps the guard fires exactly when all are equal |
| `Regression.GuardRejectsSmallSpread` | internal/analytics/profiler/regression.go:23-26 | for reals it rejects unequal abscissae iff their spread is positive and below the threshold |
| `Regression.SmallSpreadExists` | internal/analytics/profiler/regression.go:23-26 | there are such abscissae |
| `Regression.SpreadNonNegative` | internal/analytics/profiler/regression.go:23 | the denominator is never negative and vanishes only if all abscissae agree |
| `Fingerprinting.SimHash` | internal/analytics/detector/simhash.go:11-37 | bit i of the result is set iff more tokens have it set than not; no tokens give zero |
| `Fingerprinting.MajorityDecides` | internal/analytics/detector/simhash.go:17-36 | a bit is set iff more than half of the tokens have it set |
| `Fingerprinting.OrderDoesNotMatter` | internal/analytics/detector/simhash.go:17-36 | the fingerprint depends only on the multiset of tokens |
| `Fingerprinting.RepetitionDoesNotMatter` | internal/analytics/detector/simhash.go:11-36 | writing the text k >= 1 times gives the same fingerprint |
| `Fingerprinting.HammingIsMetric` | internal/analytics/detector/simhash.go:45-47 | the distance is a metric bounded by 64 |
| `Fingerprinting.Stability` | internal/analytics/detector/simhash.go:17-36 | replacing any m tokens moves the fingerprint by at most the number of bits with -2m < vote <= 2m |
| `Fingerprinting.OneTokenStability` | internal/analytics/detector/simhash.go:17-36 | one token: at most the number of bits with -2 < vote <= 2 |
| `Fingerprinting.SimilarityBounds` | internal/analytics/detector/simhash.go:49-52 | similarity lies in [0, 1] and is 1 iff the fingerprints are equal (`Fingerprinting.SimilarityCounts` gives its value) |
| `Fingerprinting.SimilarityCounts` | internal/analytics/detector/simhash.go:45-52 | 64 times the similarity is the number of bits on which the fingerprints agree |
| `Fingerprinting.MeanBounds` | internal/analytics/detector/detector.go:128-146 | the mean similarity lies in [0, 1] and is 1 iff all compared fingerprints equal the newest |
| `Fingerprinting.MeanCounts` | internal/analytics/detector/detector.go:128-142 | the mean is the share of the pairs of an earlier fingerprint and one of its 64 bits that agree with the newest |
| `ByteText.FieldsJoin` | internal/analytics/detector/simhash.go:12 | an ASCII space between two texts keeps their fields apart |
| `Detector.ProcessWindow.IsFrequent` | internal/analytics/detector/detector.go:100-114 | true iff the threshold is positive and that many latest samples lie in the frequency window |
| `Detector.Compare` | internal/analytics/detector/detector.go:122-142 | the loop computes the share of agreeing pairs of an earlier sample and a bit, and the oldest timestamp |
| `Detector.ProcessWindow.Analyze` | internal/analytics/detector/detector.go:116-176 | an alert iff the mean reaches the threshold and the cooldown has passed; only then is the alert time stamped (`Detector.DueMeaning` counts the mean out) |
| `Detector.DueMeaning` | internal/analytics/detector/detector.go:57-176 | an alert is due iff the latest samples, as many as the threshold says, lie in the frequency window, the agreeing pairs over 64 times the earlier samples reach the similarity threshold, and the cooldown is over; what it says of the window, field by field |
| `Detector.ProcessWindow.Observe` | internal/analytics/detector/detector.go:57-73 | the window becomes its latest maxSize samples and is analysed only if frequent |
| `Detector.Detector.GetOrCreateWindow` | internal/analytics/detector/detector.go:76-98 | the window of the PID, created empty if there was none |
| `Detector.Detector.Ingest` | internal/analytics/detector/detector.go:46-74 | only the window of the PID changes: it keeps the latest samples, the new one with its majority fingerprint among them; an alert is raised iff `Detector.DueMeaning` asks for one, and queued unless the channel is full |
| `Detector.Detector.RunGC` | internal/analytics/detector/detector.go:201-214 | exactly the windows not accessed for longer than the time to live are gone, each with the time of its last alert |
| `Detector.WindowIsRecentPast` | internal/analytics/detector/detector.go:57-69 | trimming after every sample keeps the same samples as trimming the whole run once |
| `DetectorRuns.AlertsAreSpaced` | internal/analytics/detector/detector.go:144-151 | while an ingestion is one step, and with a time to live of at least the cooldown: over any run of samples and collections under a monotone clock alerts of a process are at least the cooldown apart |
| `DetectorRuns.SpacingNeedsMemory` | internal/analytics/detector/detector.go:144-214 | while an ingestion is one step: that spacing holds in every such run iff the configuration raises no alerts or the cooldown is at most the shortest time after which a collection can forget one |
| `DetectorRaces.SpacingUnderRaces` | internal/analytics/detector/detector.go:46-214 | with the gap between finding a window and locking it: the spacing holds in every run iff the configuration raises no alerts or there is no cooldown |
| `DetectorRaces.AlertTwiceAtOnce` | internal/analytics/detector/detector.go:49-54 | in every configuration that can alert a collection in that gap leads to two alerts at one instant, whatever the time to live |
| `DetectorRaces.WindowsSpaceTheirAlerts` | internal/analytics/detector/detector.go:144-151 | what is left: alerts of one and the same window are at least the cooldown apart in every such run |
| `DetectorRaces.TurnsAreRaces` | internal/analytics/detector/detector.go:46-98 | every run of one-step ingestions and collections is a run with the gap, at the same times, with the same alerts |
| `Detector.ReorderedPromptsAreCertain` | internal/analytics/detector/detector.go:128-142 | prompts made of the same tokens in any order have mean similarity 1 |
| `RingBuffer.RingBuffer.constructor` | internal/proxy/pipeline/ringbuffer.go:18-26 | an empty queue; a limit that is not positive becomes 50 MiB |
| `RingBuffer.RingBuffer.Push` | internal/proxy/pipeline/ringbuffer.go:28-44 | oldest entries make room for the new one; empty data is ignored; count and bytes stay exact |
| `RingBuffer.RingBuffer.PopLocked` | internal/proxy/pipeline/ringbuffer.go:56-66 | takes the first entry and keeps the counters exact |
| `RingBuffer.RingBuffer.Pop` | internal/proxy/pipeline/ringbuffer.go:46-54 | takes the first entry, or reports that there is none |
| `RingBuffer.RingBuffer.Drain` | internal/proxy/pipeline/ringbuffer.go:68-94 | takes the first min(limit, size) entries in order, with 100 as the default limit |
| `RingBuffer.PushKeepsLongestSuffix` | internal/proxy/pipeline/ringbuffer.go:28-44 | a push leaves the longest suffix of old contents and new entry that fits, or just the entry if it is oversized |
| `RingBuffer.PushesKeepLongestSuffix` | internal/proxy/pipeline/ringbuffer.go:28-44 | any run of pushes leaves the longest fitting suffix of everything pushed, or just the last entry if that one is oversized |
| `RingBuffer.NothingEvicted` | internal/proxy/pipeline/ringbuffer.go:37-39 | pushes evict nothing while everything fits |
| `RingBuffer.TotalIsLength` | internal/proxy/pipeline/ringbuffer.go:28-44 | the bytes of a queue are the length of its entries put together |
| `Streamer.Streamer.SendBatch` | internal/proxy/pipeline/streamer.go:113-134 | what was accepted before the first failure is sent, in order; the unsent rest of the batch goes behind the queue and nothing is evicted |
| `Streamer.Streamer.PushBack` | internal/proxy/pipeline/streamer.go:123-126 | pushes the unsent payloads one by one |
| `Streamer.Streamer.FlushRemaining` | internal/proxy/pipeline/streamer.go:169-187 | delivers up to the first failure and then drops the rest of that batch; without an endpoint it takes one batch |
| `Streamer.BatchConserves` | internal/proxy/pipeline/streamer.go:113-134 | sent and queued entries together are a rearrangement of what was queued |
| `Streamer.BatchKeepsOrder` | internal/proxy/pipeline/streamer.go:123-126 | for distinct entries the order survives iff the batch took the whole queue or was sent in full |
| `Streamer.Streamer.RunTurn` | internal/proxy/pipeline/streamer.go:76-110 | one turn of the sender's loop: a batch if anything is queued, the pause that it leaves, and how long the loop waits |
| `StreamerRuns.RunConserves` | internal/proxy/pipeline/streamer.go:113-134 | while nobody pushes between a drain and the end of its batch: over any run of pushes and failing batches, delivered and queued entries are together exactly the produced ones iff no push met the eviction guard |
| `StreamerRuns.InterleavedRunConserves` | internal/proxy/pipeline/streamer.go:113-134 | with producers pushing at any time: delivered, in flight and queued entries are together exactly the produced ones iff no push, a producer's or a push-back, met the eviction guard |
| `StreamerRuns.PutBackEvicts` | internal/proxy/pipeline/streamer.go:123-126 | for every limit some run loses an entry although no producer's push meets the guard |
| `StreamerRuns.RoomyRunsLoseNothing` | internal/proxy/pipeline/streamer.go:113-134 | nothing evicts if every producer's push leaves room for what is queued and what is in flight |
| `StreamerRuns.UninterruptedBatch` | internal/proxy/pipeline/streamer.go:113-134 | the steps of a batch, left alone, do what `SendBatch` does |
| `StreamerRuns.WholeBatchesAreRuns` | internal/proxy/pipeline/streamer.go:113-134 | every run of whole batches is a run of the interleaved machine with the same outcome |
| `Streamer.FlushLoses` | internal/proxy/pipeline/streamer.go:169-187 | a flush loses something iff there is an endpoint and a request fails, and never more than a batch |
| `Streamer.FlushMeaning` | internal/proxy/pipeline/streamer.go:169-187 | without an endpoint a flush takes at most 100 entries; with one it delivers what is accepted before the first failure and leaves what lies behind that batch of 100 |
| `Streamer.PauseDoubles` | internal/proxy/pipeline/streamer.go:89-100 | after any run of batches the pause is 2^(k-1) seconds, up to the maximum, for the k partly sent failures that end it, and 0 if k is 0 |
| `Streamer.OnlyPartlySentBacksOff` | internal/proxy/pipeline/streamer.go:89-100 | the sender backs off iff its latest batch failed after sending something, so never in an outage |
| `ResourceHistory.ResourceHistory.Append` | internal/analytics/profiler/resource_history.go:16-39 | drops the old prefix, then what exceeds the size, then appends |
| `ResourceHistory.ResourceHistory.NewestTimestamp` | internal/analytics/profiler/resource_history.go:58-69 | the largest stored timestamp, or 0 |
| `ResourceHistory.ResourceHistory.RollingAvgCPU` | internal/analytics/profiler/resource_history.go:82-91 | the arithmetic mean of the stored CPU shares, or 0 |
| `ResourceHistory.ResourceHistory.MaxVRAMUsed` | internal/analytics/profiler/resource_history.go:93-101 | the largest stored value, or 0 |
| `ResourceHistory.HistoryIsRecomputable` | internal/analytics/profiler/resource_history.go:16-39 | for non-decreasing timestamps the stored points are the last maxSize of all points within maxAge of the newest |
| `ResourceHistory.HistoryIsWindow` | internal/analytics/profiler/resource_history.go:16-39 | for non-decreasing timestamps the stored points are an unbroken final stretch of all points, cut exactly where a point is too old or the size is used up |
| `ResourceHistory.OrderMattersUnlessSingle` | internal/analytics/profiler/resource_history.go:16-39 | for points in any order the same holds for all runs iff the size is one |
| `ResourceHistory.LateSampleStays` | internal/analytics/profiler/resource_history.go:19-28 | for any larger size and any age three points out of order defeat it |
| `ResourceHistory.AverageWithin` | internal/analytics/profiler/resource_history.go:82-91 | the rolling average lies between the extremes of the window |
| `ResourceHistory.AverageBalances` | internal/analytics/profiler/resource_history.go:82-91 | the average is the one value from which the deviations of the stored CPU shares add up to zero |
| `Durations.WholeSeconds` | internal/analytics/profiler/resource_history.go:17 | whole seconds, truncated toward zero |
| `AlertGate.AlertMultiplexer.Route` | internal/proxy/alerter/alerter.go:121-161 | an alert goes out under a fresh id iff its key never passed or last passed at least a window ago and the channel has room, with the last pass read off all earlier arrivals; otherwise nothing goes out |
| `AlertGate.AlertMultiplexer.Suppress` | internal/proxy/alerter/alerter.go:124-147 | the critical section: an arrival less than a window after its key's last pass is only counted, any other starts the key's next window |
| `AlertGate.SuppressedIff` | internal/proxy/alerter/alerter.go:129-143 | in every run an arrival is suppressed iff its key passed before, less than a window ago |
| `AlertGate.GateHistory` | internal/proxy/alerter/alerter.go:129-143 | for any order of timestamps a key's passes are at least the window apart, its entry holds the last one, and its count is one more than the arrivals suppressed since |
| `AlertGate.NothingLost` | internal/proxy/alerter/alerter.go:121-161 | passed plus suppressed is routed |
| `AlertGate.RateBound` | internal/proxy/alerter/alerter.go:129-143 | for a positive window W at most L / W + 1 alerts of a key pass in any interval of length L |
| `AlertGate.RateBoundIsTight` | internal/proxy/alerter/alerter.go:129-143 | for every interval some run lets exactly L / W + 1 alerts of a key pass in it |
| `RetryQueue.RetryQueue.Retry` | internal/proxy/webhook/retry.go:93-140 | a code in 200..299 is reported DELIVERED; any other is RETRYING with one attempt more, and the job goes to the back of the queue, while attempts are left, and DEAD_LETTER after that |
| `RetryQueue.RetryQueue.HandleFailure` | internal/proxy/webhook/retry.go:142-185 | past the last attempt DEAD_LETTER, before it RETRYING, and the job goes to the back of the queue |
| `RetryQueue.RetryQueue.Loop` | internal/proxy/webhook/retry.go:64-91 | for every sequence of responses the queue empties, and what is reported is a function of tasks and responses |
| `RetryQueue.WorkDecreases` | internal/proxy/webhook/retry.go:142-185 | every attempt uses up one of the attempts left |
| `RetryQueue.WebhookDispatcher.Dispatch` | internal/proxy/webhook/dispatcher.go:96-151 | the first attempt is reported as attempt 0; unless its code is in 200..299 the job is admitted with attempt 1 if there is room, and dropped otherwise |
| `RetryQueue.WebhookDispatcher.EnqueueRetry` | internal/proxy/webhook/dispatcher.go:153-182 | reported RETRYING, then admitted with attempt 1 or dropped |
| `RetryQueue.DrainEndsWell` | internal/proxy/webhook/retry.go:142-185 | draining ends every task in one final report after at most the attempts it had left |
| `RetryQueue.JobFate` | internal/proxy/webhook/dispatcher.go:153-182 | while every attempt is one step: in any interleaving of arrivals and retries an admitted job makes at most 1 + max(1, RetryMaxAttempts) requests and ends in exactly one of DELIVERED and DEAD_LETTER, the latter only when its attempts are used up |
| `RetryRaces.JobProgress` | internal/proxy/webhook/retry.go:64-185 | with jobs arriving while an attempt runs: at every moment an admitted job still waits, with nothing but failures reported, or has ended in exactly one of DELIVERED and DEAD_LETTER as above |
| `RetryRaces.EmptiesIff` | internal/proxy/webhook/retry.go:180-184 | from any state some continuation empties loop and queue iff the loop is not waiting to put a task back into a full queue |
| `RetryRaces.StuckForever` | internal/proxy/webhook/retry.go:180-184 | a loop that waits there waits forever; nothing but further first attempts is ever reported again |
| `RetryRaces.LoopCanGetStuck` | internal/proxy/webhook/retry.go:142-185 | for every queue size, buffered or not, some run gets the loop stuck iff RetryMaxAttempts is at least 2 |
| `RetryRaces.CarefulRunsNeverStuck` | internal/proxy/webhook/dispatcher.go:175-181 | it never gets stuck if first attempts are only admitted while there is room for the task in the loop's hands as well |
| `RetryRaces.TurnAtOnce` | internal/proxy/webhook/retry.go:64-185 | taking a task, its response and putting it back, left alone, are one attempt of the simpler model |
| `RetryQueue.BackoffBounds` | internal/proxy/webhook/retry.go:187-201 | for every draw the pause lies in [c, 2c) for the capped exponential c |
| `RetryQueue.BackoffGrows` | internal/proxy/webhook/retry.go:187-201 | below the cap the pauses grow strictly, whatever the draws |
| `RetryQueue.BackoffCases` | internal/proxy/webhook/retry.go:187-201 | the pause by cases: the doubled base plus its jittered share; the maximum plus its share where that is smaller; one millisecond where either is not positive |
| `Chopper.ChopMessages` | internal/proxy/router/chopper.go:23-125 | an undecodable or short request is left alone; otherwise the output is the surviving messages in order with a summary behind the system message, or in front, that announces how many are gone; the tokens saved are the whole tokens in the characters freed, never negative |
| `Chopper.PlanKeepsSurvivors` | internal/proxy/router/chopper.go:60-106 | what is kept is the first system message and, of the latest messages, those after it, in order |
| `Chopper.ChoppingMeaning` | internal/proxy/router/chopper.go:41-125 | the whole output against the input: survivors, summary and its place, the two numbers it announces, tokens saved |
| `Chopper.KeepSystem` | internal/proxy/router/chopper.go:60-90 | system message, summary, latest messages |
| `Chopper.KeepLatest` | internal/proxy/router/chopper.go:91-106 | summary, latest messages |
| `Chopper.FindSystem` | internal/proxy/router/chopper.go:50-56 | the position of the first system message, or -1 |
| `Chopper.SummaryMessage` | internal/proxy/router/chopper.go:127-130 | the summary line as a system message |
| `Chopper.SummaryAnnounces` | internal/proxy/router/chopper.go:127-130 | the summary is a system message whose text carries the numerals of the two numbers |
| `Chopper.ChopConserves` | internal/proxy/router/chopper.go:60-106 | survivors plus the printed number equal the input iff the first system message is absent or not strictly inside the latest messages |
| `Chopper.RecentSurvive` | internal/proxy/router/chopper.go:60-106 | in that case the system message leads and the latest messages survive in order |
| `Chopper.MessagesVanish` | internal/proxy/router/chopper.go:70-76 | otherwise exactly the messages between the two positions are unaccounted for |
| `Chopper.ChopIsIdempotent` | internal/proxy/router/chopper.go:41-106 | a rewrite leaves at most keepRecent + 2 messages, and chopping again changes nothing when that fits the limit |
| `Chopper.SecondChopSettles` | internal/proxy/router/chopper.go:41-106 | every conversation is left alone by a second chop iff keepRecent + 2 <= maxMessages |
| `Chopper.SecondChopForgets` | internal/proxy/router/chopper.go:41-106 | for every tighter limit some conversation's summary says three messages are gone, and one after a second chop |
| `Chopper.CountReadsBack` | internal/proxy/router/chopper.go:127-130 | the number read from the summary line is the number of dropped messages |
| `Chopper.OutputAccountsForInput` | internal/proxy/router/chopper.go:41-106 | the survivors in the output and the number printed in its summary, if it has one, add up to the input iff the first system message is absent or not strictly inside the latest messages |
| `Numerals.Itoa` | internal/proxy/router/chopper.go:132-152 | prints every 64-bit integer, the least one as a lone minus sign |
| `Numerals.PrintedReadsBack` | internal/proxy/router/chopper.go:132-152 | the numeral parses back to its number iff that is not the least 64-bit integer |
| `Numerals.ValueByPosition` | internal/proxy/router/chopper.go:132-152 | numerals are read by position, to the base ten |
| `Numerals.NoLeadingZero` | internal/proxy/router/chopper.go:132-152 | and printed without leading zeros |
| `Numerals.ParsePrinted` | internal/proxy/procfs/process.go:88-96 | a printed number parses as itself if it fits 64 bits and is an error otherwise |
| `ProcStat.ParseProcStat` | internal/proxy/procfs/process.go:64-115 | the fields by position, or the first error in the source's order |
| `ProcStat.ErrorsInOrder` | internal/proxy/procfs/process.go:64-115 | no closing parenthesis, no opening one before it, fewer than 22 fields, and then the first of the four numbers that is not one; metrics only if nothing of this goes wrong |
| `ProcStat.ParseField` | internal/proxy/procfs/process.go:88-96 | parses unless an earlier field failed, and remembers the first failure |
| `ProcStat.PrintedParts` | internal/proxy/procfs/process.go:65-78 | in a printed line both parentheses are found whatever bytes the command contains |
| `ProcStat.RoundTrip` | internal/proxy/procfs/process.go:64-115 | parsing a printed line gives back command, times and sizes; the resident size is exact iff it fits 64 bits |
| `ProcStat.NumbersRoundTrip` | internal/proxy/procfs/process.go:64-115 | a line printed from a state letter and integers, negative ones included, comes back the same way |

## Left out

- Goroutines, HTTP servers and clients, the SSE broker, Docker, cgroup and signal calls, eBPF and NVML: their outcomes are parameters.
- JSON encoding and decoding, including the pooled request object of the chopper, whose stale fields survive a partial decode; the model starts from decoded messages and chunks.
- The configured velocity window, which the source never reads.
- `RiskScore`, configuration loading, metrics, loggers, container-id heuristics and process-name lookup.
- Mitigator and router without a policy engine in the protocol: the machine has one; the unconditional branches are modelled as methods only.
- Shutdown of queues and loops.
- Requests that cannot be built, which a worker drops without a report.
- Re-delivery bodies and signatures: the first attempt posts an encoded body, a retry the raw one; only counts and outcomes are modelled.
- The several clock readings of one critical section of the detector are one instant. GPU merging, `sortByCPU`, the remaining rolling accessors and /proc/[pid]/status.
- Map iteration order: where the source picks in map order the model allows any order. Overflow of 64-bit times and counters, and floating-point rounding; the square root in R squared is avoided by stating it as num squared over its radicand.
- Hash values of tokens and of suppression keys: uninterpreted, so nothing is said about collisions. `AlertGate.Key` stands for the hash.
- The write index of the ring buffer, which is never read, and reuse of backing arrays; entries are a sequence.
- Sharing of `RetryTask`, `DedupEntry` and `MitigationState` objects by pointer: they are values in the maps and queues that own them.
- ProcStat.ParseProcStat: requires that a line does not end right at the closing parenthesis, where the source would slice past its buffer.
- ResourceHistory.ResourceHistory.constructor: requires a positive size, because with size zero the source's first append slices past the end.
- ProtocolTheorems.SlidingWindow: assumes that no unexpired record was evicted, that is, that no sweep found more than maxEntries of them; `EvictionBreaksWindow` shows that it must.
- ProtocolTheorems.NoFreezeWithoutHandle: assumes that a stopped process probes as stopped; a probe that errs would clear a live handle.
- RouterRegistry.LazyExpiryIsInvisible: a lookup is one step; `RegistryRaces` has the gap in it.
- RetryQueue.JobFate: an attempt and putting the task back are one step, and the queue is buffered; `RetryRaces` has neither assumption.
- DetectorRuns.SpacingNeedsMemory: an ingestion is one step; `DetectorRaces` has the gap in it.
- StreamerRuns.RunConserves: a batch is one step; `StreamerRuns.InterleavedRunConserves` has the gaps in it.
