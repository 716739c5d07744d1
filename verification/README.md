# Protocol and validator models

This project models the parts of the repository in which state, faults or ordering are hard, and proves
what they keep over every run and every input. Check it with `dafny verify dfyconfig.toml`.

| module | what it models |
|---|---|
| `ChaosOperations`, `ChaosPrimary`, `ChaosReplicas`, `ChaosSimulation` | the fault-injected replication program: a journaled primary, last-writer-wins replicas and the simulation that drives them |
| `ContractModel`, `ReplayProtection` | the idempotency-keyed reference store with its trace generator and replay, and the pruned nonce cache |
| `Supervisor`, `BoundedSearch`, `Exploration` | the recovery supervisor's step relation, a breadth-first search over any step relation, and the exploration that joins them |
| `Fixtures`, `Fabrication`, `Atomicity` | recorded scenarios, the fenced worker protocol and the delivery atomicity protocol |
| `BriefingDelivery`, `BriefingLanes` | delivery receipts with fencing tokens, and lane manifests with their envelope |
| `Sequences`, `Cycles`, `Sorting`, `Ranking` | shared notions, the depth-first cycle detector that three validators carry, tuple order with stable sorting, and deterministic rank checks |
| `RemediationQueue`, `Digests`, `Ledger` | the validators built on them: remediation findings, research and opportunity digests, interval ledgers |
| `Publication` | publishing children before their monorepository over a remote that loses requests and replies |
| `IntakeCorpus` | derived counts, retention, briefing buckets and percentiles of the prompt intake corpus |

How the source's terms appear here:

- Programs held in string literals of `scripts/deep_test_fleet_templates.py` are modelled as the code they
  contain. Their random choices are parameters (the faults of `simulate`, the draws of the trace generator) or
  arbitrary choices (`*` and `:|`), and the delayed deliveries arrive in an arbitrary order. The workload of
  `simulate` is any list with distinct keys and rising sequences, of which the generated one is an instance.
- Objects whose methods update fields are classes; each method is proved equal to a function on the
  object's value, and the properties are proved about that function or over loops of the methods.
- Exceptions are error values. Digests, state hashes and command fingerprints are opaque and free of
  collisions; signing is an uninterpreted function. Instants and durations are integers.
- Validators that collect error texts collect error values; what is proved is when the list is empty, and for
  lane manifests and supervisor states also which errors it holds.
  A loop body of the source that only appends errors may appear as a function that returns them.
- The three copies of the cycle detector differ only in how they pass the stack, and share one model.
- Every induction is written out: lemmas carry `{:induction false}`, which switches automatic induction off, so that no
  proof rests on it.
- Formatted names such as entity ids and idempotency keys are determined by their parts.

Seven expectations are false of the code and are stated with their exact conditions:

- Redelivery of delivery attempts, markers and absence proofs in the atomicity model changes nothing:
  `Atomicity.ResendNeedsTwoProofs` and `Atomicity.MarkersRepeatOnlyAfterResend`, with the run
  `Atomicity.OldAttemptIsSentAgain`.
- The pruned nonce cache agrees with an unpruned one: `ReplayProtection.AgreesIffNoReuse`, with
  `ReplayProtection.ReusedNonceShows`.
- No request passes twice, on a clock that may step back: `ReplayProtection.PassesIffFree` and
  `ReplayProtection.ReplayPassesIffClockStepsBack`, with `ReplayProtection.SteppedBackClockReplays`.
- Repeats of delivered commands leave no trace in the reference store: `ContractModel.RepeatTakesEffectIff`
  for one repeat, `ContractModel.SameStoreIffSameEffect` for whole traces, with
  `ContractModel.RejectedRepeatMayTakeEffect`.
- An accepted post-cutoff item can be taken over into the corpus: `IntakeCorpus.MergedIsValidIff`, with
  `IntakeCorpus.SharedOperationIsAccepted`.
- A fabrication worker that died can be replaced: `Fabrication.NewWorkerFinishes` and
  `Fabrication.StrandedWithItsOwner`; a job at its last delivery waits for its owner.
- A briefing delivery whose owner died can be claimed by another: `BriefingDelivery.AcceptedIff` and
  `BriefingDelivery.OnlyTheOwnerMovesOn`; only released deliveries can.

The bound on restart attempts that the supervisor lists is not
inductive by itself; the proof strengthens it by "not stopping implies at most the budget".

## Model

| member | source | states |
|---|---|---|
| `ChaosPrimary.ReceiveKeepsConsistent` | scripts/deep_test_fleet_templates.py:443-456 | No call of the primary, whatever its operation and fault, leaves the invariant "all journaled entries took effect exactly once in journal order, except possibly the newest, and that one only while crashed"; which of crash, key conflict, timeout and answer comes follows exactly from the crash flag, the journal and the fault; refused calls change nothing; a call that was answered, or whose answer was lost, has settled the whole journal |
| `ChaosPrimary.RecoveryIgnoresOrder` | scripts/deep_test_fleet_templates.py:458-461 | Committing the journal in any order, with any repeats, gives the fold of the journal in insertion order |
| `ChaosPrimary.RecoverySettles` | scripts/deep_test_fleet_templates.py:458-461 | Recovery in lexicographic key order therefore settles the journal in insertion order and cannot reorder writes |
| `ChaosPrimary.ReachableIsConsistent` | scripts/deep_test_fleet_templates.py:428-461 | The invariant holds after every sequence of calls, faults and recoveries in key order |
| `ChaosPrimary.AcknowledgedIsDurable` | scripts/deep_test_fleet_templates.py:443-461 | An operation whose commit was answered, or whose answer was lost, stays journaled with a side-effect count of exactly 1 after any further calls, crashes and recoveries |
| `ChaosPrimary.DurableService.CommitOperation` | scripts/deep_test_fleet_templates.py:436-441 | The in-place commit equals the commit function on the service's value |
| `ChaosPrimary.DurableService.ReceiveOperation` | scripts/deep_test_fleet_templates.py:443-456 | The in-place receive equals the receive function, reply included, and keeps the invariant |
| `ChaosPrimary.DurableService.RecoverJournal` | scripts/deep_test_fleet_templates.py:458-461 | The in-place recovery equals the recovery function, and from any state the invariant allows it leaves every entry settled once and the service healthy |
| `ChaosReplicas.ReplicaHoldsLatest` | scripts/deep_test_fleet_templates.py:470-477 | After any finite sequence of applies, in any order and with any repeats, each entity holds the value of its highest-sequence operation |
| `ChaosReplicas.HoldsLatestIsUnique` | scripts/deep_test_fleet_templates.py:470-477 | With sequences distinct per entity, that description determines the whole replica state |
| `ChaosReplicas.ReplicasConverge` | scripts/deep_test_fleet_templates.py:464-477 | If keys determine operations and sequences are distinct per entity, replicas with equal applied keys are equal |
| `ChaosReplicas.Replica.ApplyOperation` | scripts/deep_test_fleet_templates.py:470-477 | The in-place apply equals the apply function on the replica's value |
| `ChaosSimulation.ReplicaMaterializesWorkload` | scripts/deep_test_fleet_templates.py:540-552 | A replica that received every operation of a workload, in any order and with any repeats, ends with the workload's expected state |
| `ChaosSimulation.Deliver` | scripts/deep_test_fleet_templates.py:510-528 | Whatever the fault, the retry loop ends acknowledged within 2 of its 6 attempts, with the operation journaled and settled exactly once and no key conflict; the calls the primary saw and the retries counted are exactly those of the fault |
| `ChaosSimulation.Drive` | scripts/deep_test_fleet_templates.py:497-536 | The whole operation loop raises nothing, counts one retry for each lost request, crash and lost reply, makes exactly the calls of these faults, and leaves the primary settled on exactly the workload |
| `ChaosSimulation.Offer` | scripts/deep_test_fleet_templates.py:530-536 | An operation is applied to each replica or held back for it, and nothing applied or held before is lost |
| `ChaosSimulation.Release` | scripts/deep_test_fleet_templates.py:539-543 | Every held delivery reaches its replica, in whatever order they are released |
| `ChaosSimulation.Reconcile` | scripts/deep_test_fleet_templates.py:544-547 | Replaying the journal leaves every replica with a history that contains the whole journal |
| `ChaosSimulation.Simulate` | scripts/deep_test_fleet_templates.py:489-561 | For every workload, every list of faults and every choice of delays, duplicates and shuffles none of the assertion errors (or the key conflict) is raised; primary and all three replicas equal the expected state, every side-effect count is 1, and the retries are the number of lost requests, crashes and lost replies |
| `ContractModel.ReferenceStore.Apply` | scripts/deep_test_fleet_templates.py:250-288 | The in-place apply equals the specification function whose acceptance and effect the rows on history determine |
| `ContractModel.AcceptedByHistory` | scripts/deep_test_fleet_templates.py:259-276 | On any run from the empty store, under a key not used before: a create with a value is accepted if and only if the last history entry of its entity is missing or a deletion, an update with a value or a delete if and only if that entry exists and is none; the outcome is the next history entry |
| `ContractModel.AnsweredByHistory` | scripts/deep_test_fleet_templates.py:250-257 | Under a key used before, every run answers with the history entry of the command that used it if kind, entity and value are the same, and with a conflict otherwise |
| `ContractModel.HistoryTells` | scripts/deep_test_fleet_templates.py:250-288 | Over every run the commands that took effect tell the whole store: each has its numbered history entry and its receipt, no other key is used, and an entity lives with the value of the last of them about it unless that is a deletion |
| `ContractModel.RejectedChangesNothing` | scripts/deep_test_fleet_templates.py:250-288 | The store changes exactly when a command is accepted under an unused key; a rejected command changes nothing at all |
| `ContractModel.RunKeepsConsistent` | scripts/deep_test_fleet_templates.py:250-288 | No commands lead out of the consistent stores |
| `ContractModel.ReachableIsConsistent` | scripts/deep_test_fleet_templates.py:234-288 | After any commands from the empty store: revisions are exactly 1..n, live keys and tombstones are disjoint, each key in use stands for one history entry, and values and tombstones are what the history says last |
| `ContractModel.KeysAreIdempotent` | scripts/deep_test_fleet_templates.py:250-257 | An accepted command repeated at any later point returns its first outcome, its key under another intent conflicts, and neither changes the store |
| `ContractModel.RepeatsLeaveNoTrace` | scripts/deep_test_fleet_templates.py:250-257 | Inserting commands under keys of already accepted commands at any later positions of any trace, with whatever other rejections, leaves the whole final store unchanged |
| `ContractModel.DeliveredIsRecorded` | scripts/deep_test_fleet_templates.py:250-257 | On a trace without rejections every delivered key is such a key |
| `ContractModel.RepeatTakesEffectIff` | scripts/deep_test_fleet_templates.py:250-288 | On any run a command delivered again takes effect if and only if its key was unused and it was refused the first time, nothing was accepted under its key in between, and the store does not refuse it now |
| `ContractModel.RejectedRepeatMayTakeEffect` | scripts/deep_test_fleet_templates.py:250-276 | Delivery alone is not enough, by example: a refused update takes effect when repeated after a create |
| `ContractModel.SameStoreIffSameEffect` | scripts/deep_test_fleet_templates.py:250-288 | Two whole traces, with whatever repeats, conflicts and rejections, leave the same store if and only if they have the same effective commands |
| `ContractModel.RefinesPlainMap` | scripts/deep_test_fleet_templates.py:250-288 | Any run, with repeats, conflicts and rejections, equals a plain map run on its effective commands, and the revision counts them |
| `ContractModel.NoisyTraceRefinesPlainMap` | scripts/deep_test_fleet_templates.py:234-288 | A fresh trace with repeats inserted anywhere ends in the store of the clean trace, whose values are a plain map run and whose revision is its length |
| `ContractModel.GenerateValidTrace` | scripts/deep_test_fleet_templates.py:302-332 | For every list of draws: every generated command is accepted by an empty store under a fresh key, kinds are exactly those the draws select, created entities are numbered in order, and the trace has the wanted length |
| `ContractModel.Replay` | scripts/deep_test_fleet_templates.py:335-341 | The replay with duplicates succeeds exactly when the run without duplicates does, with the same store; it delivers exactly every wanted command twice, and its assertion on repeated outcomes cannot fail |
| `ReplayProtection.ReplayWindow.Verify` | scripts/deep_test_fleet_templates.py:874-893 | The verdict and the pruned cache as specified; after an accepted call no retained entry is older than the window |
| `ReplayProtection.NoReplayWhileClockRises` | scripts/deep_test_fleet_templates.py:869-893 | While the clock never goes back, no nonce and timestamp are accepted twice, whatever was dropped in between |
| `ReplayProtection.ReplayPassesIffClockStepsBack` | scripts/deep_test_fleet_templates.py:883-893 | On any clock, with `first` the last call accepted under its nonce and whatever was refused since: a further authentic request under the nonce, with any timestamp, passes if and only if a call accepted in between read a clock past the window of `first` and the request is inside its own window |
| `ReplayProtection.PassesIffFree` | scripts/deep_test_fleet_templates.py:869-893 | The exact verdict over every run from the empty cache, on any clock: a request passes if and only if its timestamp is at most the skew away, the last acceptance under its nonce, if any, was outlived, and it is signed; else the first of these that fails is reported |
| `ReplayProtection.RetainedIsInWindow` | scripts/deep_test_fleet_templates.py:891-893 | After every accepted call of every run on a rising clock, each retained timestamp lies inside the window |
| `ReplayProtection.DisagreeIffExpiredReused` | scripts/deep_test_fleet_templates.py:883-893 | At any point of a run the pruned and the unpruned cache disagree on a call exactly when it presents, inside the window, a nonce accepted before whose timestamp had left the window when the last call was accepted |
| `ReplayProtection.PruningShowsIffReused` | scripts/deep_test_fleet_templates.py:869-893 | From any point of a run on a rising clock: some verdict differs from that of an unpruned cache if and only if some call reuses a nonce in that way |
| `ReplayProtection.AgreesIffNoReuse` | scripts/deep_test_fleet_templates.py:869-893 | The same from the empty cache: all verdicts of a run agree with an unpruned cache if and only if no call reuses an expired nonce |
| `ReplayProtection.PruningNeverShows` | scripts/deep_test_fleet_templates.py:869-893 | In particular they agree, from any point of a run on, when every nonce carries one timestamp |
| `ReplayProtection.ReusedNonceShows` | scripts/deep_test_fleet_templates.py:885-893 | They do differ: a dropped nonce is accepted again under a new timestamp |
| `ReplayProtection.SteppedBackClockReplays` | scripts/deep_test_fleet_templates.py:883-893 | With a clock that steps back one and the same request is accepted twice |
| `Supervisor.EnabledEventsMembers` | formal/continuous_recovery_supervisor.py:128-162 | An event is listed exactly when its guard holds |
| `Supervisor.EnabledEventsSorted` | formal/continuous_recovery_supervisor.py:124-162 | The events are listed strictly by name and slot, so none twice |
| `Supervisor.EnabledIff` | formal/continuous_recovery_supervisor.py:128-162 | In terms of the child processes alone: before a stop a child may crash, exit or outlive its window and a slot without one gets it back, after it children exit, and the grace periods run out in turn while a child is left |
| `Supervisor.BackoffDoublesUpToCap` | formal/continuous_recovery_supervisor.py:104-107 | The backoff is 1 second for the first attempt and doubles up to 4 |
| `Supervisor.StepCountsChildren` | formal/continuous_recovery_supervisor.py:165-292 | An event changes the number of live children by exactly one more for a restart and one less for a crash or an exit; a stop and the grace periods change it by none, an exhausting crash by the one that crashed |
| `Supervisor.RunCountsChildren` | formal/continuous_recovery_supervisor.py:165-292 | Conservation over every run: the live children are those of the start plus the restarts less the crashes and exits |
| `Supervisor.ChildTellsPhase` | formal/continuous_recovery_supervisor.py:165-292 | The phase and delay of a slot follow from whether a child runs in it and from how far the shutdown is |
| `Supervisor.StepKeepsInv` | formal/continuous_recovery_supervisor.py:191-292 | Every enabled event succeeds and keeps the inductive invariant and the number of slots |
| `Supervisor.ErrorsAreExact` | formal/continuous_recovery_supervisor.py:295-350 | The check lists a violation if and only if the state breaks that invariant |
| `Supervisor.NoErrorsIff` | formal/continuous_recovery_supervisor.py:295-350 | No invariant check fails if and only if the state is admissible, as described over its flags and slots |
| `Supervisor.InvImpliesNoErrors` | formal/continuous_recovery_supervisor.py:295-350 | The inductive invariant implies that every listed invariant check passes |
| `Supervisor.SafeAtEveryDepth` | formal/continuous_recovery_supervisor.py:191-350 | In every state reachable by a run of any length no listed invariant is violated and no enabled event fails |
| `Supervisor.RunExplains` | formal/continuous_recovery_supervisor.py:191-292 | On every run the state tells its history: each generation counts the slot's restarts, each attempt count the crashes since its last reset, a child runs exactly where one was started and has not crashed or exited since, the stop, grace and kill flags are set exactly when their events occurred, and the budget is exhausted exactly when some crash hit a slot whose attempts were at the budget |
| `Supervisor.RunIsTold` | formal/continuous_recovery_supervisor.py:112-292 | From the initial state every run determines its whole state by its list of events: every phase, attempt count, delay, generation and flag; a slot waits for an exit if and only if a child was running in it when the stop came and has not exited since |
| `Supervisor.QuiescentIffTerminal` | formal/continuous_recovery_supervisor.py:128-162 | Under the invariant no event is enabled if and only if the state is terminal |
| `Supervisor.NoRespawnAfterStop` | formal/continuous_recovery_supervisor.py:399-410 | After a stop no run raises a generation or puts a slot back to running or backoff |
| `Supervisor.ShutdownIsBounded` | formal/continuous_recovery_supervisor.py:165-292 | Every run from a stopping state has at most slots + 1 events |
| `Supervisor.ExhaustionIsDeep` | formal/continuous_recovery_supervisor.py:191-292 | No run of fewer than workers + 4 events ends terminal with the restart budget exhausted |
| `Supervisor.ExhaustionWitness` | formal/continuous_recovery_supervisor.py:191-292 | A run of exactly workers + 4 events does |
| `Supervisor.ShutdownIsDeep` | formal/continuous_recovery_supervisor.py:191-292 | No run of fewer than workers + 1 events ends in a clean operator shutdown, and a clean shutdown leaves every slot stopped |
| `Supervisor.KillTimeoutIsDeep` | formal/continuous_recovery_supervisor.py:191-292 | No run of fewer than 3 events ends in a kill timeout |
| `Supervisor.CleanShutdownWitness` | formal/continuous_recovery_supervisor.py:191-292 | A clean operator shutdown takes workers + 1 events |
| `Supervisor.KillTimeoutWitness` | formal/continuous_recovery_supervisor.py:191-292 | A kill timeout is reached in 3 events |
| `BoundedSearch.WithinIffRun` | formal/continuous_recovery_supervisor.py:359-415 | The reachability layers of the specification are exactly what runs of at most n events reach |
| `BoundedSearch.ExtendStep` | formal/continuous_recovery_supervisor.py:411-415 | The "shorter depth" test of the queue never fires for a state already seen: one more successor changes the map only when it is new, and then at its shortest distance |
| `BoundedSearch.Expand` | formal/continuous_recovery_supervisor.py:396-415 | Expanding one state records exactly its unseen successors one level deeper, or reports the respawning step |
| `BoundedSearch.WithinIsSeen` | formal/continuous_recovery_supervisor.py:366-415 | A search map closed under the steps of finished states contains every state within the finished depth |
| `BoundedSearch.ExpansionsInsert` | formal/continuous_recovery_supervisor.py:398-399 | The transition counter grows by the enabled events of each state expanded, each state once |
| `BoundedSearch.Search` | formal/continuous_recovery_supervisor.py:359-415 | For any step relation and bound: the search fails exactly when some state or step within the bound fails a check, and its error is true: a violated invariant is a nearest failure with its run, a blamed step is enabled and fails; otherwise the map holds exactly the states within the bound with their shortest distances, transitions count every step out of the interior once, and each kept witness is a shortest run to its goal |
| `Exploration.ReplayIsRun` | formal/continuous_recovery_supervisor.py:396-415 | Replaying a trace through the search's step relation is running it through the transition function |
| `Exploration.ChecksMean` | formal/continuous_recovery_supervisor.py:370-410 | The checks of the exploration are: the state is admissible, a step of a stopping supervisor leaves every slot in its generation and neither running nor waiting to run, and terminal means stopped without a child that could still exit |
| `Exploration.SupervisorIsSafe` | formal/continuous_recovery_supervisor.py:370-410 | None of the errors inside the search loop can be raised, at any depth |
| `Exploration.WitnessesExist` | formal/continuous_recovery_supervisor.py:417-422 | Within the bound the clean witness exists exactly from workers + 1 on and the restart-exhaustion one exactly from workers + 4 on; then they take that many events and the kill-timeout one 3, and only the last ends with a stuck slot |
| `Exploration.Explore` | formal/continuous_recovery_supervisor.py:359-429 | The exploration succeeds if and only if 1 <= workers <= 3 and depth >= workers + 4, and otherwise fails with the exact error; its counts are those of the reachable states, steps and terminal states; its witnesses replay, are shortest, and take workers + 1, workers + 4 and 3 events, the clean one without and the kill timeout with a stuck slot |
| `Fixtures.ReplaySteps` | scripts/fabrication_recovery_protocol.py:610-667 | A recorded scenario replays successfully exactly when every command resolves and every recorded expectation comes true; the receipts then chain from state to state along the run |
| `Fixtures.NoMismatchIff` | scripts/fabrication_recovery_protocol.py:637-656 | No mismatch is found if and only if acceptance, change and error are as the step expects |
| `Fabrication.GuardsImplyValid` | scripts/fabrication_recovery_protocol.py:334-522 | The guards of every command already imply the state check after it |
| `Fabrication.AcceptedIff` | scripts/fabrication_recovery_protocol.py:339-522 | A command is accepted if and only if it is due (the next claim, checkpoint, completion, failure, dead letter or ACK of its owner) or repeats exactly what the job says, and changes the job if and only if it is due |
| `Fabrication.RefusedBecause` | scripts/fabrication_recovery_protocol.py:320-522 | Every refusal carries an error, and the error names what is wrong: the conditions of the errors exclude each other |
| `Fabrication.TakeoverIsAccepted` | scripts/fabrication_recovery_protocol.py:339-393 | From every valid state with a delivery left that is neither terminal nor failed for good, a claim with a newer fence and a higher delivery count within the maximum is accepted, makes its sender the owner and keeps the checkpoint |
| `Fabrication.HistoryTells` | scripts/fabrication_recovery_protocol.py:339-522 | Over every run of a new job the commands that took effect tell every field: owner, fence and delivery are those of the last claim, the checkpoint is the last one, phase and data are those of the last claim, completion, failure or dead letter, and the ACK is there if and only if one took effect |
| `Fabrication.DigestIdentifies` | scripts/fabrication_recovery_protocol.py:269-290 | Two states have one terminal digest if and only if they differ at most in worker, delivery limit and ACK |
| `Fabrication.StepAdvances` | scripts/fabrication_recovery_protocol.py:334-522 | One command never lowers fence, deliveries or checkpoints, changes owner or delivery count only together with the fence, and leaves a terminal job unchanged but for its ACK |
| `Fabrication.RunAdvances` | scripts/fabrication_recovery_protocol.py:334-522 | The same over whole runs, with the state check passing throughout |
| `Fabrication.TerminalDigestIsConstant` | scripts/fabrication_recovery_protocol.py:269-290 | Once terminal, the terminal digest is the same after every further run |
| `Fabrication.AcceptedIsDurable` | scripts/fabrication_recovery_protocol.py:334-522 | What an accepted command recorded stays over every further run: a fence belongs to its claimant and delivery, a checkpoint, failure, result, dead letter and ACK keep their data until something newer replaces them |
| `Fabrication.OldOwnersAreFenced` | scripts/fabrication_recovery_protocol.py:320-331 | After an accepted claim no command under the same or an older fence is accepted from anyone but that claimant |
| `Fabrication.RedeliveryIsSafe` | scripts/fabrication_recovery_protocol.py:334-556 | A command accepted at some point of a run changes nothing when delivered again at any later point |
| `Fabrication.ChangesAreBounded` | scripts/fabrication_recovery_protocol.py:334-522 | However many commands are delivered, at most 2 * max deliveries + checkpoint sequence + 2 of them change the job |
| `Fabrication.TerminalsAreEarned` | scripts/fabrication_recovery_protocol.py:432-506 | Over whole runs: completed implies a checkpoint, dead-lettered implies a non-retryable failure or exhausted deliveries |
| `Fabrication.InitialIsEarned` | scripts/fabrication_recovery_protocol.py:146-172 | So it is on every run from an initial job, which passes its state check throughout |
| `Fabrication.Recovery` | scripts/fabrication_recovery_protocol.py:334-522 | A command list of bounded length, computed from any valid state |
| `Fabrication.NeverWedged` | scripts/fabrication_recovery_protocol.py:334-522 | From every valid state that list of at most 4 commands, each accepted with a change, ends acknowledged |
| `Fabrication.NewWorkerFinishes` | scripts/fabrication_recovery_protocol.py:339-522 | From every valid state with a delivery left that is neither terminal nor failed for good, a new worker alone, sending at most 4 commands of its own, completes the job and gets its ACK |
| `Fabrication.StrandedWithItsOwner` | scripts/fabrication_recovery_protocol.py:339-506 | From every other state no commands of anybody but the owner change anything, except for the ACK of a terminal state |
| `Fabrication.ResolvedAckIsAccepted` | scripts/fabrication_recovery_protocol.py:627-637 | A step that asks for the ACK of the state it meets resolves exactly in terminal states, and its ACK is always accepted |
| `Fabrication.RunScenario` | scripts/fabrication_recovery_protocol.py:594-680 | A scenario passes exactly when its steps conform and it ends in the expected phase and ACK state; the receipts document the run |
| `Atomicity.GuardsImplyValid` | scripts/daily_briefing_atomicity_model.py:251-396 | The guards of every command already imply the state check after it |
| `Atomicity.AcceptedIff` | scripts/daily_briefing_atomicity_model.py:251-396 | A command is accepted if and only if it is due (the next claim, takeover, composition, send, marker, receipt or proof under the current fence) or repeats exactly what the run says, and changes the run if and only if it is due |
| `Atomicity.RefusedBecause` | scripts/daily_briefing_atomicity_model.py:243-396 | Every refusal carries an error, and the error names what is wrong: the conditions of the errors exclude each other |
| `Atomicity.TakeoverIsAccepted` | scripts/daily_briefing_atomicity_model.py:270-283 | From every valid claimed state a takeover with a newer fence is accepted, sets fence and owner and keeps the rest; afterwards the phase is ambiguous if and only if it was delivery_started or ambiguous, and otherwise what it was |
| `Atomicity.HistoryTells` | scripts/daily_briefing_atomicity_model.py:251-396 | Over every run from the start the commands that took effect tell every field: the lease of the last claim or takeover, the phase of the last other command (ambiguous if a takeover followed the send), the composition, receipt and absence proof last recorded, and the send last begun unless proved absent |
| `Atomicity.RunAdvances` | scripts/daily_briefing_atomicity_model.py:251-396 | Over whole runs: fences never fall and stand for one owner each, a composition never changes once set, delivered is absorbing with a fixed receipt, attempt and destination |
| `Atomicity.AcceptedIsDurable` | scripts/daily_briefing_atomicity_model.py:256-364 | Over every further run an accepted claim or takeover holds its fence for its owner, and an accepted composition or receipt stays |
| `Atomicity.SendsAreAccountedFor` | scripts/daily_briefing_atomicity_model.py:308-391 | State-changing sends minus state-changing absence proofs equal the one delivery in flight (started, ambiguous or delivered), on every run |
| `Atomicity.NoBlindResend` | scripts/daily_briefing_atomicity_model.py:308-391 | Between two sends lies an accepted proof that the attempt of the first never arrived |
| `Atomicity.StartedUnderCurrentFence` | scripts/daily_briefing_atomicity_model.py:270-335 | While a delivery is marked as started, the current fence is the one that sent it |
| `Atomicity.RedeliveryIsSafe` | scripts/daily_briefing_atomicity_model.py:256-364 | Accepted claims, takeovers, compositions and receipts change nothing when delivered again at any later point |
| `Atomicity.ResendNeedsTwoProofs` | scripts/daily_briefing_atomicity_model.py:308-335 | A redelivered send takes effect if and only if the run is composed under the same fence with another attempt reconciled last; that takes at least two absence proofs in between |
| `Atomicity.MarkersRepeatOnlyAfterResend` | scripts/daily_briefing_atomicity_model.py:336-391 | A redelivered ambiguity marker or absence proof takes effect if and only if, under the same fence, its attempt is current again and started (marker) or ambiguous (proof); that takes another send of the attempt in between |
| `Atomicity.OldAttemptIsSentAgain` | scripts/daily_briefing_atomicity_model.py:308-391 | Full redelivery safety is false: after any two attempts a and b were sent and proved absent, the old send, marker and proof of a all take effect again |
| `Atomicity.NeverWedged` | scripts/daily_briefing_atomicity_model.py:251-396 | From every valid state, with any two attempt ids at hand, at most 4 accepted commands lead to a delivered run |
| `Atomicity.NewOwnerFinishes` | scripts/daily_briefing_atomicity_model.py:251-396 | From every claimed run a new owner alone, with at most 4 commands all under its own newer fence, reaches the receipt and keeps a composition that was there |
| `Atomicity.RunScenario` | scripts/daily_briefing_atomicity_model.py:477-530 | A scenario passes exactly when its steps conform and it ends in the expected phase; the receipts document the run |
| `Cycles.RankedIsAcyclic` | scripts/portfolio_remediation_queue.py:574-597 | A dependency graph whose edges all lower some rank has no cycle |
| `Cycles.TopologicalIsAcyclic` | scripts/portfolio_remediation_queue.py:574-597 | An order in which every name follows its dependencies rules out cycles: the completeness half of the detector |
| `Cycles.CycleFinder.Visit` | scripts/prompt_execution_ledger.py:186-200 | One recursive visit terminates, keeps the path, visiting and visited bookkeeping, reports only real cycles that repeat no name but their first, and has visited its node unless a cycle was found |
| `Cycles.CycleFinder.Report` | scripts/digest_provenance.py:755-758 | The reported slice of the stack, closed by its first node, is a cycle |
| `Cycles.FindCycles` | scripts/portfolio_remediation_queue.py:574-597 | Every reported path is a cycle that repeats no name but its first, and nothing is reported if and only if the graph restricted to its own keys is acyclic, in whatever order the names are taken |
| `Cycles.CheckReferences` | scripts/prompt_execution_ledger_validation.py:246-253 | No error exactly when every name refers only to other, known names |
| `Sorting.BeforeIsStrictOrder` | scripts/portfolio_remediation_queue.py:785-787 | Lexicographic comparison of sort keys made of numbers and strings is a strict total order |
| `Sorting.NamesCompare` | scripts/portfolio_remediation_queue.py:785-787 | Strings compare by their first different characters, and a proper prefix comes first |
| `Sorting.SortIgnoresOrder` | scripts/daily_briefing_receipts.py:384 | Sorting items of distinct keys does not depend on the order they come in |
| `Ranking.PositionedIffWellRanked` | scripts/portfolio_remediation_queue.py:781-794 | Comparing the sorted entries with 1, 2, 3, ... accepts exactly the lists in which each declared rank is one more than the number of entries before it |
| `Ranking.CheckRanks` | scripts/portfolio_remediation_queue.py:781-796 | For distinct keys there is no rank error if and only if every record has an entry and every entry is declared at its rank |
| `Ranking.RankingIsUnique` | scripts/portfolio_remediation_queue.py:781-796 | Given keys have one accepted ranking |
| `Ranking.RankFollowsKey` | scripts/portfolio_remediation_queue.py:785-794 | An accepted rank is smaller exactly when the key comes before |
| `Ranking.RanksArePermutation` | scripts/portfolio_remediation_queue.py:781-784 | Accepted ranks are 1..n, each taken once |
| `RemediationQueue.FindingErrors` | scripts/portfolio_remediation_queue.py:664-745 | No error exactly when the finding fits; the two errors about duplicate targets come exactly when a duplicate lacks one or another finding has one |
| `RemediationQueue.FindingFitsIff` | scripts/portfolio_remediation_queue.py:664-745 | A finding fits if and only if its rank is 1 to 100000, its scores are 0 to 100, its state goes with its disposition, and it names a target exactly as a duplicate |
| `RemediationQueue.CheckRecords` | scripts/portfolio_remediation_queue.py:657-779 | The first pass reports nothing exactly when all findings are well-formed, ids are unique and anchors are shared only by declared duplicates; then its index describes the findings |
| `RemediationQueue.CheckDependencies` | scripts/portfolio_remediation_queue.py:798-813 | No error exactly when every dependency names another, known finding of smaller rank |
| `RemediationQueue.CheckDuplicates` | scripts/portfolio_remediation_queue.py:817-832 | No error exactly when every duplicate targets a known finding that is no duplicate |
| `RemediationQueue.FittingRanksAreAcyclic` | scripts/portfolio_remediation_queue.py:798-815 | Dependencies that rank earlier leave no cycle |
| `RemediationQueue.Validate` | scripts/portfolio_remediation_queue.py:600-845 | Validation accepts exactly the queues described by a declarative predicate that does not mention cycles: the cycle detector never rejects a queue the other checks accept; the counts of actionable, blocked and no-op findings are those of the dispositions |
| `RemediationQueue.AcceptedRankingIsUnique` | scripts/portfolio_remediation_queue.py:781-796 | Two accepted queues that differ at most in ranks are equal |
| `RemediationQueue.AcceptedRanksArePermutation` | scripts/portfolio_remediation_queue.py:781-784 | Accepted ranks are a permutation of 1..n |
| `RemediationQueue.RanksFollowUrgency` | scripts/portfolio_remediation_queue.py:771-794 | In an accepted queue a finding ranks earlier than another if and only if it is more actionable, or equally so and more severe, or equally severe with the higher composite score, or else has the smaller id |
| `RemediationQueue.BetterScoresRankEarlier` | scripts/portfolio_remediation_queue.py:517-526 | Of two findings equally actionable and severe, one that is at least as good in every score and better in one, be it only less effort, ranks earlier in every accepted queue |
| `RemediationQueue.ScoresTrade` | scripts/portfolio_remediation_queue.py:517-526 | What a point of each score is worth in points of effort, and that scores in range give 0 to 10000, reached only by the best |
| `RemediationQueue.ChainsStayActionable` | scripts/portfolio_remediation_queue.py:798-813 | Along every dependency chain ranks fall and tiers never rise: an actionable finding never depends, even transitively, on a no-op finding |
| `RemediationQueue.DuplicateResolvesToOne` | scripts/portfolio_remediation_queue.py:817-832 | Every duplicate resolves in one hop to one finding, which is no duplicate |
| `RemediationQueue.AnchorsAreShared` | scripts/portfolio_remediation_queue.py:746-770 | Of two findings with a common anchor the later one is a declared duplicate |
| `Digests.ValidateResearch` | scripts/digest_provenance.py:609-769 | A research digest is accepted exactly when ids, addresses and stable identifiers are unique, ranks are the positions by composite score and id, and supersession is known, irreflexive and acyclic |
| `Digests.ResearchRankingIsUnique` | scripts/digest_provenance.py:728-739 | Scores and ids determine the accepted ranks |
| `Digests.ResearchRanksFollowScores` | scripts/digest_provenance.py:728-739 | In an accepted research digest an item ranks earlier if and only if its composite score is higher, or equal with the smaller id |
| `Digests.ResearchScoresTrade` | scripts/digest_provenance.py:599-606 | What a point of each score is worth in points of implementation cost, and that scores in range give 0 to 10000, reached only by the best |
| `Digests.ResearchFitsIff` | scripts/digest_provenance.py:620-727 | An item fits if and only if its rank is 1 to 10000, its scores are 0 to 100, and no earlier item shares its id, address or stable identifier |
| `Digests.NoteOpportunities` | scripts/digest_provenance.py:486-565 | The pass over the opportunities reports nothing exactly when ids, addresses and requisitions are unique and each company uses one Fiducia set |
| `Digests.CheckRoles` | scripts/digest_provenance.py:586-595 | No error exactly when every company with Fiducia opportunities has 2 or 3 roles; the returned companies are those |
| `Digests.ValidateOpportunities` | scripts/digest_provenance.py:480-596 | An opportunity digest is accepted exactly when identities are unique, ranks are the positions by score, company and requisition, and Fiducia companies have 2 or 3 roles and one set |
| `Digests.OpportunityFitsIff` | scripts/digest_provenance.py:486-565 | A record fits if and only if its rank is 1 to 10000, its score 0 to 100 and it goes with every earlier one |
| `Digests.OpportunityRanksFollowScores` | scripts/digest_provenance.py:575-582 | In an accepted opportunity digest a record ranks earlier if and only if its score is higher, or equal with the smaller company, or with the smaller requisition of the same company |
| `Ledger.SweepIffPartition` | scripts/prompt_execution_ledger_validation.py:148-164 | For non-empty chronological segments the sweep over neighbours succeeds if and only if each instant of the window lies in exactly one segment and no other instant in any |
| `Ledger.VerifiedThroughIsExact` | scripts/prompt_execution_ledger_validation.py:165-169 | Every instant before the verified one lies in a complete segment, the verified instant itself (if before the end) in an incomplete one, and it is the end if and only if all segments are complete |
| `Ledger.SortedSweepIsExact` | scripts/prompt_execution_ledger_validation.py:148-164 | Sorting the intervals and sweeping them decides exactly whether the declared segments abut over the window |
| `Ledger.Sweep` | scripts/prompt_execution_ledger_validation.py:151-164 | No gap, overlap or boundary error exactly when the intervals abut from start to end |
| `Ledger.FirstIncompleteStart` | scripts/prompt_execution_ledger_validation.py:165-169 | The loop finds the start of the first interval listed as incomplete, or the end |
| `Ledger.CheckSegments` | scripts/prompt_execution_ledger_validation.py:61-169 | No segment error exactly when the segments are well-formed, uniquely named and abut over the window; then the verified instant is the specified one |
| `Ledger.CheckWorkstreams` | scripts/prompt_execution_ledger_validation.py:170-255 | No error exactly when there are 15 uniquely named workstreams with known, acyclic dependencies |
| `Ledger.ClaimErrorsAreExact` | scripts/prompt_execution_ledger_validation.py:256-300 | The coverage checks pass exactly when completeness, verified instant, prompt counts and blockers agree with the segments |
| `Ledger.Validate` | scripts/prompt_execution_ledger_validation.py:38-340 | Validation accepts exactly the ledgers of the declarative predicate; closure-ready means accepted and closable |
| `Ledger.AcceptedSegmentsPartition` | scripts/prompt_execution_ledger_validation.py:61-300 | In an accepted ledger the segments partition the window, everything before verified_through is complete, and it is the window end if and only if source_complete |
| `Ledger.AcceptedIff` | scripts/prompt_execution_ledger_validation.py:38-300 | A ledger is accepted for planning if and only if its segments are well-formed, in order, and every instant of the window lies in exactly one of them, the verified instant is the one up to which all is complete, every incomplete segment is listed as a blocker, the prompt counts add up, and the 15 workstreams are accepted |
| `Ledger.ClosureReadyIff` | scripts/prompt_execution_ledger_validation.py:301-307 | An accepted ledger may be closed if and only if every segment is complete, no prompt is unresolved and nothing blocks; then every actionable prompt is mapped; and it may be closed if and only if closure mode accepts it |
| `BriefingDelivery.TransitionDelivery` | scripts/daily_briefing_receipts.py:472-608 | The transition equals the function whose acceptance and effect the next rows determine, and its successor always passes the state check |
| `BriefingDelivery.AcceptedIff` | scripts/daily_briefing_receipts.py:472-608 | Stage by stage, which commands are accepted: claims with a newer token from prepared and retryable, and the owner's next steps with well-formed failure classes from the others |
| `BriefingDelivery.RefusedBecause` | scripts/daily_briefing_receipts.py:472-608 | Every refusal names what is wrong, in the order in which it is checked |
| `BriefingDelivery.FailureIsRetried` | scripts/daily_briefing_receipts.py:496-605 | After an accepted retryable failure or a delivery reconciled as not made, a claim with any newer token is accepted, raises the attempt by one, and leads on to a receipt |
| `BriefingDelivery.HistoryTells` | scripts/daily_briefing_receipts.py:472-608 | Over every run the accepted commands tell the state: stage, receipt and failure are those of the last of them, operation and token those of the last claim |
| `BriefingDelivery.RunAdvances` | scripts/daily_briefing_receipts.py:472-608 | Over whole runs tokens never fall and stand for one operation each; delivered and terminal_failed are absorbing, and a released delivery stays as it is until a newer token is claimed |
| `BriefingDelivery.OutcomesAreDurable` | scripts/daily_briefing_receipts.py:496-605 | Over every further run a claimed token stands for its operation, an accepted receipt or terminal failure is the last word, and a retryable failure, an ambiguity and a reconciliation keep their failure class until a newer token is claimed or the delivery moves on |
| `BriefingDelivery.TokensAndAttemptsCount` | scripts/daily_briefing_receipts.py:496-513 | The attempt rises by exactly the claims taken from a retryable state, the token by at least the number of claims, and without claims not at all |
| `BriefingDelivery.DeliveriesAreSettledOnce` | scripts/daily_briefing_receipts.py:512-605 | Every delivery begun is settled exactly once or is the one in flight |
| `BriefingDelivery.NoBlindResend` | scripts/daily_briefing_receipts.py:512-605 | Between two deliveries begun, the first was recorded or reconciled as not delivered and a newer token was claimed |
| `BriefingDelivery.RedeliveryIsRefused` | scripts/daily_briefing_receipts.py:472-608 | A command accepted at some point of a run is refused at every later point |
| `BriefingDelivery.OldTokensAreFenced` | scripts/daily_briefing_receipts.py:492-500 | Once a newer token was claimed, nothing under an older one is ever accepted |
| `BriefingDelivery.NeverWedged` | scripts/daily_briefing_receipts.py:472-608 | From every valid state that is not finished at most three accepted commands lead to a receipt |
| `BriefingDelivery.OnlyTheOwnerMovesOn` | scripts/daily_briefing_receipts.py:492-513 | While a claimed operation is neither released nor finished, commands under any other operation or token change nothing, over every run |
| `BriefingLanes.CheckReceipts` | scripts/daily_briefing_receipts.py:279-355 | The pass over the receipts reports nothing exactly when each fits and operations and paths are unique; the blocking lanes are those not ready |
| `BriefingLanes.ValidateLaneManifest` | scripts/daily_briefing_receipts.py:239-419 | A manifest is valid exactly when the expected lanes report once each with receipts that fit; each error about the lists as a whole is reported exactly when it holds; the blocking lanes are exactly those not ready or missing; a valid manifest is ready if and only if all receipts are; the envelope holds the receipts by lane |
| `BriefingLanes.ReceiptFitsIff` | scripts/daily_briefing_receipts.py:279-355 | A receipt fits if and only if it was observed inside the window, is retained beyond that, and reports the result or the reason its status asks for |
| `BriefingLanes.EnvelopeIgnoresOrder` | scripts/daily_briefing_receipts.py:384-391 | Permuting the receipts of a valid manifest changes neither its validity nor the envelope |
| `Publication.CheckTopology` | scripts/publish_hypesiege_streempilot_fleet.py:287-312 | The check passes exactly when names are unique and each organization has one monorepository, correctly named and last |
| `Publication.TopologyIff` | scripts/publish_hypesiege_streempilot_fleet.py:287-312 | The checks accept exactly the manifests without repeated names in which each of the two organizations has one monorepository, of the expected name, after all its other records |
| `Publication.ChildrenComeFirst` | scripts/publish_hypesiege_streempilot_fleet.py:301-312 | In an accepted manifest each monorepository comes after all other records of its organization |
| `Publication.GitHub.VerifyChildren` | scripts/publish_hypesiege_streempilot_fleet.py:762-778 | No refusal only if all children are published; without faults exactly then |
| `Publication.GitHub.EnsureRepository` | scripts/publish_hypesiege_streempilot_fleet.py:710-732 | Only an absent repository is created; mains are untouched; the result says whether it was created |
| `Publication.GitHub.PublishRecord` | scripts/publish_hypesiege_streempilot_fleet.py:839-872 | Whatever requests or replies are lost, only this record's repository changes, its main at most from absent to the sealed commit, and a monorepository only after all its children are published; success means published; each call meets some of the faults, so they run out, and without faults it succeeds exactly when children, settings and main allow |
| `Publication.PublishingKeepsSound` | scripts/publish_hypesiege_streempilot_fleet.py:839-872 | One call, however it ends, keeps: every main absent or sealed, and a published monorepository has all children published |
| `Publication.PublishInAnyOrder` | scripts/publish_hypesiege_streempilot_fleet.py:839-872 | So do any calls in any order over any faults; nothing published is ever taken back |
| `Publication.PublishFromEmpty` | scripts/publish_hypesiege_streempilot_fleet.py:839-872 | So it is after any calls in any order over any faults from the empty remote |
| `Publication.PublishFleet` | scripts/publish_hypesiege_streempilot_fleet.py:839-872 | Without faults, manifest order publishes the whole fleet from any sound remote; on a published fleet nothing is created or pushed |
| `IntakeCorpus.CheckItems` | scripts/prompt_intake_corpus.py:540-560 | The pass over the items, with its sets of what was seen, raises exactly when an item does not fit or repeats an identity; then its index holds each item under its issue |
| `IntakeCorpus.CheckBriefing` | scripts/prompt_intake_corpus.py:466-502 | No error exactly when the buckets repeat nothing, cover the issues, are disjoint, and split them by status |
| `IntakeCorpus.ValidateCorpus` | scripts/prompt_intake_corpus.py:505-596 | Validation raises exactly when the declarative description of a valid corpus fails |
| `IntakeCorpus.ItemFitsIff` | scripts/prompt_intake_corpus.py:307-402 | An item fits if and only if decision, exclusion and duplicate target are those of its status, it was observed by the cutoff and recorded no earlier, and both retentions are exact |
| `IntakeCorpus.DuplicatesNameOthers` | scripts/prompt_intake_corpus.py:563-567 | In a valid corpus exactly the duplicates name a target, and it is another item of the corpus |
| `IntakeCorpus.DeltaAcceptedIff` | scripts/prompt_intake_corpus.py:729-752 | A post-cutoff item is accepted if and only if the corpus is valid, the item was observed after the cutoff, amends a live issue, keeps the retentions, and its fixture, issue and source are new |
| `IntakeCorpus.DeltaIsTheDifference` | scripts/prompt_intake_corpus.py:729-766 | The reported post-cutoff delta is the difference between the counts derived with and without the item |
| `IntakeCorpus.MergedIsValidIff` | scripts/prompt_intake_corpus.py:729-766 | An accepted item can be taken over into a valid corpus, with its delta added to the counts and its issue to a bucket, if and only if its operation id is new too |
| `IntakeCorpus.SharedOperationIsAccepted` | scripts/prompt_intake_corpus.py:738-752 | Acceptance does not compare operation ids: in any corpus a new item under a known operation id is accepted but cannot be taken over |
| `IntakeCorpus.IgnoreIsReferenceOnly` | scripts/prompt_intake_corpus.py:466-502 | In a valid corpus the ignore bucket holds exactly the reference-only issues and the other two exactly the live ones |
| `IntakeCorpus.CountsAreCoherent` | scripts/prompt_intake_corpus.py:273-292 | Live and reference-only items add up, exactly the live ones amend, none is created, and exclusion reasons match statuses one for one |
| `IntakeCorpus.ReceiptsOutliveSources` | scripts/prompt_intake_corpus.py:373-402 | At any time an expired receipt implies that its source is expired, so receipts purged <= sources purged |
| `IntakeCorpus.PurgedAtAge` | scripts/prompt_intake_corpus.py:777-800 | In a valid corpus a source is purged exactly at the age of the source retention, counted in days from its observation, and a receipt at that of the receipt retention from its record |
| `IntakeCorpus.PurgesGrow` | scripts/prompt_intake_corpus.py:777-800 | Both purge counts only grow with time |
| `IntakeCorpus.PurgeRetainedMetadata` | scripts/prompt_intake_corpus.py:777-829 | An invalid corpus is refused; the purge of a valid one lists every item, purges exactly what expired, and counts no more receipts than sources |
| `IntakeCorpus.PercentilesRise` | scripts/prompt_intake_corpus.py:599-602 | Percentiles are samples, rise with their fraction, and lie between the smallest and the largest sample |
| `IntakeCorpus.PercentileIsNearestRank` | scripts/prompt_intake_corpus.py:599-602 | For a fraction above 0 and up to 1, at least that fraction of the samples is at most the percentile and less than that fraction lies below it |

## Left out

- Fabrication, Atomicity: identifier and digest shapes, the model version and the hash fields of receipts; a receipt holds the states themselves.
- Fabrication.RunScenario: on a state that fails its own check an attempt returns an error result where the program raises; no run reaches such a state.
- Atomicity.RunScenario: likewise.
- Fixtures: scenario ids, size limits and the fixture file's own structure; an expected error text is a predicate on errors.
- ContractModel: the JSON snapshot of the store; the range of random values.
- ReplayProtection: HMAC and the byte encoding of the signed message.
- Supervisor: the refinement check against the production pool, whose module is not part of this model.
- RemediationQueue.FindingErrors: categories, evidence, owner and remediation fields, text and digest shapes; findings arrive typed.
- RemediationQueue.CheckRecords: what the one before leaves out, and the repository inventory.
- RemediationQueue.Validate: what the two leave out, schema keys, the baseline and its times, and the safety flags.
- Digests.ValidateOpportunities: the time window of items, source, policy and type values, compensation and fit lists; the fit score is a number.
- Digests.ValidateResearch: dates, source kind, status, themes, claims and the descriptive fields of an item.
- Ledger.CheckSegments: receipt types, anchors and assertion digests of segments.
- Ledger.CheckWorkstreams: titles, priorities, statuses, acceptance checks and the uniqueness of GitHub and Linear anchors.
- Ledger.Validate: what the two leave out, schema keys, the window's text fields and the safety flags.
- BriefingLanes.ValidateLaneManifest: a lane's commit, schema and cursor fields, text shapes, safety flags, and the manifest and envelope digests.
- Publication.CheckTopology: the expected fleet totals and organization counts, record shapes and manifest metadata.
- Publication: HTTP, git and token handling, certification of the local repository; pushing is modelled as git refuses it, without force.
- IntakeCorpus: relation cases, telemetry labels and the public-safety walk; `Valid` holds the other checks. Percentile fractions are exact reals.
- The upgrade model, the audit scripts, the release manifest, the migration plans and the site generators: case splits and text without properties over runs.
