# Verification of the autodev platform core

A Dafny model of the stateful core of the autodev platform, with proofs about whole runs of it:

- **Flows** (`Documents`, `FlowExpressions`, `FlowModel`, `FlowReplay`, `FlowVisibility`, `FlowRuns`, `FlowEngine`,
  `FlowLostEvent`, `FlowOutput`, `FlowBudgets`, `FlowFanOut`): the engine that executes a manifest with
  retries and checkpoints, dies at any write and is resumed; the replay that verifies a finished run from
  its rows; budgets down nested runs; and the map node's shared reservations.
- **Agents** (`AgentRuntime`): guardrails around a handler that may swallow budget errors.
- **Events** (`EventStore`, `EventReconstruction`, `EventBus`): the append-only log and its projections,
  compaction, run reconstruction, and the trimmed in-memory bus.
- **Coordination** (`LockLeases`, `Decisions`): lock leases and human decisions under every interleaving.
- **Policy** (`Policy`, `Dispatch`): rule selection and the gate in front of the action runner.
- **Resources** (`ArtifactGc`, `EnvironmentPool`): garbage collection racing writers, and the bounded pool
  of environments.
- **Evals** (`EvalExpressions`, `EvalMetrics`): gate expressions, percentiles and judge scores.

Objects that the source updates in place are classes whose methods are proved equal to functions of the
old state; interleavings are state machines whose runs are sequences of steps; external calls (handlers,
clocks, backends, the process dying) are nondeterministic choices, so each theorem holds for all of them.

## What does not hold of the code, and exactly when it does

- A resumed run does not always replay as deterministic. If the process once died between a checkpoint and
  its `run.step.completed` event, and a loop later brings the cursor back to that node, resume takes the old
  step for a crash window and skips the visit the run still owes (`FlowLostEvent.FixLoopSkipsVisit`).
  `FlowEngine.Engine.ResumeRun` proves the exact condition, `Recovers`, readable from the rows beforehand, for
  every run however often it was resumed before, and also after an earlier resume skipped a visit and died.
  The first resume of a run always recovers (`FlowEngine.Engine.RunAndResumeOnce`): only a later one can skip.
- The run output is that of the completed node *declared* last; the documentation says the last one
  completed. They coincide for every output exactly when no other completed node is declared later
  (`FlowOutput.LastCompletedWins`).
- A completed agent run's timeline is as long as its ledger exactly when its handler recorded no step while
  over budget, which no handler with non-negative consumption does (`AgentRuntime.HonestTimelineMatches`). One
  that reports negative consumption can (`AgentRuntime.NegativeConsumptionHidesRefusal`).
- A remaining-budget cap is within the parent's budget exactly when that budget is not negative
  and the parent has neither un-spent cost nor gained back a whole token or second
  (`FlowBudgets.ChildCapWithin`).
- An attempt waits the documented exponential delay exactly when it is among the first 64, the initial delay
  is zero, or 63 doublings already reach the hour (`FlowBudgets.BackoffIsDocumented`).
- The view rebuilt from the log and the projection disagree on a run's status exactly when the last
  status-bearing event is a run completion whose payload says something else
  (`EventReconstruction.ReconstructionMatchesProjection`).
- Sequence numbers are not stable under compaction: a completed run whose only event is purged is numbered
  from 1 again (`EventStore.NumberingCanRestart`). A partition's next event follows all it ever accepted
  exactly when no purge removed its newest row (`EventStore.NumberingContinuesExactly`).
- Interleaved, a human resolution can be written at or after its deadline (`Decisions.LateApprovalIsPossible`):
  exactly when the clock crosses the deadline between its read and its write (`Decisions.LateExactly`).
- Interleaved, two requests for one task can both insert (`Decisions.DuplicateRequestsArePossible`). Once all
  requests have finished, each task has one decision exactly when no two requests for it overlapped
  (`Decisions.UniqueExactlyWithoutOverlap`).
- The collector is safe against writers exactly when record delay plus reference lag is *strictly* below the
  retention window; equality already loses an object (`ArtifactGc.SafeExactly`).
- Tearing an environment down again is documented as a no-op on the record; the update overwrites the earlier
  terminal status and time (`EnvironmentPool.EnvironmentManager.ReapThenTeardown`). It is a no-op exactly when
  it writes what is already there (`EnvironmentPool.MarkingAgainIsNoOpExactly`).
- Denying all actions fails the outcome even when there are none (`Dispatch.TaskExecutor.DenyAll`).
- A chained comparison can have a value where the written-out conjunction raises
  (`EvalExpressions.ChainSkipsComparisons`); the two are equal exactly when every adjacent pair of operands can
  be compared (`EvalExpressions.ChainIsConjunctionExactly`).
- A field added to a mapping can change a check that uses the mapping itself
  (`EvalExpressions.FreshFieldCanChangeResult`).

## Model

| member | source | states |
|---|---|---|
| Documents.RoundTripYieldsJson | backend/flows/checkpoint.py:100-124 | Whatever survives canonicalisation of a node output is a JSON document |
| Documents.RoundTripFixpoint | backend/flows/checkpoint.py:100-124 | Canonicalisation is the identity exactly on JSON documents, so a stored output reads back unchanged and only those do |
| Documents.EqualityMeans | backend/flows/checkpoint.py:287-291 | The equality replay compares inputs with: containers part by part, kinds apart, booleans only as 0 and 1 |
| Documents.TruthMeans | backend/flows/expressions.py:377-379 | The false values are exactly null, false, zero and everything empty |
| FlowExpressions.EvaluateJson | backend/flows/expressions.py:344-374 | Expressions over a JSON state yield JSON values |
| FlowExpressions.RenderJson | backend/flows/expressions.py:406-435 | Rendered bindings over a JSON state are JSON documents, so a step row stores exactly what the handler got |
| FlowExpressions.OperatorsMean | backend/flows/expressions.py:344-374 | What equality, negation and the short-circuiting connectives yield, and that a failing operand fails a comparison |
| FlowExpressions.OrderingsMean | backend/flows/expressions.py:344-374 | Orderings compare numbers and booleans as numbers and fail on anything else |
| FlowExpressions.IndexingMeans | backend/flows/expressions.py:318-341 | An index counts from either end of a list, and a missing one is null |
| FlowExpressions.InterpolationConcatenates | backend/flows/expressions.py:406-435 | Interpolating a text concatenates what its parts give and fails if one fails |
| FlowExpressions.RendersPartByPart | backend/flows/expressions.py:406-435 | Rendering keeps the shape of a binding and renders each part of it |
| FlowModel.RoutingRule | backend/flows/checkpoint.py:146-190 | Routing in declarative form: the first predicate edge that fires or fails decides, else the first unguarded edge, else a halt exactly for terminal or signal-only nodes, else no route |
| FlowModel.SelectNextIsDeclared | backend/flows/checkpoint.py:146-190 | Routing never leaves the declared graph |
| FlowModel.EdgesConcatenate | backend/flows/model.py:273-282 | The edges of a node are taken edge by edge in declaration order |
| FlowModel.EntryNodeIsDeclared | backend/flows/model.py:284-297 | The entry node is a declared node that lookup by id finds |
| FlowModel.EntryNodeExactly | backend/flows/model.py:284-297 | A node no edge leads to is the entry node if and only if it is the only one |
| FlowModel.NoEntryNode | backend/flows/model.py:284-297 | Without such a node there is no entry node |
| FlowOutput.FinalOutput | backend/flows/checkpoint.py:193-212 | The loop returns the output of the completed node declared last, or an empty document |
| FlowOutput.LastCompletedWins | backend/flows/checkpoint.py:193-212 | The documented rule (the last completed node wins) holds for every output if and only if no other completed node is declared after it |
| FlowReplay.CheckStep | backend/flows/checkpoint.py:259-294 | A recorded step draws no divergence exactly when the derived cursor is its node and its input equals the re-rendered one; only an input mismatch lets the walk go on |
| FlowReplay.NoLegalPathThrough | backend/flows/checkpoint.py:299-323 | A routing failure in mid-trace, or one the record does not show, is on no decision path |
| FlowReplay.WalkStep | backend/flows/checkpoint.py:258-323 | One iteration keeps the walk's meaning: derived outputs, route and divergences are those of the prefix read so far |
| FlowReplay.WalkTrace | backend/flows/checkpoint.py:258-323 | The loop finds no divergence exactly when the recorded steps form a decision path, and folds up exactly their outputs |
| FlowReplay.ReplayDecisionPath | backend/flows/checkpoint.py:215-340 | The verdict is exact: deterministic if and only if the completed steps form a legal decision path that stops at the recorded cursor or at the recorded routing failure |
| FlowVisibility.SeesOutput | backend/flows/checkpoint.py:127-143 | `nodes.<id>.output` is what the node returned, at any depth, and null for a node that has not completed |
| FlowVisibility.SeesInput | backend/flows/checkpoint.py:127-143 | `flow.input` is the input of the run, at any depth |
| FlowVisibility.FoldKeepsLatest | backend/flows/checkpoint.py:295-297 | Folding a path keeps the output of the latest step of each node |
| FlowVisibility.FoldHasOnlySteps | backend/flows/checkpoint.py:295-297 | And holds nothing for a node without a step |
| FlowVisibility.ReadsLatestOutput | backend/flows/checkpoint.py:295-301 | After any path, a field of a node output evaluates to that field of the latest completed output of the node |
| FlowVisibility.EdgeReadsLatestOutput | backend/flows/checkpoint.py:146-190 | An edge guarded by such a field fires if and only if the latest completed output has a truthy value there, and never fails |
| FlowVisibility.RouteReadsLatestOutput | backend/flows/checkpoint.py:146-190 | A node that branches on such a field, with a default edge, goes where its latest output says |
| FlowVisibility.InputReadsLatestOutput | backend/flows/activation.py:109-125 | A step input has exactly the bindings of its node, and one bound to such a field holds its latest value |
| FlowVisibility.MapInputIsEmpty | backend/flows/activation.py:109-113 | The step input of a map node is empty |
| FlowRuns.FaithfulReplays | backend/flows/checkpoint.py:215-340 | A terminal run with faithful rows replays, and the fold of its steps is its checkpointed node outputs |
| FlowRuns.DivergedNeverReplays | backend/flows/checkpoint.py:325-340 | A terminal run whose rows left the decision path never replays as deterministic |
| FlowRuns.CompleteOpensWindow | backend/flows/activation.py:251-263 | Committing a completed step extends the decision path by one and opens the crash window |
| FlowRuns.CheckpointSettles | backend/flows/activation.py:262-288 | The checkpoint written after a successful route makes the state exactly what the completed steps give |
| FlowRuns.FailureSettles | backend/flows/activation.py:264-284 | A routing failure fails the run at the very decision replay will meet |
| FlowRuns.ReconcileStaysFaithful | backend/flows/engine.py:326-401 | Folding an unrouted step back keeps a live run faithful unless it skips a visit |
| FlowRuns.SkippedVisitDiverges | backend/flows/engine.py:348-385 | If it does skip one, the run's rows leave the decision path |
| FlowRuns.ReconcileDiverged | backend/flows/engine.py:348-385 | On an already diverged run, recovery leads back to the decision path exactly if the steps are still one and re-routing finds where they lead; otherwise the run stays diverged |
| FlowRuns.AnnouncedRecovers | backend/flows/engine.py:348-365 | A run that lost at most the completion event of its last step recovers |
| FlowEngine.StepInputIsStored | backend/flows/activation.py:109-127 | A step row holds the very input the handler was given |
| FlowEngine.InterruptKeepsRows | backend/flows/engine.py:262-288 | Every orphaned attempt is marked failed, and nothing that replay or a recovery decision reads changes |
| FlowEngine.ReconcileStands | backend/flows/engine.py:348-401 | Whatever rows a live run has, folding back its unrouted step, or failing on its route, leaves it standing as `Recovers` says |
| FlowEngine.StandingDecidesReplay | backend/flows/engine.py:290-324 | A terminal run replays exactly if it stands faithful, and then from the outputs it checkpointed |
| FlowEngine.Engine.constructor | backend/flows/engine.py:108-197 | A new run starts on the decision path at the entry node of its manifest, with nothing spent |
| FlowEngine.Engine.TryOnce | backend/flows/activation.py:130-195 | An attempt adds one row with its number and closes it unless the handler returned; an exception is a node failure unless it says unsupported or over budget |
| FlowEngine.Engine.BackOff | backend/flows/activation.py:196-240 | Unsupported-node and budget failures, and the last allowed attempt, end the run with their reason; any other failure is retried unless its backoff would pass the deadline |
| FlowEngine.Engine.RunAttempts | backend/flows/activation.py:128-245 | At most max(maxAttempts, 1) rows, numbered 1, 2, 3 and so on; each retry follows one backoff and none ends past the deadline; a retryable failure below the limit ends the run only if its backoff would overrun |
| FlowEngine.Engine.RouteAndCheckpoint | backend/flows/activation.py:262-309 | Closing the crash window leaves faithful rows wherever the process dies in it, stores the charged metrics, and announces the step exactly if it gets to the end |
| FlowEngine.Engine.CompleteAttempt | backend/flows/activation.py:262-309 | A completed step stores the canonical output of its handler, and the checkpoint is charged exactly the tokens and cost the handler reported |
| FlowEngine.Engine.FinishActivation | backend/flows/activation.py:251-309 | Recording a successful attempt keeps the standing of the run through every write, charges exactly what the handler reported, and fails the run on an output JSON refuses |
| FlowEngine.Engine.ActivateNode | backend/flows/activation.py:73-309 | An activation, with its retries, failures and crashes, keeps the standing of the rows and every earlier row; if it goes on, one step was completed, charged and announced; a binding that fails to render ends the run before any attempt |
| FlowEngine.Engine.RunLoop | backend/flows/engine.py:405-487 | A session ends terminal, paused or crashed with its standing kept; the checkpointed metrics grew by exactly what its handlers reported, no activation began over budget, and a completed run summed up within its token, cost and time budgets, one reported usage per completed step |
| FlowEngine.Engine.Conclude | backend/flows/engine.py:453-469 | A finished walk succeeds exactly within its budgets, and otherwise stops as over budget |
| FlowEngine.Engine.FailRun | backend/flows/engine.py:489-523 | A failing run stores its reason and state, or dies before the write and stores nothing |
| FlowEngine.Engine.ReconcileCrashWindow | backend/flows/engine.py:326-401 | From any rows a run can have, the run is on its decision path after recovery exactly if `Recovers` says so; a crash before its first write leaves the rows untouched |
| FlowEngine.Engine.ResumeRun | backend/flows/engine.py:241-288 | From any rows a run can have, faithful or diverged by earlier resumes: if it ends it replays as deterministic if and only if its rows recover, and if it dies it stands as that says or still has the rows it was resumed from; no interrupted attempt is left running, and metrics grow by what its handlers reported |
| FlowEngine.Engine.ReplayRun | backend/flows/engine.py:290-324 | The report of a terminal run is deterministic exactly when its rows replay |
| FlowEngine.Engine.RunAndResumeOnce | backend/flows/engine.py:199-288 | However the first session of a run dies, its first resume recovers: if it ends, it replays as deterministic |
| FlowEngine.Engine.RunAndReplay | backend/flows/engine.py:199-324 | A run that executes, crashes at any write and is resumed any number of times, skipping visits or not, ends with a deterministic replay if and only if it was never resumed or the rows of its last resume recovered; replay then rebuilds its checkpoint |
| FlowLostEvent.VisitSettles | backend/flows/activation.py:251-309 | One uneventful activation, with or without its completion event, leaves a settled run settled |
| FlowLostEvent.ResumeCanSkipVisit | backend/flows/engine.py:348-385 | For every flow that loops through a fix node there are faithful rows on which resume skips a visit |
| FlowLostEvent.FixLoopSkipsVisit | backend/flows/engine.py:348-385 | A concrete manifest on which it happens |
| FlowBudgets.MergeIsMeet | backend/flows/budgets.py:17-31 | Merging budgets is their greatest lower bound |
| FlowBudgets.CapRoundTrip | backend/flows/budgets.py:34-69 | A cap survives the state document unchanged |
| FlowBudgets.MissingDimensions | backend/flows/budgets.py:50-69 | A dimension a stored cap lacks takes its default, and no stored cap means none |
| FlowBudgets.ResumeEnforcesCap | backend/flows/budgets.py:72-97 | A run started with a cap enforces the same limits however often it is resumed |
| FlowBudgets.EffectiveIsMeet | backend/flows/budgets.py:72-97 | The effective budget is the loosest within the manifest, the persisted cap and the given cap |
| FlowBudgets.LooserBudgetAdmits | backend/flows/budgets.py:100-134 | A session within a strict budget is within every looser one |
| FlowBudgets.ChildCapWithin | backend/flows/composite.py:138-180 | When a remaining-budget cap is within the parent's budget, as an if-and-only-if |
| FlowBudgets.ChildCapIsRemaining | backend/flows/composite.py:138-180 | A child allowance fits under the cap if and only if the parent can grant it without going over, in tokens, cost and time |
| FlowBudgets.SpawnedWithin | backend/flows/composite.py:158-258 | A child spawned under any cap within the remaining budget has an effective budget at most its parent's |
| FlowBudgets.NestedBudgetsShrink | backend/flows/budgets.py:17-97 | Down any chain of nested runs, subflows and map branches alike, a descendant's effective budget is at most every ancestor's in every dimension |
| FlowBudgets.BackoffGrows | backend/flows/checkpoint.py:79-97 | Backoff never shrinks between attempts, and exponential delays never exceed the hour cap |
| FlowBudgets.BackoffIsDocumented | backend/flows/checkpoint.py:79-97 | The documented exponential delay is what an attempt waits if and only if the exponent clamp does not bite |
| FlowBudgets.FixedBackoffIsConstant | backend/flows/checkpoint.py:79-97 | Fixed backoff always waits the initial delay |
| FlowFanOut.FittingNeverBreaches | backend/flows/composite.py:400-412 | As long as usage plus reservations fit, the check on finished branches alone never fires |
| FlowFanOut.ShareFits | backend/flows/composite.py:438-456 | An even share is never negative and a pool that fits still fits after granting it |
| FlowFanOut.ShareIsEven | backend/flows/composite.py:438-456 | The branches that can run together share out the whole remaining cost, and each the remaining tokens but for less than one |
| FlowFanOut.BranchIsSpawned | backend/flows/composite.py:438-475 | A map branch's cap is within the remaining budget a subflow would get, so a branch is a spawned child in every budget chain |
| FlowFanOut.BranchCapIsReserved | backend/flows/composite.py:451-458 | A branch runs under exactly what the pool reserves for it |
| FlowFanOut.Branches | backend/flows/composite.py:450 | The budget is divided among the branches that can run together: the pool size or the items left, whichever is less |
| FlowFanOut.LaunchKeepsBooks | backend/flows/composite.py:414-478 | Launching keeps the reservation total equal to the sum of the running grants |
| FlowFanOut.SettleKeepsBooks | backend/flows/composite.py:482-496 | Settling returns the grant, charges the usage, and keeps both running totals exact and within budget |
| FlowFanOut.Fill | backend/flows/composite.py:416-478 | Launching stops only at the pool size, the last item or a breach, and a pool that fits never breaches |
| FlowFanOut.Collect | backend/flows/composite.py:480-496 | Collecting any set of finished branches, in any order, settles exactly those |
| FlowFanOut.MapHandler | backend/flows/composite.py:333-505 | For every interleaving of launches and completions: started within budget, it reports no breach; on success each item has its own child in item order and the aggregate charge stays within the parent's budget |
| AgentRuntime.CompletedExactlyWithinLimits | backend/agents/runtime.py:527-645 | Exactly when a run reports completed, for every handler script; in particular only with every enforced dimension within its limit |
| AgentRuntime.CallCharges | backend/agents/runtime.py:139-187 | A call adds to the ledger exactly what it reports, field by field, and raises a breach if and only if some field then passes its limit; only a failed model call charges nothing |
| AgentRuntime.CallReaches | backend/agents/runtime.py:244-332 | A tool or skill call is brokered exactly if its charge is within budget, and a step is on the timeline exactly if it was not refused |
| AgentRuntime.LedgerIsTotal | backend/agents/runtime.py:139-187 | For every script the ledger is the sum of what the calls it made reported, swallowed exceptions or not |
| AgentRuntime.CompletedReportsWithinLimits | backend/agents/runtime.py:527-619 | A completed run reported, over its whole script and in each of tokens in, tokens out, cost, tool calls and steps, no more than that limit |
| AgentRuntime.HandlerEndsRun | backend/agents/runtime.py:527-645 | A run whose handler does not return an object is interrupted exactly by a breach, and failed by any other exception, a non-object or an invalid input |
| AgentRuntime.OutputEndsRun | backend/agents/runtime.py:585-619 | An invalid output fails a run, a guardrail blocks it and otherwise it completes, unless recording that is over budget |
| AgentRuntime.BrokeredCallsAreBounded | backend/agents/runtime.py:276-332 | No script, even one swallowing budget errors, gets more tool and skill calls brokered than its budget grants |
| AgentRuntime.BreachIsFinal | backend/agents/runtime.py:139-187 | With non-negative consumption a breach is never undone, and nothing after it is brokered or recorded |
| AgentRuntime.NothingBrokeredAfterBreach | backend/agents/runtime.py:276-332 | The calls brokered in a whole honest run are those brokered before its first breach |
| AgentRuntime.StepsAreAccounted | backend/agents/runtime.py:244-274 | Ledger steps are timeline steps plus refused ones, for every script |
| AgentRuntime.RefusedExactly | backend/agents/runtime.py:244-274 | A script has no refused step exactly when no step it reaches is over budget when recorded |
| AgentRuntime.TimelineMatchesLedger | backend/agents/runtime.py:244-274 | A completed run's timeline is as long as its ledger if and only if its handler recorded no step while over budget |
| AgentRuntime.HonestTimelineMatches | backend/agents/runtime.py:543-619 | A completed run with non-negative consumption has as many timeline steps as ledger steps |
| AgentRuntime.NegativeConsumptionHidesRefusal | backend/agents/runtime.py:139-187 | A script with negative consumption that completes with a step missing from its timeline |
| AgentRuntime.RuntimeContext.Consume | backend/agents/runtime.py:139-163 | Every amount lands on the ledger whether or not it breaks the budget, steps are untouched, and a breach is raised exactly if a limit is now exceeded |
| AgentRuntime.RuntimeContext.Record | backend/agents/runtime.py:244-274 | Recording a step charges the ledger first and appends to the timeline only if that was not refused |
| AgentRuntime.RuntimeContext.BrokerCall | backend/agents/runtime.py:276-332 | A brokered call is charged before it happens and recorded after |
| AgentRuntime.RuntimeContext.InvokeHandler | backend/agents/runtime.py:621-645 | Running a handler in place equals the script semantics the lemmas speak of |
| AgentRuntime.RuntimeContext.ExecuteAgent | backend/agents/runtime.py:527-619 | The imperative execution refines the specification, so every lemma about runs holds of it |
| EventStore.EveryHistoryIsConsistent | backend/events/store.py:81-201 | After any appends, rejected duplicates and purges, each projection is the fold of its partition's full history, retained sequences are unique and increasing, and uncompacted logs are complete |
| EventStore.ProjectionFollowsLifecycle | backend/events/records.py:18-35 | After every history a projection says failed, completed or waiting_human exactly if the last lifecycle event is a run failure, a run completion or a human request, and running after any other |
| EventStore.ProjectionStartsEmpty | backend/events/store.py:140-201 | It is empty while a partition has had no lifecycle event |
| EventStore.AppendKeepsConsistent | backend/events/store.py:81-201 | An append extends the log by the next sequence and the projection by one fold step |
| EventStore.PurgeKeepsConsistent | backend/events/store.py:372-417 | A purge changes no fold |
| EventStore.PurgeIsCompaction | backend/events/store.py:372-417 | A purge removes exactly the old events of terminal partitions and alters no projection and no active partition |
| EventStore.PurgeRemovesExactly | backend/events/store.py:372-417 | After every history a purge removes a row if and only if it is old and the last lifecycle event of its partition is a run completion or a run failure |
| EventStore.NumberingContinuesExactly | backend/events/store.py:94-104 | After any appends and purges, a partition's next event gets the number after all it ever accepted if and only if no purge removed its newest row |
| EventStore.LagGrows | backend/events/store.py:372-417 | Numbering never runs ahead of the history, and one operation sets it back exactly if it purges the newest row |
| EventStore.NumberingCanRestart | backend/events/store.py:94-104 | A reachable log of a completed run whose next event is numbered 1 again |
| EventStore.Store.AppendEvent | backend/events/store.py:81-138 | A duplicate id changes nothing; a new event is stored with its projection as the specification says |
| EventStore.Store.PurgeExpired | backend/events/store.py:372-417 | The count is what was deleted; a negative retention deletes nothing |
| EventReconstruction.ReconstructRun | backend/events/store.py:289-368 | The loop computes the fold the lemmas speak of |
| EventReconstruction.StatusAgrees | backend/events/store.py:307-368 | When the rebuilt status equals the folded one, as an if-and-only-if on the last status-bearing event |
| EventReconstruction.ReconstructionMatchesProjection | backend/events/store.py:289-368 | The same for the stored projection of every uncompacted partition after every history |
| EventReconstruction.StepsFollowTheLog | backend/events/store.py:318-360 | Steps rebuilt from an increasing log have strictly increasing sequences |
| EventReconstruction.EveryViewIsOrdered | backend/events/store.py:318-360 | After every history of appends and purges, the steps rebuilt for a partition have strictly increasing sequences |
| EventReconstruction.OpenIsTracked | backend/events/store.py:318-360 | The open-step index points at the latest start of each key |
| EventReconstruction.RunningMeansUnfinished | backend/events/store.py:318-360 | A step is left running if and only if no end event for its key comes before that key's next start |
| EventReconstruction.ClosedShowsLastEnd | backend/events/store.py:331-350 | A step shows the attempt and status of the last event that ended it: failed, or what the completion reported, completed by default |
| EventReconstruction.OrphanEndAddsStep | backend/events/store.py:331-350 | An end event of a key that never started adds a step of its own |
| EventBus.InMemoryEventBus.Publish | backend/events/bus.py:139-160 | A partition always holds the last cap events of all ever published, with their original numbers |
| EventBus.InMemoryEventBus.ReplayFrom | backend/events/bus.py:177-202 | A replay returns the window strictly after the cursor |
| EventBus.WindowSlides | backend/events/bus.py:139-160 | Append and trim slide the window over the full history by one |
| EventBus.ResumedReplay | backend/events/bus.py:177-202 | A consumer resuming at its position gets all it has not read, or only the window if it fell further behind |
| EventBus.EveryScheduleFollows | backend/events/bus.py:139-202 | Over every schedule of publishes and polls, a consumer never more than the cap behind receives every event exactly once in order; one that was receives strictly fewer |
| LockLeases.LocalLockManager.Acquire | backend/coordination/redis.py:178-190 | Acquisition succeeds exactly on a free or expired entry, judged by the earlier clock read |
| LockLeases.LocalLockManager.Renew | backend/coordination/redis.py:192-206 | Renewal succeeds exactly for the owner and moves only its expiry |
| LockLeases.LocalLockManager.Release | backend/coordination/redis.py:208-219 | Release succeeds exactly for the owner and frees only its entry |
| LockLeases.EveryRunIsSound | backend/coordination/redis.py:162-245 | In every interleaving a lease that believes it holds a name owns its entry with the expiry it recorded |
| LockLeases.MutualExclusion | backend/coordination/redis.py:178-219 | Two leases never both believe they hold one name before their recorded expiry, with the clock read outside the mutex |
| LockLeases.AcquiresExactlyWhenFree | backend/coordination/redis.py:178-190 | In every interleaving an acquisition made now succeeds if and only if no lease believes it holds the name |
| LockLeases.EveryRunIsRecorded | backend/coordination/redis.py:178-219 | In every interleaving each table entry belongs to a lease on that name that recorded its expiry |
| LockLeases.RenewalLasts | backend/coordination/redis.py:192-206 | A renewed lease lasts the requested time from now, or its own if none or zero is asked |
| LockLeases.OthersAreUndisturbed | backend/coordination/redis.py:192-219 | Renewing or releasing leaves every other entry and owner alone |
| Decisions.DecisionService.CompareAndSet | backend/execution/policy.py:516-527 | The conditional update writes only a pending row |
| Decisions.DecisionService.ExpireDue | backend/execution/decisions.py:167-199 | A sweep times out exactly the due decisions, one event each |
| Decisions.DecisionService.Resolve | backend/execution/decisions.py:127-165 | A resolution succeeds exactly for a pending decision of the tenant before its deadline, and is stamped with that time |
| Decisions.DecisionService.Request | backend/execution/decisions.py:69-120 | A task keeps at most one decision per run, timed out if overdue |
| Decisions.EveryInterleavingIsSound | backend/execution/decisions.py:127-214 | Split at read, write and emit: every resolved decision has exactly one event, sent or due, carrying its final status |
| Decisions.ResolvedIsFinal | backend/execution/policy.py:516-527 | A decision that left pending never changes again, whatever happens next |
| Decisions.QuiescentEvents | backend/execution/decisions.py:147-214 | Once all calls have finished, resolved decisions and emitted events correspond one to one |
| Decisions.QueuedWasReadInTime | backend/execution/decisions.py:147-152 | In every interleaving, each human write still queued was read before its decision's deadline |
| Decisions.LateExactly | backend/execution/decisions.py:147-155 | In every interleaving a human resolution was read before its deadline, and is written late if and only if the clock crossed the deadline between that read and its write |
| Decisions.LateApprovalIsPossible | backend/execution/policy.py:516-527 | An interleaving in which a human resolution is written at or after the deadline |
| Decisions.DuplicateRequestsArePossible | backend/execution/decisions.py:97-120 | An interleaving in which one task gets two decisions |
| Decisions.DisjointRequestsStayUnique | backend/execution/decisions.py:97-120 | Requests for a task that do not overlap keep it at one decision, queued or stored, at every moment of every interleaving |
| Decisions.UniqueExactlyWithoutOverlap | backend/execution/decisions.py:97-120 | Once every request has finished, each task has one decision if and only if no two requests for it overlapped |
| Policy.SelectionIsTiered | backend/execution/policy.py:670-710 | Score-and-max selection equals the tiered rule: any matching grant allows, else patterned rules with deny winning, else category-wide ones likewise, else unmatched |
| Policy.OrderIsIrrelevant | backend/execution/policy.py:670-710 | Reordering rules or grants changes no decision |
| Policy.FirstRuleReplacesDefault | backend/execution/policy.py:568-599 | The first stored rule replaces the permissive default, so what it does not cover becomes unmatched |
| Policy.GrantAllows | backend/execution/policy.py:366-386 | A matching grant overrides every static rule of its tenant |
| Policy.RevokeRestores | backend/execution/policy.py:388-397 | Revoking a grant, whatever was granted before and since, leaves the table as if it had never been made, and with it every decision of every tenant |
| Policy.GrantsAreOwn | backend/execution/policy.py:344-364 | The grants of a tenant are exactly its own permission rows, read as allow rules |
| Policy.RulesAreOwn | backend/execution/policy.py:303-320 | The rules of a tenant are exactly its own rows |
| Policy.RevokesExactly | backend/execution/policy.py:388-397 | A revocation removes the row with that tenant and id, and no other |
| Policy.MatchesWhatItCovers | backend/execution/policy.py:548-552 | Which rules match which actions, written out per kind of action and target |
| Dispatch.TaskExecutor.DispatchOne | backend/execution/executor.py:159-249 | One action through the gate: audited if evaluated, run if open, failed if denied |
| Dispatch.TaskExecutor.Dispatch | backend/execution/executor.py:133-249 | Each action is judged under the policy in force at its turn; results match actions one to one and in order, the logs gain exactly what the gates let through and evaluated, the outcome fails exactly when a result does, and only a missing policy stops it |
| Dispatch.TaskExecutor.DenyAll | backend/execution/executor.py:251-310 | Every action fails as denied, and the outcome fails even without actions |
| Dispatch.GateIsTiered | backend/execution/policy.py:635-668 | The gate is open exactly for pre-approved actions, without a policy, or when the tiered rule allows |
| Dispatch.GateExactly | backend/execution/policy.py:581-710 | The gate from the rows alone: missing exactly in production without own rules, open exactly if the own permissions, the own rules by tier or the default say so |
| Dispatch.TenantsAreIsolated | backend/execution/policy.py:344-364 | Policies that agree on the own rows of a tenant give it the same gate for every action |
| Dispatch.GrantsElsewhereChangeNothing | backend/execution/policy.py:366-397 | Granting to, or revoking from, another tenant changes no gate |
| Dispatch.DispatchedExactly | backend/execution/executor.py:159-249 | The runner sees an action exactly as often as it occurs behind an open gate |
| Dispatch.AuditedExactly | backend/execution/policy.py:635-668 | Every evaluated action leaves one audit row with its verdict, and there are no others |
| ArtifactGc.LocalArtifactStore.CleanupOrphaned | backend/artifacts/cleanup.py:156-201 | The sweep reports, once each, exactly the objects that are not referenced and at least that old; a real run removes exactly what a dry run on the same state reports |
| ArtifactGc.LocalArtifactStore.CleanupUnreferenced | backend/artifacts/cleanup.py:204-245 | The same against the pointer table; a negative retention touches nothing |
| ArtifactGc.CollectsTheGarbage | backend/artifacts/cleanup.py:185-201 | An interleaved sweep deletes exactly what the sweep loop counts as garbage |
| ArtifactGc.EveryRunIsSound | backend/artifacts/cleanup.py:185-245 | With delay plus lag below the retention, in every interleaving of writers and any number of collectors each pointer's object is present |
| ArtifactGc.ShortRetentionLoses | backend/artifacts/pointers.py:466-473 | For all other bounds, an interleaving that deletes an object whose pointer exists |
| ArtifactGc.SafeExactly | backend/artifacts/cleanup.py:185-245 | Any number of collectors are safe against writers if and only if record delay plus reference lag is below the retention window |
| EnvironmentPool.AgeingKeepsCeiling | backend/environments/store.py:182-203 | Retiring environments and letting time pass never adds live ones |
| EnvironmentPool.AdmissionKeepsCeiling | backend/environments/manager.py:164-202 | An admission that had room when counted keeps every tenant under the ceiling |
| EnvironmentPool.NeverOverCeiling | backend/environments/store.py:182-190 | Under the ceiling, no collection of active, unexpired environments of a tenant is larger |
| EnvironmentPool.FullMeansFull | backend/environments/manager.py:164-168 | A tenant refused for capacity has that many active, unexpired environments |
| EnvironmentPool.MarkingAgainIsNoOpExactly | backend/environments/store.py:192-203 | Retiring a record again changes nothing if and only if it has that very status and time |
| EnvironmentPool.LaterMarkWins | backend/environments/manager.py:420-446 | Of two teardowns the later one alone decides the record, and it shows unless status and time are the same |
| EnvironmentPool.EnvironmentManager.Provision | backend/environments/manager.py:131-202 | Provisioning reaps first, refuses exactly if the tenant is at its ceiling at the time it counts, fails exactly on a backend refusal or a taken id, and otherwise adds one active record |
| EnvironmentPool.EnvironmentManager.Teardown | backend/environments/manager.py:420-446 | Teardown retires at most the named environment, and a backend refusal leaves it alone |
| EnvironmentPool.EnvironmentManager.ReapThenTeardown | backend/environments/manager.py:420-474 | An environment that was reaped and is then torn down loses its orphaned status |
| EnvironmentPool.EnvironmentManager.ReapOrphans | backend/environments/manager.py:448-474 | Every active environment that expires by the cutoff is orphaned even if its backend refuses, none other changes, and no active one is left that expires by then |
| EnvironmentPool.EnvironmentManager.AnyRun | backend/environments/manager.py:131-474 | In every sequence of calls and clock ticks no tenant exceeds the ceiling and no retired environment becomes active again |
| EvalExpressions.EvalNode | backend/evals/expressions.py:62-119 | The recursive evaluator with its loops computes the eager semantics |
| EvalExpressions.EvalChain | backend/evals/expressions.py:93-103 | The chained-comparison loop evaluates every operand but skips comparisons after a false one |
| EvalExpressions.ComparisonsMean | backend/evals/expressions.py:24-31 | What the comparison operators mean: equality by kind, inequality its negation, the rest the ordering of Python |
| EvalExpressions.PathsMean | backend/evals/expressions.py:104-116 | The literals always mean themselves, names and attributes read the context, and whatever is missing raises |
| EvalExpressions.UnaryMeans | backend/evals/expressions.py:85-92 | Negation by truth value, and the signs on numbers and booleans only |
| EvalExpressions.ConnectivesMean | backend/evals/expressions.py:78-84 | A conjunction is true exactly if every operand is truthy, a disjunction exactly if some is |
| EvalExpressions.EagerAgreesWithLazy | backend/evals/expressions.py:62-119 | Whenever eager evaluation succeeds, short-circuit evaluation gives the same value |
| EvalExpressions.ChainIsConjunction | backend/evals/expressions.py:93-103 | A chain has the value of the conjunction of its adjacent pairs when that has one, and always its short-circuit value |
| EvalExpressions.ChainIsConjunctionExactly | backend/evals/expressions.py:93-103 | A chain with a value equals its written-out conjunction if and only if every adjacent pair of its operands can be compared |
| EvalExpressions.ChainSkipsComparisons | backend/evals/expressions.py:93-103 | A chain with a value whose written-out conjunction raises |
| EvalExpressions.FreshNamesAreIgnored | backend/evals/expressions.py:111-116 | A result is unchanged by names added to the context |
| EvalExpressions.FreshFieldsAreIgnored | backend/evals/expressions.py:104-116 | A result is unchanged by fields added anywhere in the context if mappings are used only to reach into them |
| EvalExpressions.FreshFieldCanChangeResult | backend/evals/expressions.py:85-87 | Without that condition an added field can flip a check |
| EvalMetrics.RoundIsMonotone | backend/evals/runner.py:327-341 | Half-even rounding is monotone |
| EvalMetrics.RankIsClosest | backend/evals/runner.py:327-341 | The rank is the sample index nearest the place of the fraction between first and last |
| EvalMetrics.PercentileExtremes | backend/evals/runner.py:327-341 | The fractions 0 and 1 give the least and the greatest sample |
| EvalMetrics.PercentileIsASample | backend/evals/runner.py:327-341 | A percentile is one of the samples |
| EvalMetrics.PercentileIgnoresOrder | backend/evals/runner.py:327-341 | Permuting the samples changes no percentile |
| EvalMetrics.PercentileIsMonotone | backend/evals/runner.py:327-341 | Percentiles grow with the fraction |
| EvalMetrics.PercentileCoversRank | backend/evals/runner.py:327-341 | More samples than the rank index lie at or below a percentile, and no smaller value has that many |
| EvalMetrics.MedianBelowTail | backend/evals/runner.py:303-324 | A run's median latency never exceeds its 95th percentile |
| EvalMetrics.Normalize | backend/evals/runner.py:169-191 | A normalised answer is a proportion, whatever the judge said |
| EvalMetrics.NormalizeMeans | backend/evals/runner.py:169-191 | An answer on the scale is placed where it lies between the ends, and one off it counts as the nearer end |
| EvalMetrics.MeanInUnit | backend/evals/runner.py:127-142 | A weighted mean with non-negative weights is a proportion |
| EvalMetrics.EqualAnswersScoreThat | backend/evals/runner.py:127-136 | Criteria that all score the same score that together, whatever their weights |
| EvalMetrics.Accumulate | backend/evals/runner.py:127-136 | The loop gives the normalised answers, their total weight and their weighted sum |
| EvalMetrics.JudgeScore | backend/evals/runner.py:127-142 | The accumulated score is a proportion, and for non-negative weights the final clamp changes nothing |
| EvalMetrics.BetterAnswerNeverHurts | backend/evals/runner.py:127-142 | With non-negative weights, better answers never lower the weighted mean |
| EvalMetrics.NegativeWeightNeedsClamp | backend/evals/runner.py:127-142 | With a negative weight the mean can leave the unit interval |
| EvalMetrics.MeanOfScores | backend/evals/runner.py:255-268 | An evaluator's mean score is a proportion |
| EvalMetrics.MeanTimesCount | backend/evals/runner.py:255-268 | The mean times the number of scores is their sum |

## Left out

- Human nodes beyond the pause itself: their resumption, edits and timeouts.
- Driving a crashed run with `execute_run` instead of `resume_run`, and two processes driving one run.
- Flow-engine events other than the step completion that recovery reads; handler tracing and logging.
- Non-string dictionary keys, NaN and infinite floats, float rounding, and Python's int/float distinction: numbers are reals.
- Run inputs are taken as JSON documents; expression and template parsing, manifest and spec validation are not modelled.
- FlowFanOut.RunChild: a child run is any run that does not complete over its cap, which is what `FlowEngine.Engine.RunLoop` proves of runs; binding and `over` rendering errors and the depth cap are left out as early failures without state.
- EvalExpressions.FreshFieldsAreIgnored: the condition is sufficient only; an expression that compares a mapping with itself is also unaffected.
- EvalRunner dispatch over evaluator kinds, judge prompting and response parsing: would only add easy members.
- Rule scopes, which no decision reads, and `fnmatch`: glob matching is an arbitrary predicate.
- Resolved secrets, artifact collection and the quota reservation around an artifact write.
- SQL text and dialects, Redis, MinIO and Docker backends, bus subscribers and cursor string parsing, a negative bus cap.
- HTTP, CLI, frontend, settings, secrets, quotas, patching and sandbox internals.
