# Workflow tooling, modelled and verified

This project models the stateful protocols and the list and path algorithms of a Python workflow toolkit and proves
what they promise. `dafny verify dfyconfig.toml` checks all of it.

- **Pipeline ledger** (`PipelineLedger`, `PipelineRules`, `PipelineHistory`, `PipelinePhases`): an append-only log of
  feature events, replayed by a transition table with a time-limited legacy table, and appended to only after the whole
  log validates.
- **Phase resolution and driver** (`PhaseResolver`, `PipelineDriver`, `PipelineOutcome`): the phase of a feature as
  derived from its events, appends that are no-ops when repeated, the gates between a request and the step it starts,
  and what is recorded and reported afterwards.
- **Feature locks** (`FeatureLock`): leases keyed by feature, taken over when they have run out.
- **Index refresh** (`RefreshTargets`, `SessionThrottle`, `VectorTrust`): the smallest set of directories to refresh,
  a debounce file that prunes itself, and the prefix test that decides whether a stale index may be trusted.
- **Tasks** (`TaskCloseout`, `CloseoutRules`, `TaskQueue`, `ImplementLoop`, `ImplementEnding`): crash-safe closing of a
  task, the ledger rules it meets, the choice of the next task, and the nested loops that work through the queue.
- **Documents** (`QuickstartDocs`, `QuickstartEntries`, `PlanMarkdown`, `PlanNormalForm`, `PlanTemplate`,
  `PlanContract`, `PlanFields`, `PlanStep`, `PlanFences`): exactly-once entries in quickstart.md, and the plan's
  splitter, renderer, template pruner, contract normalizer and rewriting step.
- **Caches and ranking** (`DirtyPaths`, `SearchMatches`, `SearchScratchpad`, `Rerank`): the dirty-path cache, the
  bounded search scratchpad with its JSON round trips, and the windowed rerank.

`Text`, `Sequences` and `Options` hold what these share: whitespace trimming and line splitting as Python does them,
stable sorting, subsequences, optional values.

Code that changes things step by step is a method or a class, proved against a function of its inputs or of its old
state; the properties of runs are lemmas about those functions. Where a promise turned out not to hold for all inputs,
the code is kept as it is and the lemma states exactly when it holds:

- a scoped read of the repository root is trusted on a stale index although everything below it drifted
  (`VectorTrust.StaleTrustIsSafeIffBelowRoot`; reached in `VectorTrust.RootReadTrustsDriftedIndex`);
- a section body that starts with an indented heading line makes split and render unstable
  (`PlanNormalForm.NormalFormIff`; reached in `PlanNormalForm.IndentedHeadingIsUnstable`);
- a whitespace-only risk label beside a real one makes normalization unstable
  (`PlanContract.NormalizationIsStableIff`; reached in `PlanContract.BlankBesideHighIsUnstable`);
- a debounce entry is dropped too early when its window is longer than another key's retention
  (`SessionThrottle.PruningIsInvisibleIffRetained`, `SessionThrottle.DebounceFileIff`; reached in
  `SessionThrottle.ShortRetentionShows`);
- the dirty-path cache hides untracked files below a directory that git lists by one entry
  (`DirtyPaths.CoherentIffNothingHidden`; reached in `DirtyPaths.NewDirectoryLooksClean`);
- a closeout that brings an unrecorded commit cannot close a task from T050 on (`CloseoutRules.ClosesIff`; reached in
  `CloseoutRules.CommitAloneDecides`);
- from T050 on, a closeout that recorded a failed verdict is never followed by one that closes the task, fixed or not,
  unless the check is started again by hand (`CloseoutRules.FailedVerdictIsFinal`; reached in `CloseoutRules.FailedVerdictIsRecorded`);
- a contract whose text holds a code fence is lost when its plan is rewritten
  (`PlanStep.FixedPointIffNoFence`; reached in `PlanFences.FencedReasonIsLost`);
- padded feature ids split a feature's history for the validator and not for the resolver
  (`PipelineHistory.ResolverViewIsOneChain`; reached in `PipelineHistory.TwoSpellingsAreAccepted`);
- an event without a phase lets any phase be started, and the driver's own next phase is refused
  (`PipelineDriver.DispatchIff`, `PipelineDriver.NextPhaseIsRefused`; reached in
  `PipelineDriver.ImplementedFeatureStartsAnyPhase`);
- a start of a task that is appended directly escapes the order that the start gate keeps
  (`TaskQueue.RunKeepsOrderIff`; reached in `TaskQueue.AppendedStartBreaksOrder`);
- a bootstrap whose feature id is a branch name, as the shipped step reports it, records nothing
  (`PipelineDriver.BootstrapRecordsIff`, `PipelineDriver.BranchNameIsNotRecorded`).

## Model

| member | source | states |
|---|---|---|
| PipelineLedger.ValidateSequence | scripts/pipeline_ledger.py:336-374 | The loop over the ledger returns exactly the complaints and the per-feature states of the replay: a malformed event leaves no trace, a misplaced one is reported and still becomes its feature's last event. |
| PipelineLedger.Projection | scripts/pipeline_ledger.py:336-374 | For every ledger, valid or not, interleaved in any way: replaying only some features' events gives those features the same states and the same complaints (identical when the reader numbered the lines, identical up to line numbers otherwise). |
| PipelineLedger.ValidIffEachFeatureValid | scripts/pipeline_driver_state.py:378-408 | A ledger is valid if and only if, for every feature id, the events that the phase resolver filters out for it are valid by themselves. |
| PipelineLedger.LinesDoNotMatter | scripts/pipeline_ledger.py:342-372 | Line numbers only label complaints: two ledgers that differ only in them have the same states, the same complaints up to numbering, and the same verdict. |
| PipelineLedger.ValidPrefix | scripts/pipeline_ledger.py:336-374 | Every prefix of a valid ledger is valid. |
| PipelineLedger.LedgerFile.Append | scripts/pipeline_ledger.py:389-453 | `append` succeeds exactly when the feature argument and event name are accepted and the whole ledger with the new event has no complaint; then the file is its old content plus that one event, valid again, and otherwise unchanged. |
| PipelineLedger.AppendsKeepEveryFeatureValid | scripts/pipeline_ledger.py:441-451 | Whatever appends are attempted and refused: the ledger only grows at its end, stays valid, and no feature's filtered events are ever found out of sequence. |
| PipelineRules.ValidIffEachFollows | scripts/pipeline_ledger.py:264-374 | A ledger is valid if and only if every event is well formed (known name, three digits, a timestamp, no task, its required fields, no critical finding in a completed analysis) and may follow the event before it under its id, by a table of successors. |
| PipelineRules.NextIff | scripts/pipeline_ledger.py:336-374 | Exactly which event any ledger takes next. |
| PipelineRules.LateEventsFollowTheTable | scripts/pipeline_ledger.py:319-333 | In a valid ledger an event from 10 April 2026 on, or whose timestamp does not parse, follows its predecessor by the current table. |
| PipelineRules.EarlyLegacyIsTaken | scripts/pipeline_ledger.py:319-333 | Before that date each of the five legacy steps is taken after any valid ledger. |
| PipelineRules.CutoffDecides | scripts/pipeline_ledger.py:319-333 | A ledger for each side: a sketch recorded after the tasking is valid or not by its timestamp alone. |
| PipelineRules.ShapeIff | scripts/pipeline_ledger.py:264-308 | Which faults an event is reported with, each exactly for its own reason. |
| PipelineRules.ReplayKnows | scripts/pipeline_ledger.py:342-372 | What the replay of any ledger, valid or not, knows of a feature: the last well-formed event of its id, misplaced ones included, and whether each approval is among them; malformed events leave no trace. |
| PipelineRules.ComplaintIff | scripts/pipeline_ledger.py:342-364 | Each event of any ledger adds exactly one complaint, with its number and its predecessor, if it is malformed or misplaced, and none otherwise. |
| PipelineHistory.ValidIffChain | scripts/pipeline_ledger.py:342-372 | One feature's history is valid if and only if every event is well shaped and may follow the one before it; the replay then remembers exactly the last event. |
| PipelineHistory.HistoryIsChain | scripts/pipeline_ledger.py:336-374 | In a valid ledger every feature's own history is such a chain and has the state the whole ledger gives it. |
| PipelineHistory.StageChain | scripts/pipeline_ledger.py:159-200 | In every valid feature history, legacy transitions included: `backlog_registered` comes first and only there; stages never go back and only clarification, planning and solution work repeat; plan, solution and analysis approval come in that order, at most once, before everything that needs them; nothing follows `feature_closed` or `duplicate_marked`; a failed feasibility spike is followed only by failed spikes. |
| PipelineHistory.FlagsFollowLastEvent | scripts/pipeline_ledger.py:365-372 | In a valid ledger the three flags of a feature are a function of its last event. |
| PipelineHistory.PhaseNeverMovesBack | scripts/pipeline_driver_state.py:17-45 | The phase derived from successive prefixes of a valid history never moves back, for prefixes whose last event derives one. |
| PipelineHistory.PhasesFollowStages | scripts/pipeline_driver_state.py:17-45 | Each phase is one run of stages; a completed implementation derives none. |
| PipelineHistory.ResolverViewIsOneChain | scripts/pipeline_driver_state.py:380-398 | The resolver compares ids after trimming and the validator before it. So the resolver's view of a feature in a valid ledger is one chain if and only if all its events store the same id. |
| PipelineHistory.TwoSpellingsAreAccepted | scripts/pipeline_ledger.py:389-453 | The failing case, reached through the append: `018` and `018` with a final newline are both registered, the ledger is valid, and the resolver's view of the feature is no chain. |
| PipelineHistory.SecondIdStartsAfresh | scripts/pipeline_ledger.py:342-358 | In a valid view, the first event stored under a further spelling of the id is a fresh `backlog_registered`. |
| PipelineHistory.EveryChainCanBeAppended | scripts/pipeline_ledger.py:389-453 | The append refuses nothing that validation allows: every well-shaped chain of an accepted id can be appended event by event to the end. |
| PhaseResolver.ResolvePhaseState | scripts/pipeline_driver_state.py:341-479 | The resolver computes the specified state: the feature's own events or, if none, those of its numeric prefix; the derived phase, the hint where the last event has no phase, `specify` for an empty history; and each drift reason under its condition. |
| PhaseResolver.PrefixIsStable | scripts/pipeline_driver_state.py:65-74 | An id found through its numeric prefix has no further prefix, and resolving it again gives the same events. |
| PhaseResolver.PrefixIff | scripts/pipeline_driver_state.py:65-74 | An id has a numeric prefix if and only if it begins with digits, a dash or underscore, and more text on that line. |
| PhaseResolver.OwnEventsFirst | scripts/pipeline_driver_state.py:378-398 | A feature's own events come first; only without any are those of its numeric prefix taken. |
| PhaseResolver.DriftIff | scripts/pipeline_driver_state.py:400-440 | Each drift reason is reported exactly for its cause; a hint that is no phase conflicts with every derived one. |
| PhaseResolver.ResolvedFromValidLedger | scripts/pipeline_driver_state.py:396-410 | From a valid ledger `ledger_sequence_invalid` is never reported, and the reported approvals are those implied by the last event where the events store the feature's id unpadded. |
| PipelineDriver.SelectEvent | scripts/pipeline_driver.py:1226-1249 | The success event is the first declared one that needs no fields, else the first emitted one; if no declared one qualifies, exactly the latter. |
| PipelineOutcome.SelectedIsFirst | scripts/pipeline_driver.py:1226-1249 | It is the event of the first declared contract that has a name and needs no fields. |
| PipelineDriver.AppendRequested | scripts/pipeline_driver.py:1339-1425 | The requested append changes the ledger and answers exactly as specified: no-op when recorded, one event when accepted, unchanged otherwise. |
| PipelineDriver.AppendSuccess | scripts/pipeline_driver.py:1203-1336 | The same for the success append, whose subprocess may time out or be killed before or after it wrote. |
| PipelineDriver.RepeatedRequestIsNoOp | scripts/pipeline_driver.py:1358-1373 | After a request succeeded, repeating its feature, phase and event on any later ledger leaves that ledger alone and succeeds, whatever else the repetition carries. |
| PipelineDriver.RepetitionAfterRunIsNoOp | scripts/pipeline_driver.py:1358-1373 | So a repetition is a no-op after any calls, bootstraps and others' appends in between. |
| PipelineDriver.RetryAfterCrashIsNoOp | scripts/pipeline_driver.py:1259-1275 | Retrying, on any later ledger, a success append whose first attempt wrote, even one that timed out or was killed, is a successful no-op. |
| PipelineDriver.RetryAfterRunIsNoOp | scripts/pipeline_driver.py:1259-1275 | So such a retry is a no-op after any calls, bootstraps and others' appends in between. |
| PipelineDriver.PaddedRequestIsNotRecorded | scripts/pipeline_driver.py:1360-1366 | An id or phase that is not trimmed is never found among the recorded events, so the no-op guarantee needs trimmed arguments. |
| PipelineDriver.EnforceApproval | scripts/pipeline_driver.py:495-563 | Approval is granted exactly when no scope is required or the token's text up to its first colon is that scope. |
| PipelineOutcome.ApprovedIff | scripts/pipeline_driver.py:495-563 | A token approves the scope it names, alone or in front of a colon, and no other. |
| PipelineOutcome.PhaseAskedFor | scripts/pipeline_driver.py:1743-1838 | A blank phase asks for none; any other text for the phase it names without the whitespace around it. |
| PipelineDriver.RunDriver | scripts/pipeline_driver.py:1743-2202 | One call for an existing feature passes the gates in the source's order and leaves the ledger and the report that the specification says. |
| PipelineDriver.RunBootstrap | scripts/pipeline_driver.py:1623-1740 | A bootstrap call refuses any other phase than specify, appends its success event, and reports the step's exit code, or the append's failure. |
| PipelineDriver.CallAdds | scripts/pipeline_driver.py:1743-2202 | A call's own append adds at most one event: for the feature the call names, as the ledger knows it, and the phase the call started, accepted by the whole-ledger validation and not yet recorded for its feature, phase and name. A call that starts no step writes nothing. |
| PipelineDriver.DispatchIff | scripts/pipeline_driver.py:1743-1944 | A step is started for a phase if and only if the ledger is readable, the feature's events are valid, the phase is allowed (specify for a new feature, not past the derived phase, whatever is asked for when the last event has no phase), the route can be started, the call is no dry run, and implementing carries a token of scope `security_sensitive_migration`. |
| PipelineOutcome.RequestIsRecordedIff | scripts/pipeline_driver.py:1953-2080 | After a started step that succeeded and asked for an event, the event is recorded if and only if it was before, or the request is readable and the ledger takes exactly that event, with its name, fields and count; the exit code is 0 if and only if it is recorded, else 2, and nothing else is added. |
| PipelineOutcome.NamelessRequestFails | scripts/pipeline_driver.py:1344-1357 | A request without an event name adds nothing and fails with 2. |
| PipelineOutcome.SuccessIsRecordedIff | scripts/pipeline_driver.py:2080-2202 | A generative step that asks for nothing has its route's success event recorded if and only if it was before, or the ledger takes it and the append came to write; the exit code is 0 only if the append was seen to succeed. Plan and solution must ask. |
| PipelineOutcome.OtherwiseNothingIsAdded | scripts/pipeline_driver.py:1945-2080 | In every other case a started call adds nothing: a step without an event succeeds, and a failed one passes its exit code on. |
| PipelineOutcome.RefusedBecause | scripts/pipeline_driver.py:1743-1944 | Which gate turns a call away: the first in order that its id, phase, ledger, token and route do not pass. A call that starts nothing fails with 1, except a dry run that passes the gates before it. |
| PipelineDriver.ImplementedFeatureStartsAnyPhase | scripts/pipeline_driver_state.py:420-424 | The failing case, reached through five accepted appends with the fields that the manifest asks for: after `implementation_completed`, an event without a phase, any requested phase is started, given its route and a token. |
| PipelineDriver.RunIsSafe | scripts/pipeline_driver.py:1743-1944 | Over any run of calls, bootstraps and others' appends from a valid ledger: no call reports an invalid sequence, and every step started is for an allowed phase of a valid history, with the token where one is needed. |
| PipelineDriver.RunKeepsValid | scripts/pipeline_ledger.py:441-451 | Every such run only adds to the end of the ledger, and keeps a valid one valid. |
| PipelineDriver.RunRecordsNothingTwice | scripts/pipeline_driver.py:1259-1275 | Over any run of the driver alone, retries and crashed appends included, no event is recorded twice for one feature and phase. |
| PipelineDriver.BootstrapRecordsIff | scripts/pipeline_driver.py:1681-1698 | A bootstrap that was told a feature id leaves its success event recorded if and only if it was there already, or no other phase was asked for, the id is three bare digits (so no branch name), the ledger accepts the event and the append came to write. The step's exit code plays no part; the shipped step reports an id only with exit code 0. |
| PipelineDriver.BranchNameIsNotRecorded | scripts/speckit_specify_step.py:383-392 | The shipped step reports a branch name where it has one, and then the bootstrap adds nothing to any ledger and fails, unless the event stood there already. |
| PipelineOutcome.BootstrapTells | scripts/pipeline_driver.py:1623-1740 | What a bootstrap reports: the step's exit code once its success event is known to be recorded or there is none, 2 where the id or the append fails, 1 for another phase; at most that event is added. |
| FeatureLock.LockDirectory.Acquire | scripts/pipeline_driver_state.py:205-294 | The outcome and the new records of acquiring: created, reused, taken over when stale, or held; after success the caller owns a live record. |
| FeatureLock.LockDirectory.Release | scripts/pipeline_driver_state.py:297-338 | The outcome and the new records of releasing; no other feature's record is touched. |
| FeatureLock.HeldUntilExpiry | scripts/pipeline_driver_state.py:205-338 | Over any run of operations by anybody on any features: until its lease ends or its owner releases it, a record stays as it is and everybody else is turned away. |
| FeatureLock.MutualExclusion | scripts/pipeline_driver_state.py:175-181 | If another owner later gets, or another owner's release removes, an acquired feature, then the first owner had released it or the lease it held had run out by then. |
| FeatureLock.ReuseDoesNotRenew | scripts/pipeline_driver_state.py:253-275 | Asking again for one's own live lock does not extend it: once the first lease ends anybody takes the feature over. |
| FeatureLock.LeaseLastsAsAsked | scripts/pipeline_driver_state.py:224-294 | A granted lease of s seconds from t on, unless its owner releases it: before t + s everybody else is turned away, and the owner's own requests change nothing. |
| FeatureLock.LeaseEndsAsAsked | scripts/pipeline_driver_state.py:276-294 | From t + s on, if nobody touched it, the next to ask takes the feature over, with a lease of the length it asks for. |
| FeatureLock.FreeFeatureIsGranted | scripts/pipeline_driver_state.py:232-252 | A feature without a record goes to the next to ask. |
| FeatureLock.HolderReleases | scripts/pipeline_driver_state.py:297-338 | The holder can release at any time, and the feature is free then. |
| FeatureLock.StaleIsAnybodys | scripts/pipeline_driver_state.py:276-338 | A record that has run out, or is unreadable, can be taken over or cleared by anybody. |
| RefreshTargets.CodegraphRefreshTargets | scripts/hook_refresh_indexes.py:141-167 | The loop returns the topmost candidate targets, each once, in path order. |
| RefreshTargets.PlanIsSmallestCover | scripts/read_code_health.py:350-375 | Any such plan covers every eligible path's target, no element lies below another, and it is contained in every covering subset of the candidates, so none is smaller. |
| RefreshTargets.EveryChangeIsCovered | scripts/hook_refresh_indexes.py:141-167 | Every changed path that exists inside the root is refreshed, a directory by itself or something above, a file by its directory unless that is the root; and nothing is refreshed that no changed path asks for. |
| RefreshTargets.PlanIgnoresOrder | scripts/hook_refresh_indexes.py:141-167 | The plan does not depend on the order or repetition of the changed paths. |
| RefreshTargets.PathOrder | scripts/hook_refresh_indexes.py:141-167 | Path order: the first differing component decides, and a path comes before what lies below it. |
| SessionThrottle.SessionFile.ShouldLaunch | scripts/read_code_health.py:300-316 | One debounced call: answers whether the key's remembered launch is at least a window old and, if so, records this one and drops entries past the retention. The warn-once rule is the same with its own factor. |
| SessionThrottle.PruningIsInvisible | scripts/read_code_health.py:275-316 | Over any session with a clock that does not go back and has passed every window: a call launches if and only if no launch of its key lies less than a window back in the full history, although old entries are dropped. |
| SessionThrottle.PruningIsInvisibleIffRetained | scripts/read_code_health.py:311-315 | That holds for all sessions over a set of keys if and only if no key's window is longer than what any other key's pruning retains; otherwise three calls show it. |
| SessionThrottle.FilesKeep | scripts/read_code_health.py:275-316 | A recorded call keeps itself and exactly the entries that are at most six windows, or a minute, old; four windows in the warning file. |
| SessionThrottle.DebounceFileIff | scripts/read_code_health.py:294-322 | With the windows the source configures for the debounce file, no entry is dropped too early, over all sessions, if and only if the debounce is not positive or the probe cache's window is at most max(6 times the debounce, 60 seconds). |
| SessionThrottle.WarningFileIsExact | scripts/read_code_health.py:275-291 | The warn-once file, whose warnings share one window, answers over every session as if nothing were ever dropped. |
| SessionThrottle.RateBound | scripts/read_code_health.py:300-322 | Any time window of width W holds at most floor(W / ttl) + 1 launches of one key. |
| VectorTrust.TouchesIsComparable | scripts/read_code_health.py:1313-1333 | Below the root, the three slash-suffixed text tests hold if and only if scope and drifted path are equal or one contains the other. |
| VectorTrust.StaleTrust | scripts/read_code_health.py:1284-1333 | A scoped read on a stale index is trusted if and only if drift is reported and the scope is the repository root or no drifted path is equal to, inside or above it. |
| VectorTrust.TrustedIff | scripts/read_code_health.py:1284-1333 | Every decision: trusted if and only if the index is healthy and the breadth of the read is known, or a scoped read meets a stale index that has drifted elsewhere; and the escalation that each refusal asks for. |
| VectorTrust.StaleTrustIsSafeIffBelowRoot | scripts/read_code_health.py:1313-1333 | A trusted stale read is safe if and only if its scope is not the repository root, which is written `.` and matches no prefix test. |
| VectorTrust.RootReadTrustsDriftedIndex | scripts/read_code_health.py:1324-1333 | A root read that is trusted although a path below it drifted. |
| VectorTrust.ShortcutAgrees | scripts/read_code_health.py:1336-1351 | The fast-path test equals the full decision on every probe, scope and request, and is true exactly for the untouched default decision. |
| TaskCloseout.EventsForTask | scripts/speckit_closeout_task.py:135-145 | The scan returns exactly the task's events of that feature, in ledger order. |
| TaskCloseout.FindTaskLine | scripts/speckit_closeout_task.py:148-153 | The first line of tasks.md that is the task's, if any. |
| TaskCloseout.FindPhase | scripts/speckit_closeout_task.py:156-165 | Whether a phase heading stands above the task. |
| TaskCloseout.Workspace.Closeout | scripts/speckit_closeout_task.py:282-396 | One attempt, with any appends refused and the process dying anywhere: the ledger and tasks.md it leaves, and whether it completed. |
| TaskCloseout.RerunsAddMissingOnce | scripts/speckit_closeout_task.py:350-372 | Repeating one request through any crashes and refusals leaves the initial history followed by the first k missing events of the canonical order, each once; all of them once an attempt completed. |
| TaskCloseout.MarkedOnlyWhenClosed | scripts/speckit_closeout_task.py:358-376 | The task's line is marked only when `task_closed` and every canonical event are in the ledger; that one line changes and no other, and attempts that do not complete leave tasks.md alone. |
| TaskCloseout.CompletedIsStable | scripts/speckit_closeout_task.py:360-376 | Any attempt after a completed one changes nothing. |
| TaskCloseout.CompletesWhen | scripts/speckit_closeout_task.py:282-396 | An attempt completes only with a passed check, a validated ledger, a finished write and a task that stands below a heading, and an undisturbed one whenever the check passed and the task stands there; without such a line nothing happens. |
| TaskCloseout.NoEventTwice | scripts/speckit_closeout_task.py:314-372 | Over any mix of passing and failing attempts for any tasks, no attempt records an event a second time, and histories only grow. |
| CloseoutRules.CommitBlocksClose | scripts/speckit_closeout_task.py:350-372 | Under the ledger's rule for `task_closed`, a passing closeout that brings a commit not recorded before can never close its task, however often it is repeated. |
| CloseoutRules.ClosesIff | scripts/task_ledger.py:448-512 | An undisturbed closeout of a started, open task goes through if and only if the ledger had no complaint before and the task predates T050 or its history is closeable: guards passed, goal achieved, a commit already recorded if one is brought, and the missing evidence continues from the last event. |
| CloseoutRules.CommitAloneDecides | scripts/speckit_closeout_task.py:350-372 | A task with all it needs recorded is closed by a closeout without a commit and not by one with a commit. |
| CloseoutRules.TakenIsLinked | scripts/task_ledger.py:439-512 | The ledger takes the missing evidence and the closing event if and only if each may follow the one before it and the closing conditions hold. |
| CloseoutRules.SpentOverSteps | scripts/task_ledger.py:98-112 | Once the offline check of a task was started, has not passed and is no longer the last event, no run of passing and failing closeouts of any tasks closes that task, whatever fixes are recorded in between, as long as nobody restarts or passes the check by hand. |
| CloseoutRules.FailedVerdictIsFinal | scripts/speckit_closeout_task.py:310-372 | So a failed verdict recorded by a closeout is final for all later closeouts: the start is never appended again, and the pass may follow only the start. |
| CloseoutRules.FailedVerdictIsRecorded | scripts/speckit_closeout_task.py:313-332 | An undisturbed failing closeout of a task whose check may start does record the start and the failed verdict. |
| TaskQueue.SelectNext | scripts/speckit_implement_step.py:339-371 | The scan picks the first line of tasks.md that is the actor's own open task or a task the gate lets it start; failing that it reports the first other owner met, or that nothing is open. |
| TaskQueue.OneOpenOverRuns | scripts/task_ledger.py:439-512 | Over any starts through the gate, starts appended directly and closings, by any actors: each actor has at most one open task. |
| TaskQueue.RunKeepsOrderIff | scripts/task_ledger.py:787-860 | Throughout such a run, while a task that is not parallel is open everything listed before it is closed and nothing else is open, if and only if every start appended directly met the gate's order conditions when it was taken. |
| TaskQueue.GatedRunsKeepOrder | scripts/task_ledger.py:787-860 | So a run whose starts all pass the gate keeps that order. |
| TaskQueue.AppendedStartBreaksOrder | scripts/task_ledger.py:1044-1066 | The failing case: the plain append takes a start that the gate refuses, and two tasks that are not parallel are open at once. |
| TaskQueue.OwnTaskIsResumed | scripts/speckit_implement_step.py:345-352 | An actor with an open task that tasks.md lists is always handed that task, wherever it stands in the list. |
| TaskQueue.StartedTaskWasFree | scripts/task_ledger.py:800-850 | A task is started only when it is listed, registered, neither open nor closed, the actor has nothing open, and every earlier task that is not parallel is closed. |
| TaskQueue.StartTakesEffectIff | scripts/task_ledger.py:787-860 | Exactly when a start through the gate takes effect; a parallel task waits only for the earlier ones that are not, any other for all earlier ones and for nothing else to be open. |
| TaskQueue.ParallelTasksRunTogether | scripts/task_ledger.py:830-850 | A third parallel task starts while two others are open. |
| TaskQueue.ClosingFrees | scripts/task_ledger.py:504-543 | Closing an open task changes no other task and frees its owner, or else the actor that had it open. |
| TaskQueue.NothingLeftIffAllClosed | scripts/speckit_implement_step.py:368-371 | With every listed task registered and nobody working, the queue reports nothing left if and only if every listed task is closed, and otherwise starts the first that is not. |
| ImplementLoop.Ledger.Advance | scripts/speckit_implement_step.py:314-396 | Choosing and starting: the task and the new ledger state, or the reason for none, in the source's order of checks. |
| ImplementLoop.Ledger.ImplementTasks | scripts/speckit_implement_step.py:750-1282 | The nested loops, for any answers of the subprocesses and anything other actors do meanwhile: they end, with open tasks and retries left as measure, and leave the specified ledger, rounds and exit. |
| ImplementLoop.AttemptShape | scripts/speckit_implement_step.py:803-1104 | The rounds on one task: at least one, at most those left, numbered on, and passed exactly when the last verdict passed. |
| ImplementLoop.RoundBound | scripts/speckit_implement_step.py:802-1104 | A run has at most three rounds for each task open at its start and at most three for any one task; no other task gets any. |
| ImplementLoop.RoundsAreLinked | scripts/speckit_implement_step.py:804-837 | Every round but the run's first resumes the session; a retry carries the report of the round just before it, which was its task's, and a first round carries none. |
| ImplementLoop.RunLeavesOrder | scripts/speckit_implement_step.py:1105-1282 | Over a run registrations, closings and owners are never undone, no actor gets two open tasks, every task worked on is the actor's, all but the last are closed, and the last one too if the run succeeds. |
| ImplementEnding.RunEndsAsReported | scripts/speckit_implement_step.py:750-1282 | A run moves on to another task exactly after a round that passed, a done closeout, updated docs and a gate that named one; otherwise it ends with the exit of the first of these that was not in order, and the task is closed exactly if its closeout was done or recorded the closing. |
| ImplementEnding.SucceedsIff | scripts/speckit_implement_step.py:1105-1282 | A run succeeds if and only if its last round passed, the task was closed, the docs updated, and the gate passed without naming another task. |
| ImplementEnding.QueueHandsOut | scripts/speckit_implement_step.py:314-396 | What is handed out before each visit, and otherwise the first thing that is missing, as the reason. |
| ImplementEnding.ClosedMeanwhileIsSkipped | scripts/speckit_implement_step.py:314-371 | A task that others close before the run's first choice gets no round in it. |
| ImplementLoop.StoppedTaskIsResumed | scripts/speckit_implement_step.py:339-352 | A run that stops in the middle of a task is picked up with that task by the same actor's next run, whatever others do in between short of closing it, if tasks.md still lists it. |
| ImplementLoop.OthersTasksAreLeftAlone | scripts/speckit_implement_step.py:349-356 | A task another actor has open when the run begins is never worked on. |
| QuickstartDocs.LineBuffer.FindHeading | scripts/speckit_implement_docs.py:125-130 | The index of the first line that reads as the heading. |
| QuickstartDocs.LineBuffer.EnsureHeadingInPlace | scripts/speckit_implement_docs.py:96-111 | The heading is spliced in, after the other heading's line or at the end, exactly when no line reads as it. |
| QuickstartDocs.LineBuffer.InsertMarkerAndBullets | scripts/speckit_implement_docs.py:133-151 | The marker and its bullets are spliced in at the end of the section exactly when the section body has no such marker. |
| QuickstartDocs.QuickstartFile.ApplyUpdate | scripts/speckit_implement_docs.py:154-215 | The file afterwards, and which of the two sections gained the entry; the file is rewritten only then. |
| QuickstartDocs.AppliedCounts | scripts/speckit_implement_docs.py:154-215 | One request adds one record of each missing entry it brings to its section, and changes the count of no other entry in either section. |
| QuickstartEntries.EntryStandsAtEnd | scripts/speckit_implement_docs.py:133-151 | A new entry stands at the end of its section: its marker, then each bullet in order behind a dash; an entry that is recorded or has no bullets changes nothing. |
| QuickstartEntries.MissingHeadingStands | scripts/speckit_implement_docs.py:96-111 | A missing heading is put right below the one it belongs to, or else at the end, between blank lines. |
| QuickstartEntries.NewFileIs | scripts/speckit_implement_docs.py:154-195 | A missing file is created with its title and its three headings. |
| QuickstartDocs.ExactlyOnce | scripts/speckit_implement_docs.py:96-195 | For any starting file and any requests: an entry the file did not record is in its section exactly once if some request brought it and not at all otherwise; a recorded one stays as often as it was. |
| QuickstartDocs.ReplayChangesNothing | scripts/speckit_implement_docs.py:154-195 | Replaying any earlier request leaves the file identical. |
| QuickstartDocs.NoLineLost | scripts/speckit_implement_docs.py:154-195 | Up to whitespace at the ends of lines and file, the original lines are all there in order after any requests. |
| PlanMarkdown.SplitMarkdownSections | scripts/speckit_plan_step.py:214-233 | The loop yields the preamble and the sections of the document. |
| PlanMarkdown.RenderMarkdownSections | scripts/speckit_plan_step.py:236-250 | The loop yields the rendered document. |
| PlanMarkdown.RenderThenSplit | scripts/speckit_plan_step.py:214-250 | Splitting a rendered document returns the same sections with their bodies in canonical form, for trimmed non-blank one-line headings and bodies without heading lines; the preamble returns without blank lines at its end. |
| PlanMarkdown.CanonicalIff | scripts/speckit_plan_step.py:214-233 | A body is its own canonical form if and only if it is trimmed and has plain newlines. |
| PlanMarkdown.SameSectionsIff | scripts/speckit_plan_step.py:214-250 | So render, then split, returns the very same section list if and only if all bodies are trimmed and have plain newlines. |
| PlanMarkdown.RenderedPreamble | scripts/speckit_plan_step.py:236-250 | The same for a document without sections, which renders to the same text again. |
| PlanNormalForm.SplitBody | scripts/speckit_plan_step.py:214-233 | A body found by splitting is trimmed and canonical, and has a heading line if and only if it begins with one. |
| PlanNormalForm.PlainIsStable | scripts/speckit_plan_step.py:214-250 | Where no body begins like a section, rendering what was split is idempotent and keeps the sections. |
| PlanNormalForm.NormalFormIff | scripts/speckit_plan_step.py:214-250 | For a document with non-blank headings, rendering what was split is idempotent if and only if no trimmed body begins with `## `. |
| PlanNormalForm.IndentedHeadingIsUnstable | scripts/speckit_plan_step.py:214-250 | The failing case: the text `## A` with the body line `## B` indented by two spaces normalizes differently the second time. |
| PlanTemplate.RenderTemplateSubset | scripts/speckit_plan_step.py:253-272 | The loop writes exactly the requested sections with their overrides, or fails if the template lacks one. |
| PlanTemplate.SubsetFailsIff | scripts/speckit_plan_step.py:253-272 | It fails if and only if the template lacks a requested section. |
| PlanTemplate.SubsetReadsBack | scripts/speckit_plan_step.py:253-272 | What it wrote splits into exactly the requested headings, in template order, each with its override, or else its template body, in canonical form. |
| PlanTemplate.OverrideReadsBack | scripts/speckit_plan_step.py:253-272 | A trimmed override with plain newlines reads back as it was given. |
| PlanTemplate.TemplateBodiesStay | scripts/speckit_plan_step.py:253-272 | A section without an override keeps the body it has in the template. |
| PlanTemplate.ExtractSectionBody | scripts/speckit_plan_step.py:753-767 | The loop returns the trimmed text under the heading's line up to the next other heading. |
| PlanTemplate.RenderedBodyReadsBack | scripts/speckit_plan_step.py:753-767 | On a rendered document it returns the canonical form of the body under that heading, and nothing for a heading that is not there. |
| PlanTemplate.RenderedBodyIsSameIff | scripts/speckit_plan_step.py:753-767 | It returns the very body that was rendered if and only if that body is trimmed and has plain newlines. |
| PlanContract.NormalizeDomainReasoning | scripts/speckit_plan_step.py:597-605 | The loop over the reasoning normalizes each domain name, drops blank ones, and fails on the first invalid one. |
| PlanFields.FieldsComeFrom | scripts/speckit_plan_step.py:575-642 | Normalizing fails if and only if a label, size or domain is unknown; every field comes from the field of its name, and an empty overall risk label from the other one. |
| PlanFields.DomainIff | scripts/speckit_plan_step.py:143-152 | A domain is recognized in any case, written in its canonical spelling, and dropped when blank; what matches no canonical one is the error. |
| PlanFields.RelevantIs | scripts/speckit_plan_step.py:592-642 | The relevant domains are exactly those named; one unknown name fails the list. |
| PlanFields.RelevantInOrder | scripts/speckit_plan_step.py:592-642 | They stand in the order of their first mention. |
| PlanFields.ReasoningIs | scripts/speckit_plan_step.py:597-605 | Each domain named has the text of its last mention, trimmed. |
| PlanContract.FlagsComeFrom | scripts/speckit_plan_step.py:575-642 | The flags of the strategy: as given, a new surface calling for external research; else from the levels of its predecessor; else none. |
| PlanContract.NormalizationIsStableIff | scripts/speckit_plan_step.py:575-642 | Normalizing a written normalized contract always succeeds and changes nothing if and only if the two overall risk labels agreed: none of them was mere whitespace beside a real other one. |
| PlanContract.BlankBesideHighIsUnstable | scripts/speckit_plan_step.py:575-642 | The failing case: a triage risk of one space beside an overall risk `high`; the written contract normalizes to another one. |
| PlanStep.PlanFile.Apply | scripts/speckit_plan_step.py:918-943 | One run rewrites the plan with the sections its contract selects, keeps the plan of a duplicate, and leaves the file alone when it fails. |
| PlanStep.StepFailsIff | scripts/speckit_plan_step.py:918-943 | The step fails if and only if no contract is found, it cannot be normalized, or, unless it marks a duplicate, the template lacks a section it needs. |
| PlanStep.SectionsFollowFlags | scripts/speckit_plan_step.py:645-666 | Which sections stand in the rewritten plan: each optional one exactly for its flag, the others always, and nothing else. |
| PlanStep.RewrittenBodies | scripts/speckit_plan_step.py:770-814 | What stands in them: the triage, the checklists, the contract and the earlier discovery, and elsewhere what the template has. |
| PlanStep.DuplicateIsLeftAlone | scripts/speckit_plan_step.py:918-943 | A duplicate's plan is left as it is. |
| PlanStep.FindsWrittenContract | scripts/speckit_plan_step.py:562-572 | In a text whose first JSON block is that of the written contract, that contract is found, whatever other code fences stand before it. |
| PlanStep.ContractReadsBack | scripts/speckit_plan_step.py:770-814 | A rewritten plan yields the contract that was written into it, if that has no code fence in it. |
| PlanStep.DiscoveryReadsBack | scripts/speckit_plan_step.py:753-814 | A rewritten plan's Internal Discovery section reads back as it was, or as its placeholder. |
| PlanStep.RewriteIsFixedPoint | scripts/speckit_plan_step.py:918-943 | Running the step on a plan it has rewritten writes the same plan again, if the written contract has no code fence in it and no JSON block opens before it. |
| PlanStep.FixedPointIffNoFence | scripts/speckit_plan_step.py:918-943 | Where the contract's block is the only one and the reader rejects truncated JSON, that holds if and only if the written contract has no code fence in it; otherwise the second run finds no contract. |
| PlanFences.FencedReasonIsLost | scripts/speckit_plan_step.py:562-572 | The failing case: a reason of three backticks, spelled in escapes in the plan. The first run writes it raw, the second finds no contract. |
| DirtyPaths.Cache.DirtyPaths | scripts/edit_code.py:233-275 | One query: the answer and the remembered answers as specified; the returned set is the caller's own, never one the cache keeps. |
| DirtyPaths.Session | scripts/edit_code.py:233-275 | Over any queries, with the callers rewriting every set they were ever given in between, each answer is the one specified from the earlier queries alone. |
| DirtyPaths.AnswerIsListingOrFilter | scripts/edit_code.py:241-255 | Whatever was asked before, an answer is git's own listing for the scope or the path-prefix filter of the full one. |
| DirtyPaths.CoherentIffNothingHidden | scripts/edit_code.py:241-255 | All answers for a scope equal git's, after any earlier queries, if and only if no directory that git lists by a single entry lies above the scope with untracked files in it. |
| DirtyPaths.HiddenFilesLookClean | scripts/edit_code.py:278-284 | For such a scope without other changes, the has-changes test is true when asked first and false after a listing of the whole repository. |
| DirtyPaths.NewDirectoryLooksClean | scripts/edit_code.py:278-284 | Such a case: git lists an untracked directory `n/` by one entry, and the scope is the untracked `n/a` below it. |
| DirtyPaths.MissingOnlyAfterFailure | scripts/edit_code.py:266-273 | If git always ran, no answer is missing. |
| DirtyPaths.UnknownCountsAsChanged | scripts/edit_code.py:278-284 | Where git did not run, changes are assumed; where it did, a first answer says none exactly if its listing is empty. |
| DirtyPaths.SplitDirtyCandidates | scripts/edit_code.py:313-329 | The loop splits the dirty set into the part in scope and the rest, both sorted and without repetition. |
| DirtyPaths.SplitIsDetermined | scripts/edit_code.py:320-328 | The two halves depend on the set alone, not on its order. |
| DirtyPaths.SplitAgreesIff | scripts/edit_code.py:313-338 | The in-scope half of the full listing equals git's scoped answer if and only if nothing is hidden, or, where no paths are given, nothing is dirty. |
| DirtyPaths.UnderIsAncestry | scripts/edit_code.py:247-251 | The prefix test is ancestry by components, for paths that may carry final slashes. |
| SearchMatches.VectorReadsBack | scripts/read_code.py:1102-1171 | Deserializing a serialized vector match gives the match. |
| SearchMatches.OptionalFieldsMayBeMissing | scripts/read_code.py:1122-1171 | A stored vector match may lack everything but six fields, and gets the defaults for the rest. |
| SearchMatches.RequiredFieldsMustBeThere | scripts/read_code.py:1122-1171 | Without one of the six there is no match. |
| SearchMatches.ReadsLikePython | scripts/read_code.py:1216-1245 | A flag reads as the line number 0 or 1, an integer as a decimal, and an empty path as none. |
| SearchMatches.RerankDebugReadsBack | scripts/read_code.py:1174-1213 | The same for rerank diagnostics. |
| SearchMatches.FindReadsBack | scripts/read_code.py:1216-1245 | The same for find matches. |
| SearchMatches.AnalyzeReadsBack | scripts/read_code.py:1248-1279 | The same for analyze matches. |
| SearchMatches.ReadMatches | scripts/read_code.py:3115-3140 | The loop restores all matches of an entry, or none if one cannot be read. |
| SearchScratchpad.Scratchpad.Load | scripts/read_code.py:1299-1311 | The loop keeps exactly the entries that are objects, in file order. |
| SearchScratchpad.Scratchpad.Store | scripts/read_code.py:1345-1370 | The file after a store: the loaded entries with the new one put in, stably sorted newest first, cut at a positive cap, written by key. |
| SearchScratchpad.EntryFields | scripts/read_code.py:1345-1370 | Under which names an entry is stored, and when its diagnostics and its source are. |
| SearchScratchpad.Scratchpad.LoadCached | scripts/read_code.py:1326-1342 | A lookup hits exactly for an entry of the key with the signature asked for that is not past the age limit. |
| SearchScratchpad.KeptIff | scripts/read_code.py:1314-1323 | A store keeps an entry if and only if fewer than cap others are ahead of it: newer ones, and equally new ones that come earlier. So a new entry can be dropped at once when times tie. |
| SearchScratchpad.BoundedAndNewest | scripts/read_code.py:1314-1323 | A positive cap is never exceeded, without one nothing is dropped, nothing dropped is newer than anything kept, and nothing is invented. |
| SearchScratchpad.HoldsMostRecent | scripts/read_code.py:1314-1370 | Under a clock that ticks between stores the scratchpad is exactly the table of the cap most recently stored keys, each with what was last stored under it. |
| SearchScratchpad.HitIff | scripts/read_code.py:1326-1370 | A lookup hits if and only if the key was stored, fewer than cap other keys were stored since, the signature matches and the age limit is kept; it returns what was stored last. |
| SearchScratchpad.HoldsOnlyLatest | scripts/read_code.py:1345-1370 | Whatever the clock does, also standing still or stepping back, the scratchpad never holds anything but what was stored last under a key, once. |
| SearchScratchpad.MissingMadeWay | scripts/read_code.py:1314-1323 | Over any run whose clock never steps back, equal times included, a stored key is missing only if the file is full of entries stored last at the same time or later. |
| SearchScratchpad.HeldByTime | scripts/read_code.py:1314-1370 | Over such a run a key is held if fewer than cap other keys were stored last at the same time or later, and only if fewer than cap were stored last later. |
| SearchScratchpad.HitIsLatest | scripts/read_code.py:1326-1370 | Under any clock, a hit returns what was stored last under the key, with the signature asked for and within the age limit. |
| SearchScratchpad.FindHitReturnsStored | scripts/read_code.py:3115-3126 | Under any clock, a hit for find returns exactly the stored matches. |
| SearchScratchpad.AnalyzeHitReturnsStored | scripts/read_code.py:3129-3140 | Under any clock, a hit for analyze returns exactly the stored matches. |
| Rerank.EachGoesToItsRank | scripts/read_code.py:1812-1828 | Each candidate of the window lands behind exactly those that beat it by score, then anchor rank, then earlier position. |
| Rerank.RanksDiffer | scripts/read_code.py:1754-1759 | Of two candidates exactly one beats the other, and the winner's place is ahead. |
| Rerank.RerankPutsInOrder | scripts/read_code.py:1775-1853 | With two candidates or more and a score for each of the window, every candidate of the window stands in the result behind exactly those that beat it and the report says `applied`; otherwise the list stays and the report says why. |
| Rerank.BetterStandsAhead | scripts/read_code.py:1754-1828 | The higher score stands ahead; then the more similar candidate, then the one that is no test unless tests are welcome, then the one that was ahead. |
| Rerank.RerankRearrangesWindow | scripts/read_code.py:1775-1853 | Reranking permutes the window and leaves the tail in place; without usable scores nothing moves; `changed` is reported only for a real change. |
| Rerank.RerankReports | scripts/read_code.py:1830-1853 | The diagnostics: the names shown for the window before and after, `changed` exactly when they differ, and the length of the whole list. |
| Rerank.RerankTwice | scripts/read_code.py:1812-1853 | Reranking the result again changes nothing, when each candidate is scored by itself. |

## Left out

- Subprocesses, git, the network, editors' processes and the vector database: what they answer is input. JSON, YAML, argument and date parsing, and regular expressions, appear as records, integers and predicates on text; `\d` means ASCII digits, lower-casing is ASCII, and a digest is taken to be injective.
- Reading and writing a file is one step of the operation that does it: no interleaving inside one lock, debounce, append, cache or scratchpad call is modelled, and a failed write of a cache file is not.
- PipelineLedger.ValidateSequence: the messages about several missing fields of one event are one complaint with a set of faults, because their order is that of a Python set.
- PhaseResolver.ResolvePhaseState: the check for artifact files is left out, because the driver never passes a feature directory to it; nor are the routing contract and its effect-free `next_phase` lookup.
- PipelineDriver.RunDriver: the human status, the debug files, the correlation ids and the routing realization, which has no event to append, are left out. Progress is not claimed: a request for the next phase is refused.
- The driver's legacy mapping check, coverage report and failure drill-down: one-branch reports.
- QuickstartDocs.ExactlyOnce: bullets of several lines, which could contain the marker line of another entry, are left out; requests carry trimmed, non-empty bullets of one line.
- TaskCloseout.Workspace.Closeout: the next task id, the ClickUp reflection and the newline normalization of tasks.md are left out.
- CloseoutRules.ClosesIff: the events a closeout does not append keep their own rules; only the rows of the transition table that it meets are written out.
- TaskQueue.RunKeepsOrderIff: tasks.md stays as it is during such a run; registrations during a run are not modelled.
- ImplementLoop.Ledger.ImplementTasks: stage timing, debug payloads and the branch and gate checks before the loop are left out; a handoff runner is always configured, because the source falls back to its own.
- PlanContract.NormalizationIsStableIff: contract fields that are not of the expected JSON type are left out, as are the offending value in an error's text and the ledger's routing view.
- PlanStep.RewriteIsFixedPoint: the template filler, the JSON reader and writer and the domain checklists are parameters; the conditions on them are stated in `Rewritable`. The spec artifact and completion checks are left out.
- DirtyPaths.CoherentIffNothingHidden: the scope `.` and the parsing of porcelain lines are left out; how git lists a scope inside an untracked directory is arbitrary, except that it lists something there.
- SearchScratchpad.HoldsMostRecent: for keys whose times tie at the edge of the cap, runs are bounded on both sides (`HeldByTime`) and each store is exact (`KeptIff`); a clock that steps back has only the latter and `HoldsOnlyLatest`. Context requests with Markdown targets or fallback recovery are left out.
- Rerank.RerankRearrangesWindow: the text sent to the reranker is left out; scores are arbitrary real numbers, so a NaN score is not modelled.
- FeatureLock.LockDirectory.Acquire: lock files that cannot be written, and the diagnostic fields of the answers, are left out.
- RefreshTargets.CodegraphRefreshTargets: paths are resolved already; symbolic links are not modelled.
- The hook deny lists, the gh, pytest, ruff and pyright wrappers, the reranker daemon, and the rendering and history commands: I/O or one-branch logic.
