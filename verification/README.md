# A verified model of CEMAF's directory, workers, audit trail and selection policies

Dafny models of the parts of the repository where several pieces of state have to agree, with proofs of
what holds in every reachable state. `dafny verify dfyconfig.toml` checks everything.

**Agent instance directory.** `Directory.dfy` is the value of the four maps and the counters, with each
operation as a function on it; `InMemoryAgentDirectory.dfy` is the class with those maps as fields, each
method proved equal to its function; `AdmissionProtocol.dfy` is the concurrent version, one await-free
stretch of code per step, with any number of `admit` calls, cancellations, transitions, disposals and other
users of the sink interleaved. Keys, instances, aliases and ordinals are tied together by one invariant over
all runs; `AdmissionTheorems.dfy` says what follows, `DirectorySteps.dfy` what single steps change, and
`Disposal.dfy` when a disposal is final.

**Disposable workers.** `RunLease.dfy`, `Workers.dfy` and `WorkerTheorems.dfy` model lease files, fenced
checkpoints, the retry loop and the effect sink as a transition system with crashes, stalls and takeovers
at any step. The effect theorems use no property of the leases. `LeaseTiming.dfy` says how long a lease holds,
who gets it next, and what single steps record. `RunCompletion.dfy` says when a run that is reported completed
has its effect.

**Audit.** `AuditLog.dfy` (append and query), `Statistics.dfy` (what a population z-score can and cannot
reach), `AuditTrail.dfy` (timelines, trends, anomalies on top of both).

**Selection and budgets.** `Selection.dfy` (the auction), `ContextBudget.dfy` (greedy, reserved, adaptive and
decaying selection of context sources), `Compaction.dfy` (fitting a conversation into a character budget),
`Anchor.dfy`, `AnchorItems.dfy`, `AnchorHarm.dfy` and `AnchorRounds.dfy` (the Markdown anchor that is printed and
read back every round, items on several lines included),
`Policy.dfy` and `PolicyDates.dfy` (choosing a policy revision, by strings and by dates).

Beside the theorems about each part stand lemmas that pin its operations down by the values they take and give,
without the model's own definitions (their names end in `Exactly` for the most part).

`Sequences.dfy`, `Text.dfy`, `Lines.dfy` and `Identity.dfy` hold what they share: filtering, Python's stable
`sorted`, its string order, `strip`, `splitlines` and slicing, decimal numerals and display names. The sink is
in `EffectSink.dfy`.

Parameters: fresh ids, times and attempt ids are arguments; `math.sqrt` is any function that squares to its
argument; `date.fromisoformat` and `str.upper` are arbitrary functions; which nodes retry, and whether a disk
may refuse a save, are fixed per application; what the compaction patterns find in a turn is an arbitrary
function of the turn.

## Where the code is not what one would expect

- Replaying a spawn key raises `KeyError` exactly when its instance was disposed, its admission was cancelled
  between publish and store, or somebody else put the key into the sink, before or after the directory was
  built (`ReplayFailsExactlyWhenLost`, `DisposedKeyRaises`). No assumption is needed that a key determines its
  agent and task: the sink compares payloads, which name both.
- `dispose` takes no admission lock. A disposal is final, as long as nobody admits for the run again, exactly
  when no unfinished call of the run owns its key or finds it free in the sink (`DisposalIsFinalExactly`);
  `DisposedRunCanReappear` is a run where it is not. Both sinks of the repository return without suspending
  once a key is recorded, so such runs need an injected sink that awaits after recording.
- The same-status transition skips the table. On a terminal record it is the only one that succeeds, and it
  stamps a new terminal time (`TerminalIsRestamped`).
- A completed run need not have its effect. With `retry_on_failure`, the default, a publish node that fails on
  every attempt is still counted as completed (`LostPublication`). Without it a failed node stops the run and
  is run again by a resume, but if the save that names it is refused for any other reason than the lease, the
  exception handler saves the failure without the name, and the resume skips the node (`ForgottenFailure`).
  And run ids that differ only in ':', '/' and '-' share lease and checkpoint files (`SharedFiles`), so a worker
  can resume another run's checkpoint and complete its own run without having published for it
  (`CollisionCompletes`); the effects that are stored stay right all the same. In all histories a run that a
  worker completes has its effect exactly if the publish node stops on failure, no such refusal happens, and
  no two run ids in use share files (`RunsPublishExactly`); the flags of the other nodes do not matter. For the
  run that the context names, the first two are exact (`CompletionMeansPublicationExactly`). For one checkpoint
  the file itself tells: a resume can come to a published output exactly if every completed node but the
  failed one has left its output (`ResumePublishesExactly`).
- `query` answers with the oldest entries, so the entries that `get_quality_trend` is computed from are the
  recent ones, as its docstring says, exactly while the window is not exceeded (`AnswerIsNewest`), and the
  trend is frozen once it is full (`TrendFreezes`). A limit below 1 lets one entry through.
- `m2_adaptive_select` stays within the budget exactly for non-negative budgets and reserves
  (`AdaptiveWithinBudget`), `m2_select` exactly for non-negative budgets that cover the reserve
  (`M2WithinBudget`).
- `m3_compact` is three characters below its budget exactly from 53 up, for role names of up to 16 characters
  (`M3FitsExactly`); below that it slices with a negative index.
- An item such as `(none)`, one ending in a space after its dots were taken off, or one on several lines, does
  not survive printing (`RoundTripExactly`, `PrintedItemIsReadExactly`). The patterns let a newline follow
  their keyword, so items on several lines do occur, and their later lines are read as lines of the summary.
  An item leaves every clean printed item its place exactly if, read on its own, it does not leave its section,
  takes at most one place in it, and none in a later one (`SparesOthersExactly`). "Decision:" followed by a
  line "## X" is not such an item (`HeadingInItemLosesNext`); one whose later lines start neither with "## " nor
  with "- " always is (`PlainIsHarmless`). Beside such items a clean item stays printed for ever
  (`PrintedStaysPrinted`). A file mentioned again after a compaction is listed twice (`FilesDistinctExactly`).
- The latest policy is found by comparing strings. On any set of date strings that is the choice by date,
  abstention over revisions of one day included, exactly if the strings compare as the dates
  (`AlwaysByDateExactly`). Full dates (RFC 3339, section 5.1) do, and so do basic dates; lists that mix the two
  notations do not (`ByDateUnlessMixed`): an older revision can win (`BasicFormatMisleads`), and two revisions
  of one day can pass without a conflict (`OneDayIsNoConflict`).

## Model

| member | source | states |
|---|---|---|
| Identity.DisplayNameRoundTrip | src/cemaf/agents/identity.py:20-22 | an alias split at its last '-' gives back agent id and ordinal, whatever the id contains |
| Identity.DisplayNameInjective | src/cemaf/agents/identity.py:20-22 | two equal aliases have equal agent ids and ordinals |
| EffectSink.InMemoryIdempotentEffectSink.PublishEffect | src/cemaf/persistence/idempotency.py:71-79 | first payload of a key is stored, an equal one is a replay, another one a conflict; nothing else changes |
| Directory.NextAliasUnused | src/cemaf/agents/directory.py:101-106 | the next alias of a pair is in no slot, even after disposals and across agents |
| Directory.CommitValid | src/cemaf/agents/directory.py:118-121 | storing a new instance keeps the four maps mutually inverse |
| Directory.TransitionValid | src/cemaf/agents/directory.py:146-180 | a transition keeps the maps mutually inverse and terminal times on terminal records only |
| Directory.LookupIsScan | src/cemaf/agents/directory.py:124-131 | lookup by id and by alias both find exactly what a linear scan of the task's instances finds |
| Directory.ListingIsStableScan | src/cemaf/agents/directory.py:133-144 | a listing is the matching records, all of them once, by creation time, ties in admission order |
| Directory.PopIsWithout | src/cemaf/agents/directory.py:186-191 | the four pops remove exactly one instance's entries, found from either side of each map |
| Directory.TerminalIsRestamped | src/cemaf/agents/directory.py:157-180 | a terminal record accepts exactly its own status, is then stamped with the new time, and is otherwise unchanged |
| Directory.DisposeRemovesExactlyTheRun | src/cemaf/agents/directory.py:182-191 | every lookup and replay answers as before, or with nothing if it was of the run; counters are not reset |
| Directory.DisposedKeyIsSpent | src/cemaf/agents/directory.py:96-99 | admitted, disposed and admitted again, a key raises KeyError and nothing changes |
| Directory.AdmissionReturns | src/cemaf/agents/directory.py:101-122 | an admission under a new key returns a QUEUED instance with the given id, time and attempt and each of the request's fields in its place, and files exactly that instance under its id, key, alias and ordinal |
| Directory.SecondAdmitExactly | src/cemaf/agents/directory.py:85-99 | a second admission under the key replays iff agent, task, run, node, council slot, parent and replaced id all agree, capabilities aside, and is a conflict otherwise; nothing changes |
| Directory.ListsExactly | src/cemaf/agents/directory.py:133-144 | a listing holds an instance iff it is one of the task and has the asked status, if one is asked; by creation time |
| Directory.AdmittedIsListedLast | src/cemaf/agents/directory.py:118-144 | an instance admitted no earlier than the others is listed, last, in its task unless another status is asked; the rest of the listing is as before |
| Directory.TransitionExactly | src/cemaf/agents/directory.py:19-40 | a record of the task can move iff to its own status or by one of eleven listed moves, and then changes in status, terminal time and attempt id only; otherwise the error says which of both was wrong |
| AgentDirectories.InMemoryAgentDirectory.constructor | src/cemaf/agents/directory.py:63-70 | starts empty and valid over any sink |
| AgentDirectories.InMemoryAgentDirectory.Admit | src/cemaf/agents/directory.py:72-122 | all fields, the sink and the result, errors included, are those of the specification, and validity is kept; AdmissionReturns and SecondAdmitExactly say what these are |
| AgentDirectories.InMemoryAgentDirectory.Get | src/cemaf/agents/directory.py:124-131 | returns an instance named so in the task, and nothing only if there is none |
| AgentDirectories.InMemoryAgentDirectory.List | src/cemaf/agents/directory.py:133-144 | the loop and the sort compute the specified listing |
| AgentDirectories.InMemoryAgentDirectory.Transition | src/cemaf/agents/directory.py:146-180 | new state and result are those of the specification, which TransitionExactly states, identity fields untouched |
| AgentDirectories.InMemoryAgentDirectory.Dispose | src/cemaf/agents/directory.py:182-191 | the pop loop over the stale ids removes the whole run and nothing else |
| AgentDirectories.InMemoryAgentDirectory.PopRecord | src/cemaf/agents/directory.py:187-191 | one instance is gone from all four maps, whichever side its entries are found from, and they stay mutually inverse |
| AgentDirectories.InMemoryAgentDirectory.Stale | src/cemaf/agents/directory.py:183-185 | the ids of the run, each once |
| AdmissionProtocol.StepInv | src/cemaf/agents/directory.py:94-122 | every step of any interleaving keeps the invariant over locks, keys, births, ordinals and identities |
| AdmissionTheorems.InvAlways | src/cemaf/agents/directory.py:94-191 | the invariant holds in every state of every run from an empty directory |
| AdmissionTheorems.SinkKeyAccountedFor | src/cemaf/agents/directory.py:96-119 | whoever else uses the sink, a key is in it iff it is stored, lost, or owned by the one client holding its lock, exclusively |
| AdmissionTheorems.ReplayFailsExactlyWhenLost | src/cemaf/agents/directory.py:97-99 | a replay raises KeyError iff its key was disposed, cancelled before the store, or published by somebody else, and otherwise returns the minted instance |
| AdmissionTheorems.SameKeySameInstance | src/cemaf/agents/directory.py:94-122 | callers get the same instance iff they used the same key |
| AdmissionTheorems.AliasesDistinct | src/cemaf/agents/directory.py:101-121 | no alias is minted twice within a task, across agents and disposals |
| AdmissionTheorems.AliasNeverReassigned | src/cemaf/agents/directory.py:124-131 | a stale alias resolves, at any later time, to its own instance or to nothing |
| AdmissionTheorems.OrdinalsGapFree | src/cemaf/agents/directory.py:101-102 | the ordinals of a pair are 1 up to the counter, each on exactly one instance |
| AdmissionTheorems.LifecycleIsPath | src/cemaf/agents/directory.py:19-44 | between two moments an instance is live it was live throughout, its statuses a path of the table, its identity fixed |
| AdmissionTheorems.TerminalIsFinal | src/cemaf/agents/directory.py:41-43 | a terminal status never changes and QUEUED is never re-entered |
| AdmissionTheorems.CompletedWasRunning | src/cemaf/agents/directory.py:19-40 | COMPLETED and WAITING come only after RUNNING |
| AdmissionTheorems.TerminalTimeIffTerminal | src/cemaf/agents/directory.py:160-160 | a terminal time is set exactly on terminal records, in every state |
| AdmissionTheorems.NoDeadlock | src/cemaf/agents/directory.py:94-95 | while a call is unfinished some client can go on without a cancellation |
| AdmissionTheorems.StepsRefineAdmit | src/cemaf/agents/directory.py:94-122 | uninterrupted, the steps of a call do what the sequential admit does, errors included |
| DirectorySteps.MoveTakesEffect | src/cemaf/agents/directory.py:146-180 | between any other steps, a listed move changes just the one record, and no call, lock or key |
| DirectorySteps.DisposalTakesEffect | src/cemaf/agents/directory.py:182-191 | between any other steps, a disposal takes exactly the run's records, and no call, lock or counter |
| DirectorySteps.LosesKeyExactly | src/cemaf/agents/directory.py:94-122 | each step loses a key iff it disposes of its run, cancels its call between publish and store, or publishes it first from outside |
| AdmissionTheorems.DisposedRunCanReappear | src/cemaf/agents/directory.py:182-191 | witness of a disposal that is not final: five steps after which an instance of a disposed run is live |
| Disposals.DisposalIsFinalExactly | src/cemaf/agents/directory.py:182-191 | without a new call of the run, none of its instances is ever live again iff no unfinished call of it owns its key or finds it free |
| Disposals.MinterMints | src/cemaf/agents/directory.py:94-122 | from any such call on, a continuation without new calls leads to a live instance of the run |
| Disposals.LostKeyRaises | src/cemaf/agents/directory.py:97-99 | after any run, an admit with a lost key and its stored payload raises KeyError |
| Disposals.DisposedKeyRaises | src/cemaf/agents/directory.py:97-99 | witness: admit, dispose, admit again ends in KeyError |
| RunLeases.StaleStaysStale | src/cemaf/orchestration/run_lease.py:57-107 | a lease that failed validation once fails it after any later change of the file |
| RunLeases.SharedFiles | src/cemaf/orchestration/run_lease.py:109-116 | two runs share their files iff they differ in ':', '/' and '-' only |
| LeaseTiming.AcquireExactly | src/cemaf/orchestration/run_lease.py:57-81 | a file that is missing, released, held by nobody or expired is granted until now plus ttl under the next token; any other is refused and unchanged |
| LeaseTiming.HoldsUntilExpiry | src/cemaf/orchestration/run_lease.py:78-92 | with nobody else at the file, a lease acquired at time c is good for a save at time t iff t < c + ttl |
| LeaseTiming.NextGetsItExactly | src/cemaf/orchestration/run_lease.py:66-107 | after an acquisition and a crash, another worker gets the file at time t iff it was released or t >= c + ttl (or the holder had an empty name), under the next token and until t plus its own ttl |
| LeaseTiming.CrashExactly | src/cemaf/orchestration/run_lease.py:94-107 | a release empties the file, keeping its token, iff holder and token are still those of the lease |
| LeaseTiming.ReleaseSparesOthers | src/cemaf/orchestration/run_lease.py:94-107 | in every reachable state, releasing one worker's lease leaves another's valid lease valid |
| LeaseTiming.LostLeaseNeverPublishes | benchmarks/red_team_durable_companion.py:88-96 | a worker that checks its lease and has lost it before the check never publishes again, whatever happens |
| LeaseTiming.SucceedRecords | examples/app_shapes/disposable_workers_durable_companion.py:136-179 | each node records the payload, its upper case, or that once more under the worker's name in its own place; publishing stores it under the run id with ":publish" |
| LeaseTiming.RetryStays | src/cemaf/orchestration/executor.py:1300-1334 | a failed attempt at a node with retries leaves everything as it was but for the recovery mark |
| LeaseTiming.PublishOnlyExactly | src/cemaf/orchestration/executor.py:1300-1331 | an attempt that publishes and then fails has stored the effect under the run's key, unless there was one, and is otherwise a failed attempt |
| LeaseTiming.RefusedSaveExactly | src/cemaf/orchestration/checkpointer.py:292-302 | a save refused by the lease, the token or the disk is followed by the save of a failure that names no node, and none follows that one or the first save of a run |
| LeaseTiming.StartIsSaved | src/cemaf/orchestration/checkpointer.py:123-143 | a fresh run is saved as RUNNING with its first context and nothing completed, and then has the three nodes before it in order |
| LeaseTiming.ResumeExactly | src/cemaf/orchestration/checkpointer.py:152-178 | a resume takes over the stored context and completed nodes and has before it, in order, the nodes not completed and the failed one |
| LeaseTiming.CompletionIsSaved | src/cemaf/orchestration/checkpointer.py:274-290 | with no node left, a COMPLETED checkpoint with all that was completed, and the run ends so |
| LeaseTiming.StopNamesNode | src/cemaf/orchestration/checkpointer.py:239-260 | a failed node without retries ends the run with a FAILED checkpoint that counts it as completed and names it as failed |
| LeaseTiming.NodeIsSaved | src/cemaf/orchestration/checkpointer.py:235-272 | a node that ran to its end is followed by a RUNNING checkpoint that counts it and has its context |
| Workers.PublishIsRight | examples/app_shapes/disposable_workers_durable_companion.py:161-166 | publishing never conflicts and stores the upper-cased payload of the run |
| Workers.NodeMoves | src/cemaf/orchestration/checkpointer.py:225-260 | a run node leaves the pending ones behind it to run, and is itself run again iff the save names it as failed |
| Workers.ResumeIsAhead | src/cemaf/orchestration/checkpointer.py:161-178 | a resume starts at the failed node or the first not completed; every other output is there iff the file shows it |
| Workers.StepInv | examples/app_shapes/disposable_workers_durable_companion.py:223-276 | every step of any worker, crashes included, keeps contexts, checkpoints, effects and tokens right |
| WorkerTheorems.InvReachable | src/cemaf/orchestration/checkpointer.py:180-311 | the invariant holds after any interleaving of any number of workers, with nodes that retry or stop on failure |
| WorkerTheorems.OneRightEffectPerRun | examples/app_shapes/disposable_workers_durable_companion.py:161-166 | every stored effect is the upper-cased payload of its run, and a run has one key only |
| WorkerTheorems.EffectsStay | src/cemaf/persistence/idempotency.py:44-54 | an effect once stored is never changed or removed |
| WorkerTheorems.PublishNeverConflicts | benchmarks/red_team_durable_companion.py:88-96 | whichever worker publishes, stale or not, the sink sees no different payload |
| WorkerTheorems.OneHolder | src/cemaf/orchestration/run_lease.py:57-92 | at most one worker of a lease file holds a lease that validates; how long it does is stated by HoldsUntilExpiry |
| WorkerTheorems.LostLeaseStaysLost | src/cemaf/orchestration/run_lease.py:83-92 | a lease lost once never validates again, whatever happens |
| WorkerTheorems.CheckpointsMoveForward | src/cemaf/orchestration/file_checkpointer.py:72-84 | a checkpoint is never replaced by one with an older token |
| WorkerTheorems.CompletedIsPublished | src/cemaf/orchestration/checkpointer.py:235-282 | a completed checkpoint shows all outputs iff it has a published one, has the right effect of its context's run then, and always does if the publish node stops on failure and no save is refused |
| WorkerTheorems.CanFinish | src/cemaf/orchestration/checkpointer.py:204-290 | a worker of either kind whose lease holds can finish alone, with the run completed and its effect stored |
| WorkerTheorems.TakeoverCanFinish | examples/app_shapes/disposable_workers_durable_companion.py:223-276 | from any reachable crash, a new worker that gets the free lease completes the run if the checkpoint shows every output it should |
| WorkerTheorems.ResumePublishesExactly | src/cemaf/orchestration/checkpointer.py:161-178 | a resume under a good lease can come to a published output iff the checkpoint shows every output it should |
| WorkerTheorems.CompletionMeansPublicationExactly | src/cemaf/orchestration/checkpointer.py:235-311 | in all histories a completed checkpoint has the effect of the run its context names iff the publish node stops on failure and no good lease is refused a save |
| RunCompletions.RunsPublishExactly | src/cemaf/orchestration/checkpointer.py:145-311 | in all histories of workers of given runs, a run that a worker completes has its effect iff moreover no two of these runs share files |
| RunCompletions.CollisionCompletes | src/cemaf/orchestration/checkpointer.py:145-178 | two runs that share files: the second is completed on the first one's checkpoint, without its effect |
| WorkerTheorems.CompletedWithoutEffect | src/cemaf/orchestration/checkpointer.py:235-282 | with retries, giving up the publish node leads to a COMPLETED checkpoint with the effects unchanged |
| WorkerTheorems.LostPublication | src/cemaf/orchestration/checkpointer.py:235-282 | with retries such a run exists for every run id, from empty disks |
| WorkerTheorems.ForgottenFailure | src/cemaf/orchestration/checkpointer.py:292-302 | without retries but with one refused save, a resume skips the failed node and the run completes unpublished |
| Statistics.Samuelson | src/cemaf/audit/trail.py:60-63 | a squared deviation is at most (n - 1) times the population variance |
| Statistics.FlaggedBound | src/cemaf/audit/trail.py:62-68 | among n scores nothing reaches a threshold above sqrt(n - 1) |
| Statistics.FourScoresFlagNothing | src/cemaf/audit/trail.py:38-68 | at the default threshold fewer than five scores flag nothing |
| Statistics.BoundIsSharp | src/cemaf/audit/trail.py:62-68 | one outlier among equal scores is flagged iff the squared threshold is at most n - 1 |
| Statistics.Chebyshev | src/cemaf/audit/trail.py:66-68 | at threshold t at most n / t^2 scores are flagged |
| Statistics.FlagsAreScaleFree | src/cemaf/audit/trail.py:60-68 | mapping all scores by a non-constant affine map flags the same ones |
| AuditLogs.EventBusAuditLog.Append | src/cemaf/audit/subscriber.py:51-53 | the entry is added at the end |
| AuditLogs.EventBusAuditLog.Query | src/cemaf/audit/subscriber.py:55-75 | the loop with its break returns the specified answer, which QueryExactly states |
| AuditLogs.EventBusAuditLog.CountOf | src/cemaf/audit/subscriber.py:77-81 | the loop counts the entries the specification counts, which CountExactly states |
| AuditLogs.QueryExactly | src/cemaf/audit/subscriber.py:55-75 | every answered entry is in the log with the asked run and kind and not before the asked time; below the limit all such entries are answered, otherwise the first of them, as many as the limit |
| AuditLogs.CountExactly | src/cemaf/audit/subscriber.py:77-81 | the count is the number of indices with the run id, or of all |
| AuditLogs.AnswerGrows | src/cemaf/audit/subscriber.py:64-75 | a later answer extends an earlier one, and equals it once the limit is reached |
| AuditLogs.AnswerIsNewest | src/cemaf/audit/subscriber.py:64-75 | an answer is the newest matches iff there are no more matches than the limit |
| AuditTrails.InMemoryAuditTrail.GetRunTimeline | src/cemaf/audit/trail.py:17-20 | the specified timeline of the log's current entries |
| AuditTrails.InMemoryAuditTrail.GetQualityTrend | src/cemaf/audit/trail.py:22-36 | the loop that skips unreadable scores, and the final slice, compute the specified trend |
| AuditTrails.InMemoryAuditTrail.GetAnomalies | src/cemaf/audit/trail.py:38-71 | alerts first, then the scored entries the z-score flags and no alert id repeats |
| AuditTrails.TimelineIsStable | src/cemaf/audit/trail.py:17-20 | a timeline is a stable permutation of the query, by timestamp |
| AuditTrails.TimelineExactly | src/cemaf/audit/trail.py:17-20 | a timeline holds entries of the run only, by timestamp: all of them up to 10000, and else the first 10000 |
| AuditTrails.TimelineOfSteadyClock | src/cemaf/audit/trail.py:17-20 | with timestamps in append order the sort changes nothing |
| AuditTrails.TrendByWindow | src/cemaf/audit/trail.py:24-36 | the final slice cuts nothing for windows from 0 up; 0 acts as 1 and a negative window gives nothing |
| AuditTrails.TrendExactly | src/cemaf/audit/trail.py:22-36 | for windows from 1 up, the scores of the first evaluations in the log, as many as the window |
| AuditTrails.TrendFreezes | src/cemaf/audit/trail.py:22-36 | after `window` evaluations the trend is the same whatever is appended |
| AuditTrails.AnomaliesAreDistinct | src/cemaf/audit/trail.py:44-71 | unique log ids give a report without repeated ids |
| AuditTrails.ReportedExactly | src/cemaf/audit/trail.py:44-71 | reported are the alerts and exactly the scored entries of other ids whose squared deviation reaches t^2 times a non-zero variance |
| AuditTrails.SmallLogReport | src/cemaf/audit/trail.py:38-71 | up to 10000 entries of each kind, told by the log alone: all quality alerts, and the evaluations with a score, an id of no alert, and a squared deviation from the mean of at least t^2 times a non-zero variance |
| AuditTrails.FewOutliers | src/cemaf/audit/trail.py:59-69 | the report extends the alerts by k entries with k t^2 at most the number of scored entries |
| AuditTrails.TooFewScores | src/cemaf/audit/trail.py:59-69 | if t^2 exceeds the number of scored entries minus one, the report is the alerts |
| AuditTrails.AnomaliesAreScaleFree | src/cemaf/audit/trail.py:44-71 | rescaling, shifting or inverting the scores of the whole log reports the same entries |
| Selection.ReadCapabilities | src/cemaf/agents/selection.py:107-126 | nothing for an unreadable attribute, else exactly the capabilities its items name |
| Selection.AdvertisesExactly | src/cemaf/agents/selection.py:117-126 | each capability is advertised by its member or by its exact name in lower case, and by nothing else |
| Selection.BidExactly | src/cemaf/agents/selection.py:140-154 | with a reported load x in [0, 1]: match 1 or 0.3, load factor 1 - x, headroom what the larger utilisation leaves of 1, and the score 0.5, 0.3 and 0.2 of them |
| Selection.LoadIsReadAs | src/cemaf/agents/selection.py:129-134 | no auction tells a load below 0 from 0, above 1 from 1, or none from 0.5 |
| Selection.LeaderWins | src/cemaf/agents/selection.py:156-162 | of agents that report loads in [0, 1], one that is capable before, else less loaded, else greater in id than each other one wins, in any order |
| Text.LessExactly | src/cemaf/agents/selection.py:161-161 | ids compare by the character at their first difference, or as a proper prefix |
| Selection.ScoreIsWeightedSum | src/cemaf/agents/selection.py:140-154 | the outer clamp never changes a score |
| Selection.CapabilityMargin | src/cemaf/agents/selection.py:141-147 | an advertiser outbids a non-advertiser by at least 0.05 whatever loads are reported |
| Selection.ScoreIsLexicographic | src/cemaf/agents/selection.py:147-161 | one bid beats another iff its agent is capable before, or less loaded, or greater in id, in this order |
| Selection.WinnerIsBest | src/cemaf/agents/selection.py:156-162 | the sort by (score, id) selects the first best-ranked candidate |
| Selection.CapableWins | src/cemaf/agents/selection.py:156-162 | if anyone advertises the capability, the winner does |
| Selection.UtilisationDecidesNothing | src/cemaf/agents/selection.py:144-146 | cost and token utilisation never change who wins |
| Selection.OrderDecidesNothing | src/cemaf/agents/selection.py:160-162 | the winning bid does not depend on the order of the candidates |
| Selection.SelectFromConcat | src/cemaf/agents/selection.py:156-162 | the winner of two groups together is the better of their winners |
| Selection.LowerLoadStillWins | src/cemaf/agents/selection.py:129-162 | a winner that reports a load no greater than before still wins |
| ContextBudget.SelectRanked | docs/pocs/_experiments/tool_output_bucket_bench.py:91-97 | the accumulating loop computes the greedy choice, what it skipped, and the tokens used |
| ContextBudget.M1Select | docs/pocs/_experiments/tool_output_bucket_bench.py:88-99 | greedy on the sources by priority, then newest first |
| ContextBudget.Prune | docs/pocs/_experiments/tool_output_bucket_bench.py:109-123 | greedy on the tool outputs, newest first, with what it evicts |
| ContextBudget.M2Select | docs/pocs/_experiments/tool_output_bucket_bench.py:126-145 | bucket of the reserve, then the others within what is left; number of evictions |
| ContextBudget.M2AdaptiveSelect | docs/pocs/_experiments/tool_output_bucket_bench.py:284-310 | the others outside the reserve first, then a bucket of all that is left; number of evictions |
| ContextBudget.M3Select | docs/pocs/_experiments/tool_output_bucket_bench.py:151-170 | greedy by decayed priority, then newest first |
| ContextBudget.MaxTurn | docs/pocs/_experiments/tool_output_bucket_bench.py:153-153 | an upper bound of the tool outputs' turns that is attained, or 0 without any |
| ContextBudget.PickFits | docs/pocs/_experiments/tool_output_bucket_bench.py:93-97 | the choice stays within a non-negative budget and is empty below zero |
| ContextBudget.GreedyIsGreatest | docs/pocs/_experiments/tool_output_bucket_bench.py:93-97 | against any other subset that fits, the first source where they differ is one greedy took |
| ContextBudget.GreedyIsMaximal | docs/pocs/_experiments/tool_output_bucket_bench.py:93-97 | no skipped source fits into what is left |
| ContextBudget.TotalExactly | docs/pocs/_experiments/tool_output_bucket_bench.py:94-97 | a list of sources costs the tokens its members count, an unknown count being 0 |
| ContextBudget.GreedyExactly | docs/pocs/_experiments/tool_output_bucket_bench.py:88-99 | the choice is by descending priority, then newest first, within the budget, and no source left out fits into what is left |
| ContextBudget.PickTakesPrefix | docs/pocs/_experiments/tool_output_bucket_bench.py:117-122 | a leading stretch of the ranking that fits is taken whole |
| ContextBudget.PrunePartitions | docs/pocs/_experiments/tool_output_bucket_bench.py:111-123 | kept and evicted outputs are together exactly the tool outputs |
| ContextBudget.ToolsAndOthersExactly | docs/pocs/_experiments/tool_output_bucket_bench.py:111-112 | tool outputs are the sources of that type, newest first; the others are the rest by rank; together they are all sources |
| ContextBudget.M2Exactly | docs/pocs/_experiments/tool_output_bucket_bench.py:126-145 | first the chosen others by rank, then the chosen tool outputs newest first; a tool output left out exceeds the reserve, any other source the whole budget |
| ContextBudget.AdaptiveExactly | docs/pocs/_experiments/tool_output_bucket_bench.py:284-310 | the same layout; a tool output left out exceeds the whole budget, any other source what is not reserved |
| ContextBudget.M2WithinBudget | docs/pocs/_experiments/tool_output_bucket_bench.py:126-145 | within budget on all inputs iff the budget is not negative and covers the reserve |
| ContextBudget.AdaptiveWithinBudget | docs/pocs/_experiments/tool_output_bucket_bench.py:284-310 | within budget on all inputs iff budget and reserve are not negative |
| ContextBudget.ReservedToolsSurvive | docs/pocs/_experiments/tool_output_bucket_bench.py:284-310 | the newest tool outputs that fit a reserve within the budget are selected, whatever else competes |
| ContextBudget.AdaptiveKeepsWhatFits | docs/pocs/_experiments/tool_output_bucket_bench.py:284-310 | if the others fit outside the reserve and everything fits the budget, everything is selected |
| ContextBudget.NoDecayIsGreedy | docs/pocs/_experiments/tool_output_bucket_bench.py:151-170 | with decay 0 the third selector is the first |
| ContextBudget.DecayExactly | docs/pocs/_experiments/tool_output_bucket_bench.py:155-161 | a tool output n turns old ranks like a source with n decays less priority, ties to the newer |
| ContextBudget.DecayedExactly | docs/pocs/_experiments/tool_output_bucket_bench.py:151-170 | whatever the decay: in decayed order, within the budget, and no source left out fits into what is left |
| ContextBudget.DecayPrefersLaterTurns | docs/pocs/_experiments/tool_output_bucket_bench.py:155-161 | with positive decay, of two tool outputs of one priority the later turn ranks first whatever the timestamps |
| ContextBudget.DecaySparesOthers | docs/pocs/_experiments/tool_output_bucket_bench.py:155-161 | all other sources keep the order of `__lt__` |
| Lines.SplitJoin | docs/pocs/_experiments/anchored_compaction_bench.py:128-165 | splitting a join into lines gives back lines without boundaries, unless the last is empty |
| Lines.StripExactly | docs/pocs/_experiments/anchored_compaction_bench.py:122-129 | stripping cuts the spaces at both ends, all of them and nothing else |
| Lines.RStripDotsExactly | docs/pocs/_experiments/anchored_compaction_bench.py:122-122 | and the final dots likewise |
| Anchors.ExtractAnchor | docs/pocs/_experiments/anchored_compaction_bench.py:109-153 | the loops over the previous summary and over the findings compute the specified sections |
| Anchors.RenderSection | docs/pocs/_experiments/anchored_compaction_bench.py:158-164 | heading, then the first ten items or the empty marker |
| Anchors.RenderAnchor | docs/pocs/_experiments/anchored_compaction_bench.py:156-165 | all sections in order, joined by newlines |
| Anchors.BlockExactly | docs/pocs/_experiments/anchored_compaction_bench.py:158-164 | a section is its heading and the first up to ten items behind dashes, or the marker |
| Anchors.RenderExactly | docs/pocs/_experiments/anchored_compaction_bench.py:110-118 | the seven sections are printed under their names in the given order |
| Anchors.NormalIsIdempotent | docs/pocs/_experiments/anchored_compaction_bench.py:121-124 | normalising twice is normalising once iff no space is left at the end |
| Anchors.ReadBackExactly | docs/pocs/_experiments/anchored_compaction_bench.py:128-134 | a printed one-line item is read back iff it is clean and new to its section |
| Anchors.RoundTripExactly | docs/pocs/_experiments/anchored_compaction_bench.py:109-165 | printing and re-extracting gives the same sections iff each has at most ten, distinct, clean items |
| AnchorRounds.ExtractContents | docs/pocs/_experiments/anchored_compaction_bench.py:136-153 | a section holds what the previous summary had there and what the turns add to it by name, and nothing else |
| AnchorRounds.ExtractSnoc | docs/pocs/_experiments/anchored_compaction_bench.py:136-151 | one more turn appends to each section what is found in it and moves nothing |
| AnchorItems.ReadAnyRender | docs/pocs/_experiments/anchored_compaction_bench.py:128-165 | any printed anchor, whatever its items, is read line by line of its printed list, each line split on its own |
| AnchorItems.PrintedItemIsReadExactly | docs/pocs/_experiments/anchored_compaction_bench.py:128-134 | whatever the item: it is read back as it is iff it is clean and new to its section |
| AnchorItems.PlainIsHarmless | docs/pocs/_experiments/anchored_compaction_bench.py:128-134 | an item whose later lines start neither with "## " nor with "- " takes at most its own place |
| AnchorHarm.SparesOthersExactly | docs/pocs/_experiments/anchored_compaction_bench.py:109-165 | over all anchors printing the item beside one-line items, every clean printed item stays printed iff it keeps to its section, takes one place at most there and none later |
| AnchorHarm.CleanStaysPrinted | docs/pocs/_experiments/anchored_compaction_bench.py:128-165 | a clean printed item is read among the first ten if what is printed up to its section is harmless |
| AnchorHarm.HeadingInItemLosesNext | docs/pocs/_experiments/anchored_compaction_bench.py:103-165 | witness: after the item "Decision:", newline, "## X" the clean item printed next is lost |
| AnchorRounds.RoundKeepsItem | docs/pocs/_experiments/anchored_compaction_bench.py:109-165 | one round prints every clean printed item again, whatever the turns add, if what is printed up to its section is harmless |
| AnchorRounds.RoundIsOneLine | docs/pocs/_experiments/anchored_compaction_bench.py:109-165 | if what the turns add is on one line, so is every item after the round |
| AnchorRounds.RoundIsHarmless | docs/pocs/_experiments/anchored_compaction_bench.py:109-165 | after a round everything printed is harmless, if what the turns add is |
| AnchorRounds.PrintedStaysPrinted | docs/pocs/_experiments/anchored_compaction_bench.py:109-165 | over any number of rounds a clean item printed once stays printed, if what these turns add up to its section is harmless |
| AnchorRounds.FirstRound | docs/pocs/_experiments/anchored_compaction_bench.py:126-134 | no previous summary acts like the printed empty one |
| AnchorRounds.FilesDistinctExactly | docs/pocs/_experiments/anchored_compaction_bench.py:147-151 | no file is listed twice iff none that is found was listed in the previous summary |
| Compaction.M1FitsExactly | docs/pocs/_experiments/anchored_compaction_bench.py:76-80 | truncation respects the budget iff the text fits or the budget is at least 3 |
| Compaction.LineExactly | docs/pocs/_experiments/anchored_compaction_bench.py:77-77 | a turn is printed as its role in brackets, a space and its content |
| Compaction.TextRoundTrip | docs/pocs/_experiments/anchored_compaction_bench.py:77-77 | a text of one-line turns splits into their lines, and no other such turns have the same text |
| Compaction.TruncateExactly | docs/pocs/_experiments/anchored_compaction_bench.py:78-80 | a text over the limit keeps its first limit - 3 characters, or for limits below 3 loses its last 3 - limit, before the dots |
| Compaction.M2Compact | docs/pocs/_experiments/anchored_compaction_bench.py:86-96 | the backward loop renders the specified tail |
| Compaction.TailIsSuffix | docs/pocs/_experiments/anchored_compaction_bench.py:89-95 | the tail is a suffix whose cost fits |
| Compaction.TailIsLongest | docs/pocs/_experiments/anchored_compaction_bench.py:89-95 | no longer suffix fits |
| Compaction.CostExactly | docs/pocs/_experiments/anchored_compaction_bench.py:90-94 | turns cost their content and 20 characters each |
| Compaction.M2Exactly | docs/pocs/_experiments/anchored_compaction_bench.py:86-96 | the text of the turns from some index on that fit, where with the turn before they would not |
| Compaction.M2Fits | docs/pocs/_experiments/anchored_compaction_bench.py:86-96 | with roles of up to 16 characters the text is below a budget of 20 or more, and empty under it |
| Compaction.OverheadCoversRoles | docs/pocs/_experiments/anchored_compaction_bench.py:90-96 | the overhead of 20 covers every conversation iff roles have at most 16 characters |
| Compaction.M3Compact | docs/pocs/_experiments/anchored_compaction_bench.py:168-176 | the composition of tail, anchor and truncation for any tail fraction |
| Compaction.ShareExactly | docs/pocs/_experiments/anchored_compaction_bench.py:169-169 | the tail's share is the product rounded towards zero, for any budget and fraction |
| Compaction.M3Exactly | docs/pocs/_experiments/anchored_compaction_bench.py:168-176 | the anchor, whole iff it fits what the tail leaves and else cut to it, and the tail, each under its heading |
| Compaction.M3FitsWhere | docs/pocs/_experiments/anchored_compaction_bench.py:168-176 | for any fraction and roles: at most budget - 3 characters iff the anchor fits what the tail leaves or that is at least 3 |
| Compaction.M3FitsExactly | docs/pocs/_experiments/anchored_compaction_bench.py:168-176 | at the default fraction: at most budget - 3 characters iff the budget is at least 53, for roles of up to 16 characters |
| Policies.BeforeAtExactly | examples/app_shapes/policy_evidence.py:57-57 | the policy id is the whole source id or what stands before its first @ |
| Policies.EligibleExactly | examples/app_shapes/policy_evidence.py:53-61 | eligible iff approved, of the tenant and the policy id, started by the date and not ended before it; an error iff a date that is reached cannot be read |
| Policies.AloneExactly | examples/app_shapes/policy_evidence.py:53-68 | a single policy is chosen iff eligible, an error iff malformed, and otherwise no answer |
| Policies.AbstainsExactly | examples/app_shapes/policy_evidence.py:53-68 | no answer iff nothing is eligible, conflict iff those with the greatest date string disagree, else the first of them by source id |
| Policies.OrderDecidesNothing | examples/app_shapes/policy_evidence.py:53-68 | outcome, content and source id do not depend on the order of the list |
| Policies.IneligibleDecidesNothing | examples/app_shapes/policy_evidence.py:53-61 | an ineligible policy changes nothing wherever it stands |
| PolicyDates.FullDatesCompareAsStrings | examples/app_shapes/policy_evidence.py:64-65 | on full dates the string order is the date order |
| PolicyDates.BasicDatesCompareAsStrings | examples/app_shapes/policy_evidence.py:64-65 | and so it is on basic dates |
| PolicyDates.AlwaysByDateExactly | examples/app_shapes/policy_evidence.py:52-68 | on all lists over a set of date strings the choice is the latest by date and abstains on disagreement of one day iff the strings compare as the dates |
| PolicyDates.ByDateUnlessMixed | examples/app_shapes/policy_evidence.py:52-68 | that is so for full and basic dates iff not both notations are in use |
| PolicyDates.FullDatesAreDecidedByDate | examples/app_shapes/policy_evidence.py:52-68 | if the eligible policies have full dates: conflict iff two of no later date differ in content, else none is later than the chosen one |
| PolicyDates.BasicFormatMisleads | examples/app_shapes/policy_evidence.py:64-65 | an older revision in the basic format is chosen over a newer one |
| PolicyDates.OneDayIsNoConflict | examples/app_shapes/policy_evidence.py:64-67 | two different revisions of one day in the two notations are chosen from, not abstained on |

## Left out

- Floating point: scores, loads, thresholds and statistics are reals, and NaN and infinities do not occur.
- Directory: UUID generation, clocks and attempt ids (arguments); `to_dict`; the `asyncio.Lock` queue order
  (any waiting call may get a free lock, so fairness is not stated).
- Workers: run loggers, traces and replay; checkpoint pruning; `checkpoint_on_failure` switched off; interpreter crashes inside an atomic file write;
  a cancellation token; the number of attempts and the pauses between them (any number of failed attempts may
  precede a success or a give-up); interceptors and budgets of the executor.
- Workers: the effect files of different keys never collide (their names are SHA-256 digests).
- Audit: turning bus events into entries and resolving the actor; payloads other than the score; score values
  that `float()` reads from strings appear as the number read.
- Audit: signing, the PostgreSQL log and the second entry model, which are library calls.
- Selection: registries and executors around the auction; `to_metadata`; the fidelity floors.
- Context budget: statistics, timing and scenario code; `M3Select` compares timestamps exactly, where the code
  goes through a float.
- Compaction: the regular expressions. What they find is an arbitrary function of the turn. Recall scoring is
  left out.
- Policies: everything after the choice of a revision; a missing dictionary key. Week dates such as
  `2026-W01-1`, which `fromisoformat` reads too, have no parser of their own; `AlwaysByDateExactly` covers them
  as strings.
- Blueprints, the agent registry, factories, the command line and bootstrap: wiring without state to keep.
