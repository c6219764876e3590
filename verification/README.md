# Mind Runtime: verified models of the durable state machines

Mind Runtime keeps a companion's memory, affect and intents in small durable stores that several processes and threads
touch, and that crashes may cut at any point. This project models those state machines in Dafny and proves what they
keep over every run: every sequence of crashes, failures, replays and interleavings is a sequence of actions of a step
system, and the theorems quantify over all of them. Code that updates objects is a class whose methods are proved
against the functions those theorems speak about.

## What is modelled

**Checkpointed offline rebuild** (`historical/`). `SourceCurator`, `SourceIterator` and `ContextAssembler` are the
classifier, the keyset enumeration and the bounded context. `RebuildMachine` is the loop of `run` and `_compile` as a
step system, one action per durable write or outside call, with a crash possible between any two. A `World` answers
every outside call as a function of the instant, so it stands for any behaviour of the worker, admission, the disk and
the selection callback. `RebuildSafety` holds the invariant, `RebuildTheorems` the statements over whole runs,
`RebuildReentry` and `RebuildOverrun` the one promise that needs a guard. `HistoricalRebuilds` is the object itself,
whose methods are shown to produce schedules of the step system.

**Cognitive decision pass** (`src/mind_runtime/cognition/tick.py`, `src/mind_runtime/intents/`). `IntentLifecycle` is the
transition table with its idempotency keys and the scheduler; `CognitiveTick` admission and the ordered agenda;
`CognitivePass` one decision pass; `CognitiveReplay` a decision pass cut anywhere and run again; `CognitiveDrives` an
instant driven again, scheduler first; `CognitiveRuns` sequences of ticks, wakes, settlements and turns;
`CognitiveInstances` six small histories that surprise; `CognitiveTickers` the loops of `_decide` and their counters.

**Registry, storage and personas.** `RegistryStore`, `RegistryHistory` and `BindingRegistries` refine the entry list to
an injective id-to-identity map, one optional default per environment and write-once pins; `RegistryFailures` says when
each failure code is given. `StorageNamespace` resolves
bindings to paths and claims manifests. `PersonaPublication` is concurrent create-once publication, at the level of
temporary files, links and reads.

**Gateway readiness** (`xiyue/mr_seam.py`). `Readiness` is what each call does; `ReadinessProtocol` interleaves the steps
of any number of threads and processes over the one file and its one temporary name; `ReadinessTakeover` says when the
newest epoch's record stays.

**Smaller structures.** `TurnPaging` (page walks), `AffectTrends` (forward-filled trends), `FrozenValues` (canonical
nested values), `SemanticPass` (one Body pass and its callbacks), `TraceJournal` (sanitizing, numbering, aggregation),
`CausalTraceStores` (the bounded cache), `RuntimeAdmission` (namespace leases). `JsonValues` and `Texts` are the values and the containment test some of them
share. `Keyset` has the order and top-k theory
that the enumeration, the agenda and the pages share.

## Where the code keeps less than one might read into it

Each of these has a lemma with its exact condition; a lemma beside it gives a concrete instance where the condition alone
does not show one.

- Receipts stay within the first source after the file's cursor unless `run` is called again, on the same object, when
  memory has moved past the file and holds an answer (`EntryOverrunsIff`; `ReentryOutrunsTheFile` shows such a state).
- Driving a completed instant again is a no-op exactly when nothing in it has expired or fallen due by then and no
  deduplicated proposal was unblocked (`RedriveIsNoOpIff`; `ReplayAdmitsTheDropped` unblocks one). A drive that was cut
  recovers under the same condition if the cut was not between its ALLOW and the end of the superseding loop
  (`RedriveRecoversIff`).
- Driving an instant twice can allow two intents (`RedriveAllowsTwoIff`). It does exactly when the first drive came past its
  ALLOW and the second allows something it hears: an entry the first had not superseded yet, which takes a crash
  (`CutAfterAllowAllowsTwo`); a proposal whose kind the first drive freed (`UncutPassAllowsTwo`); or an intent that the
  scheduler of the second drive wakes (`RedriveAllowsTheWoken`). The last two need no crash.
- With the engine's batches, one active intent per kind is lost exactly when a turn admits a kind that is occupied
  (`TurnKeepsIff`, `TurnDoublesAKind`); turns deduplicate nothing (src/mind_runtime/pipeline/orchestrator.py:1264-1266).
- A sibling output that admission accepted, or already knows, is reported as a validation failure exactly when its payload
  is not of the shape that counting reads (`ReportedIff`; `ReplayReportedInvalid` is such a replay).
- A new gateway epoch in the readiness file is not always final: some run in which no other process begins still puts an
  older process's record back exactly when a thread of another process is past its ownership test, or holds a named file
  open, or has read its own record and can still come to own it, or when the temporary name carries a stray record that
  somebody may rename (`TakeoverIsLostIff`; `LateSaveShutsOutTheNewEpoch` reaches such a state, and the new epoch then
  admits nothing until it begins again).
- `save_readiness` announces an atomic save. The temporary name is shared, so it is one only while no other save overlaps: the
  file becomes unreadable exactly when a truncated one is renamed or an overlapping write spoils a renamed one that is still
  open (`UnreadableIff`, `OverlappingSavesRefuseAll`).
- The error text of `validate_storage_namespace` announces letters, digits, `.`, `_`, `/` and `-` only; the pattern also
  accepts a final line break (`LineBreakIsAccepted`, `AcceptedTextIff`).
- The first attempt at a namespace's manifest decides every later one: if it was cut, the namespace is unreadable for
  everyone, for good (`FirstAttemptDecides`).
- A page misses turns exactly when an abort past its cursor has fewer than `limit` turns of the page's range above it but
  `limit` aborts or more (`PageIsExactIffCounts`).
- Deltas of a trend add up exactly when no turn measures its change from inside itself (`ChangesAddUpIff`,
  `TwiceProjectedDoesNotAddUp`).
- Equal mappings built by hand in another order hash differently (`HashAgreesIff`), and redaction never reaches keys
  (`KeysAreKept`).
- Looking at an unreleased lease from a second thread before the first has marked it can admit two holders, and only that
  can (`LookIsUnsafeIff`, `DoubleReleaseAdmitsTwo`).

## What the code takes from its callers

These conditions are also exact, but nothing in the repository supplies an input that fails them.

- A tick keeps one active intent per kind when its batch has distinct kinds (`AdmissionsKeepIff`,
  `TwinsAreBothAdmitted`). The engine refuses two rules of one kind
  (src/mind_runtime/intents/engine.py:126-131); an engine that does not would make the twins real.
- A proposal due at its own instant is deferred, woken and then never moved again (`DueAtOnceIsStranded`,
  `OnlyStaleEntriesStayCandidates`). The ticker asks its engine about no events (src/mind_runtime/cognition/tick.py:331), so
  no proposal of a tick has a due time; one evaluated with accepted events, as a turn's are
  (src/mind_runtime/pipeline/orchestrator.py:1244), would.
- A walk over the turn list ends exactly when every turn past its cursor has a recorded time (`WalkEndsIff`). The time
  columns are NOT NULL, which admits an empty text, and the code reads one as no cursor; the commit and journal writers of
  the repository always store a time (src/mind_runtime/state/persistence.py:832-842,
  src/observation_window/transient_trace_journal.py:209-232).

## Model

The last rows of the table are small facts that the others rest on.

| member | source | states |
|---|---|---|
| `RebuildTheorems.DrainedRunsAgree` | historical/rebuild.py:116-201 | any two drained runs over the same native records, under any crashes, failures, batch limits and behaviour of worker and admission, end with the same cursor, the same counts and the same set of receipted sources |
| `RebuildTheorems.DrainedMemoriesAgree` | historical/rebuild.py:116-201 | with deterministic selection, worker and admission, drained runs also agree on every receipt and on the deferred count |
| `RebuildTheorems.MemoryIsCausal` | historical/rebuild.py:167-199 | two runs over databases that share their first n sources give each of those that both admitted the same receipt, whatever records come later |
| `RebuildTheorems.ExactAccounting` | historical/rebuild.py:124-152 | at every instant, the state in memory and the durable checkpoint each count exactly the sources of each class up to their own cursor, hold receipts for all COMPILE sources there, and can only have the next source pending; the file is never ahead |
| `RebuildTheorems.ExactlyOnceAdmission` | historical/rebuild.py:166-199 | each source is admitted once if it has a receipt and never otherwise; receipts belong to COMPILE sources and leave no earlier COMPILE source without one |
| `RebuildTheorems.WorkerCallsAreBounded` | historical/rebuild.py:166-194 | worker calls per source are at most one more than the setbacks it suffered while its answer was not durable |
| `RebuildTheorems.NoWastedWorkerCall` | historical/rebuild.py:166-194 | the worker is never called for a source whose receipt exists or whose answer the file holds |
| `RebuildTheorems.PendingNeverDrifts` | historical/rebuild.py:163-165 | the drift guard cannot fire on immutable records: whatever is pending at the top of the loop belongs to the next source |
| `RebuildTheorems.FailureIsOnRecord` | historical/rebuild.py:129-152 | over every schedule, the failure reference in memory and the one in the file are read off the history: a failure sets memory's to its own source, a finished source clears it, a save copies it, a crash restores the file's |
| `RebuildTheorems.StepIsBooked` | historical/rebuild.py:166-199 | each worker call, setback, admission and failure of a source is counted by the step in which it happens, once, and by no other |
| `RebuildTheorems.NoReceiptBeyondTheNextSource` | historical/rebuild.py:147-201 | when no run was entered with unsaved state, receipts reach at most the first source after the file's cursor, and memory equals the file at every worker and admission call |
| `RebuildReentry.EntryOverrunsIff` | historical/rebuild.py:116-155 | from a state within that bound, one call of `run` can break it under some outside behaviour exactly when the file's ordering key differs from memory's and memory holds an answer |
| `RebuildReentry.CarefulRunsStayWithin` | historical/rebuild.py:116-201 | a run whose calls all avoid that state never has a receipt beyond the first source after the file's cursor |
| `RebuildOverrun.ReentryOutrunsTheFile` | historical/rebuild.py:148-151 | with a disk that refuses every save, repeated calls on one object admit a second source while the file is still fresh |
| `RebuildOverrun.AStuckDisk` | historical/rebuild.py:116-151 | such a world exists: two concrete records, agreeable components, a full disk |
| `RebuildTheorems.EveryRunIsSound` | historical/rebuild.py:116-201 | the invariant of the rebuild holds after every schedule |
| `RebuildSafety.StepKeeps` | historical/rebuild.py:116-201 | each single action, crash included, keeps that invariant |
| `RebuildMachine.UpcomingAt` | historical/rebuild.py:125-126 | from a cursor after p sources, the loop's next record is source p, or nothing |
| `HistoricalRebuilds.HistoricalRebuild.Run` | historical/rebuild.py:116-155 | the loop extends a schedule of the step system; it raises exactly when a step failed, and when it returns it has drained the sources or met its limit, counts what it passed, and, having passed any, left the file equal to memory with no failure and no pending answer |
| `HistoricalRebuilds.HistoricalRebuild.Process` | historical/rebuild.py:129-152 | one source: on success the file equals memory and stands on it, with no failure, no pending answer, its own reference last, and its class counted once; on failure the failure reference names it |
| `HistoricalRebuilds.HistoricalRebuild.Compile` | historical/rebuild.py:157-201 | success means a receipt was found or given and counted once, with its deferral; the cursor has not moved |
| `HistoricalRebuilds.HistoricalRebuild.ProposeAnswer` | historical/rebuild.py:169-182 | first attempt, with its two saves, as steps of the machine: ends ready to admit or failed |
| `HistoricalRebuilds.HistoricalRebuild.RetryAnswer` | historical/rebuild.py:183-194 | retry of a durable proposal, refusing a changed selection or context: ends ready to admit or failed |
| `HistoricalRebuilds.HistoricalRebuild.AdmitAnswer` | historical/rebuild.py:195-199 | admission is the machine's admission step, also when it commits and then raises |
| `HistoricalRebuilds.HistoricalRebuild.Resume` | historical/rebuild.py:69-70 | a new process has exactly the state of the file and the durable receipts: the machine's crash |
| `HistoricalRebuilds.CheckpointFile.Save` | historical/checkpoint.py:31-37 | the durable state is the new one if the process reaches the replacement and the old one otherwise |
| `SourceIterator.SourcesMember` | historical/source_iterator.py:46-97 | the enumeration holds exactly the owner's records |
| `SourceIterator.QueryFirst` | historical/source_iterator.py:56-70 | a LIMIT-1 query answers the least key past the cursor, or nothing when none is left, and leaves strictly fewer |
| `SourceIterator.HistoricalSourceIterator.Iterate` | historical/source_iterator.py:99-106 | repeated LIMIT-1 queries yield exactly the owner's records past the cursor, in ascending order |
| `SourceIterator.GetFindsSources` | historical/source_iterator.py:108-112 | a lookup finds only enumerated sources, and returns the very reference exactly when an enumerated source has it |
| `SourceIterator.HistoricalSourceIterator.Before` | historical/source_iterator.py:114-136 | refused exactly outside 1..8; otherwise the last `limit` earlier records of the session, oldest first |
| `SourceIterator.LookbackIsEarlier` | historical/source_iterator.py:122-136 | lookback reaches only strictly earlier records of the same owner and session |
| `SourceIterator.SourceCarries` | historical/source_iterator.py:72-97 | a source carries its row's own columns; rewound rows are agent executions, rows with calls tool calls, and others have their type or else their role |
| `SourceIterator.RowCompilesIff` | historical/source_iterator.py:72-97 | a native row compiles exactly when it is live or compacted text of a user, not blank, without tool calls and without an operational type |
| `SourceIterator.RowIgnoredIff` | historical/source_iterator.py:72-97 | and is ignored exactly when it is an agent's, a tool's, rewound, a tool call, or operational |
| `SourceIterator.HistoricalSourceIterator.Bind` | historical/source_iterator.py:138-146 | binds exactly a current source that compiles, and changes no other binding |
| `SourceIterator.HistoricalSourceIterator.CurrentUserSource` | historical/source_iterator.py:154-163 | answers exactly when the scope is the owner's, the interaction was bound, and its current row compiles, and then with that row's reference |
| `ContextAssembler.AssembledIsBoundedAndEarlier` | historical/context_assembler.py:27-66 | a context respects all three bounds; its items are strictly earlier, same-session, non-compiling records, its blocks canonical ones |
| `ContextAssembler.AssemblesIff` | historical/context_assembler.py:27-66 | a context is given exactly for a current source that compiles and a selection of distinct admissible sources and known earlier blocks within all three bounds, and it holds just those, in order |
| `ContextAssembler.AdmissibleIff` | historical/context_assembler.py:37-48 | a reference is admissible exactly when a source stands for it that may serve as context |
| `ContextAssembler.AssembleIsCausal` | historical/context_assembler.py:27-66 | databases that agree up to the current source give it the same context |
| `ContextAssembler.AssembleContext` | historical/context_assembler.py:27-66 | the method with its checks and loop computes the assembly the two lemmas speak of |
| `ContextAssembler.GatherContext` | historical/context_assembler.py:37-48 | the checking loop succeeds exactly when every reference is admissible, and then returns them in order |
| `ContextAssembler.SelectBlocks` | historical/context_assembler.py:49-62 | activation succeeds exactly when every id names a canonical block not later than the source |
| `IntentLifecycle.MovedKeeps` | src/mind_runtime/intents/lifecycle.py:10-24 | no step reopens a kind that was given up; a step is a no-op exactly when its key was used, and otherwise adds one version with the target status and the key |
| `IntentLifecycle.LegalIff` | src/mind_runtime/intents/lifecycle.py:10-24 | the ten legal steps |
| `IntentLifecycle.StoredIff` | src/mind_runtime/intents/lifecycle.py:52-118 | what a transition stores and why it is refused: a missing intent, a key reused with other reasons, an illegal step |
| `IntentLifecycle.EnterIff` | src/mind_runtime/intents/lifecycle.py:35-38 | what an admission stores and why it is refused: not a first candidate version, or another body under the id |
| `IntentLifecycle.SchedulerIsTotal` | src/mind_runtime/intents/scheduler.py:24-79 | the scheduler is never refused, and moves exactly the intents that have expired or fallen due |
| `IntentLifecycle.ScheduledIff` | src/mind_runtime/intents/scheduler.py:24-79 | an open intent past its expiry expires, a deferred one that waits for its due time is woken at it, expiry first, each under a key of its version; nothing else moves |
| `IntentLifecycle.IntentLifecycleService.Admit` | src/mind_runtime/intents/lifecycle.py:35-38 | admission stores version one or finds it, refuses everything else, and changes nothing when it refuses |
| `IntentLifecycle.IntentLifecycleService.Transition` | src/mind_runtime/intents/lifecycle.py:52-118 | a transition is stored or found under its key, or refused with nothing changed |
| `CognitiveTick.AgendaHearsEveryCandidate` | src/mind_runtime/cognition/tick.py:652-690 | after admission the ordered agenda holds exactly the candidates, each once, strongest first and then by id |
| `CognitiveTick.HeardIff` | src/mind_runtime/cognition/tick.py:647-685 | a proposal is heard exactly when it is new and its kind free, or names an intent left a candidate, or is the stored form of a candidate nobody proposed again |
| `CognitiveTick.HeardInOrder` | src/mind_runtime/cognition/tick.py:687-690 | of two heard, the stronger comes first, and of equally strong ones that with the smaller id |
| `CognitiveTick.DedupedIff` | src/mind_runtime/cognition/tick.py:652-677 | a proposal is deduplicated exactly when it is new and an open intent has its kind |
| `CognitivePass.PassDecides` | src/mind_runtime/cognition/tick.py:687-750 | a pass completes and gives every candidate of its agenda the status its verdict and place call for, and moves nothing else |
| `CognitivePass.PassRecords` | src/mind_runtime/cognition/tick.py:691-749 | what it records on each: one version more, with the policy's reasons under the key of its verdict up to the allowed one, and the fixed reason of a lower rank after it |
| `CognitivePass.PassDrains` | src/mind_runtime/cognition/tick.py:644-750 | no candidate is left, no intent found decided is touched, and only admissible proposals are added |
| `CognitivePass.PassSelectsTheBest` | src/mind_runtime/cognition/tick.py:687-749 | an intent is newly allowed exactly when it is the first of the agenda that the policy allows; one is whenever the policy allows any |
| `CognitivePass.CompletedPassAllowsIff` | src/mind_runtime/cognition/tick.py:687-749 | any completed pass, with orphans woken since or not, touches no decided intent and newly allows exactly the best entry the policy allows, unless that entry is at a version already moved past: then none |
| `CognitivePass.PassCompletesIff` | src/mind_runtime/cognition/tick.py:691-749 | a pass is refused exactly when a verdict repeats a used key with other reasons |
| `CognitivePass.UninitialIff` | src/mind_runtime/cognition/tick.py:660-662 | and as not initial exactly when some proposal is not a first candidate version, having admitted what stood before the first of those |
| `CognitivePass.OnlyStaleEntriesStayCandidates` | src/mind_runtime/cognition/tick.py:664-670 | the intents a completed pass leaves as candidates are exactly those it heard at a version they have moved past |
| `CognitiveReplay.ReplayDrains` | src/mind_runtime/cognition/tick.py:662-670 | wherever a pass was cut, running it again under any policy completes and leaves no candidate |
| `CognitiveReplay.ReplayKeepsDecisions` | src/mind_runtime/cognition/tick.py:664-670 | what the cut pass decided, the replay does not move |
| `CognitiveReplay.RecoveryIsExactIff` | src/mind_runtime/cognition/tick.py:644-750 | the decision pass alone: cut after k transitions and run again, it ends where the uncut one would exactly when nothing was unblocked and the cut was not between ALLOW and the end of the superseding loop |
| `CognitiveReplay.ReplayIsNoOpIff` | src/mind_runtime/cognition/tick.py:675-677 | the decision pass alone: completed and run again, it changes nothing exactly when none of its deduplicated proposals became admissible |
| `CognitiveReplay.SecondAllowIff` | src/mind_runtime/cognition/tick.py:675-749 | the decision pass alone: cut after any k transitions or complete, and run again under any other policy, it has allowed two intents exactly when it came past its ALLOW and the second policy allows an entry left over or a deduplicated proposal now admissible |
| `CognitiveReplay.AdmissionRecoveryIff` | src/mind_runtime/cognition/tick.py:652-678 | cut after n proposals and replayed, a pass ends where the uncut one would exactly when no two admissible proposals of one kind lie on both sides of the cut |
| `CognitiveDrives.RedriveIsNoOpIff` | src/mind_runtime/cognition/tick.py:296-303 | driving a completed instant again, scheduler first, changes nothing exactly when nothing in it has expired or fallen due and none of its deduplicated proposals became admissible |
| `CognitiveDrives.RedriveRecoversIff` | src/mind_runtime/cognition/tick.py:296-303 | a drive cut after k transitions and driven again ends where one uncut drive ends exactly when the scheduler finds nothing to do, nothing was unblocked and the cut was not between ALLOW and the end of the superseding loop |
| `CognitiveDrives.RedriveAfterAdmissionsIff` | src/mind_runtime/cognition/tick.py:296-303 | a drive cut after n proposals recovers exactly when the scheduler finds nothing to do and no two admissible proposals of one kind lie on both sides of the cut |
| `CognitiveDrives.RedriveAllowsTwoIff` | src/mind_runtime/cognition/tick.py:296-303 | an instant driven twice, the first drive cut or complete, under any two policies, has allowed two intents exactly when the first drive came past its ALLOW and the second policy allows an unexpired entry left over, a proposal admissible after the scheduler, or the current version of an intent that was due and unexpired |
| `CognitiveDrives.RedriveDrains` | src/mind_runtime/cognition/tick.py:296-303 | wherever the first drive was cut, driving again under any policy completes and leaves no candidate, newly woken ones included |
| `CognitiveDrives.RedriveKeepsDecisionIff` | src/mind_runtime/cognition/tick.py:296-303 | what the first drive decided stays as it is exactly when it has neither expired nor fallen due, which only a deferred intent can |
| `CognitiveInstances.ReplayAdmitsTheDropped` | src/mind_runtime/cognition/tick.py:675-677 | an instant where a complete pass, replayed, admits the proposal it had dropped, its blocker having been denied |
| `CognitiveInstances.CutAfterAllowAllowsTwo` | src/mind_runtime/cognition/tick.py:721-749 | an instant where a pass cut after its ALLOW and replayed has allowed two intents |
| `CognitiveInstances.UncutPassAllowsTwo` | src/mind_runtime/cognition/tick.py:675-749 | an instant where a complete pass, replayed, allows a second intent: the pass superseded the candidate that had blocked it |
| `CognitiveInstances.RedriveAllowsTheWoken` | src/mind_runtime/cognition/tick.py:296-303 | a complete first drive defers a due candidate and allows another; the decision pass alone would allow nothing more, and the second drive allows the candidate its scheduler wakes |
| `CognitiveInstances.TurnDoublesAKind` | src/mind_runtime/pipeline/orchestrator.py:1264-1266 | two turns that admit one kind leave two active intents of it |
| `CognitiveInstances.TwinsAreBothAdmitted` | src/mind_runtime/cognition/tick.py:652-678 | two proposals of one kind in one batch are both admitted |
| `CognitiveRuns.OnePerKindAlways` | src/mind_runtime/cognition/tick.py:652-677 | with engine batches of distinct kinds, and turns that admit only free kinds, at most one active intent per kind exists after any sequence of cut and complete ticks, scheduler passes, turns and other transitions |
| `CognitiveRuns.TurnKeepsIff` | src/mind_runtime/pipeline/orchestrator.py:1264-1266 | a turn's admission keeps one active intent per kind exactly when it adds nothing new or its kind is free |
| `CognitiveRuns.AdmissionsKeepIff` | src/mind_runtime/cognition/tick.py:652-678 | admission keeps one active intent per kind exactly when no two proposals it lets in share a kind |
| `CognitiveRuns.EveryTickDrains` | src/mind_runtime/cognition/tick.py:630-750 | in every run of engine ticks without due times, cut and replayed anywhere, with dated intents of turns waking and expiring among them, the next pass completes and leaves no candidate |
| `CognitiveRuns.DueAtOnceIsStranded` | src/mind_runtime/cognition/tick.py:664-709 | a proposal due at its own instant and deferred is woken and then moved by no later pass or scheduler of that instant |
| `CognitiveTickers.CountersConserve` | src/mind_runtime/cognition/tick.py:679-748 | allowed, deferred, denied and superseded sum to the agenda, at most one is allowed, and every proposal is admitted, deduplicated or already decided |
| `CognitiveTickers.CountersSayWhatHappened` | src/mind_runtime/cognition/tick.py:653-748 | with no orphan woken since, the counters are the numbers of proposals enrolled and deduplicated, and of agenda entries that the pass left allowed, deferred, blocked and superseded |
| `CognitiveTickers.CognitiveTicker.AdmitBatch` | src/mind_runtime/cognition/tick.py:652-679 | the admission loop stores the admissible proposals up to the first one that is not initial, and counts them |
| `CognitiveTickers.CognitiveTicker.Gate` | src/mind_runtime/cognition/tick.py:691-750 | the gate loop stores exactly the transitions of the pass, up to a refusal, counts accordingly, and answers the first entry in order that the policy allows, with that entry's verdict, or none when it allows none |
| `CognitiveTickers.CognitiveTicker.SupersedeRest` | src/mind_runtime/cognition/tick.py:739-748 | the inner loop supersedes each remaining entry and counts it |
| `CognitiveTickers.CognitiveTicker.Decide` | src/mind_runtime/cognition/tick.py:630-750 | `_decide` leaves the state of the pass the lemmas speak of; it answers x exactly when the pass completes and x is the id and verdict of the best entry the policy allows, and nothing exactly when it completes and the policy allows none; with no orphan woken since, the answer is exactly the intent newly allowed |
| `RegistryHistory.EveryStoreLoads` | src/mind_runtime/binding_registry.py:347-453 | whatever was called and wherever it was cut, the next load accepts the store, or there is none yet |
| `RegistryHistory.IdentitiesAreRegistrations` | src/mind_runtime/binding_registry.py:644-687 | an id has an identity exactly when a successful registration gave it that one |
| `RegistryHistory.RegistrationsAreInjective` | src/mind_runtime/binding_registry.py:655-672 | two successful registrations share an id exactly when they share an identity |
| `RegistryHistory.PinsAreCalls` | src/mind_runtime/binding_registry.py:690-723 | a binding is pinned to a revision exactly when a successful call pinned it to that one |
| `RegistryHistory.DefaultIsTheLastSet` | src/mind_runtime/binding_registry.py:726-756 | the default of an environment is b exactly when the last successful call that set or cleared it set b |
| `RegistryHistory.EntriesAreAppendOnly` | src/mind_runtime/binding_registry.py:674-680 | every later store extends every earlier one: same ids and identities in the same places, no pin lost |
| `RegistryHistory.RegisteredResolvesIff` | src/mind_runtime/binding_registry.py:485-557 | in every later store a registered id resolves to its own binding or not at all, and it resolves exactly when its paths resolve and its manifest is absent or its own |
| `RegistryHistory.BoundResolvesForever` | src/mind_runtime/binding_registry.py:485-557 | once a registered binding has bound its storage, it resolves there after any further registry calls and binds |
| `RegistryHistory.PinnedPersonaIsStable` | src/mind_runtime/binding_registry.py:559-581 | once a pinned revision resolves, the pin and the persona it resolves to stay the same in all later states of registry and repository |
| `RegistryHistory.CallEvolves` | src/mind_runtime/binding_registry.py:634-756 | a successful call leads from an acceptable store to an acceptable one and changes only what its operation names |
| `RegistryStore.LoadsIff` | src/mind_runtime/binding_registry.py:347-446 | a load accepts exactly the well-formed lists: unique ids, unique identities, at most one default an environment, pins of the own persona |
| `RegistryFailures.LoadFails` | src/mind_runtime/binding_registry.py:347-371 | which stores fail as uninitialized, as corrupt text, and as having two defaults |
| `RegistryFailures.LoadFailsAt` | src/mind_runtime/binding_registry.py:372-446 | otherwise the first entry that is not fine decides: a bad id, a repeated id, a bad record, a repeated identity, in that order |
| `RegistryStore.IdPatternIff` | src/mind_runtime/binding_registry.py:644-651 | an id is accepted exactly when it is one to sixty-four lower-case letters, digits and hyphens, no hyphen first, apart from a final line break |
| `RegistryStore.RegisterEffect` | src/mind_runtime/binding_registry.py:644-687 | registration succeeds exactly for an unused id and identity, and adds that pair to the map and nothing else |
| `RegistryStore.PinEffect` | src/mind_runtime/binding_registry.py:690-723 | a pin succeeds exactly for the binding's own persona with no other pin, and changes that pin only |
| `RegistryStore.DefaultEffect` | src/mind_runtime/binding_registry.py:726-756 | setting or clearing changes the default of one environment and nothing else |
| `RegistryFailures.CallFails` | src/mind_runtime/binding_registry.py:634-756 | the failure code of every writer on a store that loads, with its exact condition |
| `RegistryFailures.UnloadableFails` | src/mind_runtime/binding_registry.py:634-756 | on a store that does not load every writer but initialization reports the load's own failure |
| `BindingRegistries.ListedIff` | src/mind_runtime/binding_registry.py:459-483 | a descriptor is listed exactly when some entry of the environment has its four fields: id, agent, runtime, environment; listing fails exactly when an entry is of no known environment |
| `BindingRegistries.ListedInOrder` | src/mind_runtime/binding_registry.py:459-483 | the list has one descriptor for each entry of the environment, in the store's order |
| `BindingRegistries.DefaultedIff` | src/mind_runtime/binding_registry.py:583-628 | the default binding is d exactly when the store's default of the environment is d's id, whose identity has d's agent and runtime; the registry is called empty exactly when no entry is of the environment |
| `BindingRegistries.BindingRegistry.LoadStore` | src/mind_runtime/binding_registry.py:347-446 | the validating loops accept and refuse as the load that `LoadsIff` describes, with the same first failure code |
| `BindingRegistries.BindingRegistry.InitializeStore` | src/mind_runtime/binding_registry.py:634-641 | the method performs the operation that the histories are made of; a failed call leaves the store as it was |
| `BindingRegistries.BindingRegistry.RegisterBinding` | src/mind_runtime/binding_registry.py:644-687 | likewise for registration, loop and early exits included |
| `BindingRegistries.BindingRegistry.PinPersonaRevision` | src/mind_runtime/binding_registry.py:690-723 | likewise for pins |
| `BindingRegistries.BindingRegistry.SetDefaultBinding` | src/mind_runtime/binding_registry.py:726-748 | likewise for defaults |
| `BindingRegistries.BindingRegistry.ClearDefaultBinding` | src/mind_runtime/binding_registry.py:751-756 | likewise for clearing a default |
| `BindingRegistries.BindingRegistry.ListBindings` | src/mind_runtime/binding_registry.py:459-483 | the loop returns a list that holds exactly the descriptors spelled out in `ListedIff`, or the load's failure |
| `BindingRegistries.BindingRegistry.GetDefault` | src/mind_runtime/binding_registry.py:583-628 | the loop answers the descriptor of the environment's one default, with its own agent and runtime, and otherwise says whether the environment has entries |
| `BindingRegistries.BindingRegistry.ResolveBinding` | src/mind_runtime/binding_registry.py:485-557 | the loop resolves as `RegisteredResolvesIff` describes, with the failure codes of each refusal |
| `RegistryFailures.ResolveFails` | src/mind_runtime/binding_registry.py:485-557 | why an id does not resolve: unknown, of an unknown or another environment, paths not isolated, another owner's manifest |
| `BindingRegistries.BindingRegistry.ResolvePersonaRevision` | src/mind_runtime/binding_registry.py:559-581 | answers the revision the binding is pinned to |
| `RegistryFailures.RevisionFails` | src/mind_runtime/binding_registry.py:559-581 | that is given exactly for a known id of the environment that has a pin, and each refusal says which of these fails |
| `PersonaPublication.ResolutionIsStable` | src/mind_runtime/persona_publication.py:69-125 | under every interleaving of publishers and readers, a reference that resolves keeps resolving to the same persona, and a published reference resolves |
| `PersonaPublication.PublishersAgree` | src/mind_runtime/persona_publication.py:107-125 | two answered publications of one id and version gave the same reference |
| `PersonaPublication.ResolvesIff` | src/mind_runtime/persona_publication.py:69-88 | a reference resolves exactly when its slot holds content vetted as that reference |
| `PersonaPublication.ReadingIff` | src/mind_runtime/persona_publication.py:69-88 | reading answers exactly the eligible persona with the reference's id, version and digest, and otherwise says how far it came |
| `PersonaPublication.VettingIff` | src/mind_runtime/persona_publication.py:90-106 | a payload is vetted as exactly the reference of the eligible persona it loads as |
| `PersonaPublication.PublicationCompletes` | src/mind_runtime/persona_publication.py:90-125 | from every reachable state an author left alone finishes: a vetted payload takes its slot if that is free, and is answered exactly when its reference then resolves |
| `PersonaPublication.SlotsCompeteIff` | src/mind_runtime/persona_publication.py:63-67 | two revisions compete for a slot exactly when they share id and version |
| `PersonaPublication.PublicationRepository.Publish` | src/mind_runtime/persona_publication.py:90-125 | an ineligible payload changes nothing; a free slot takes the payload, an occupied one stays, and the answer is the reference exactly when it resolves now |
| `PersonaPublication.PublicationRepository.Resolve` | src/mind_runtime/persona_publication.py:69-88 | the checks of `resolve`, in order, over what the slot holds; nothing is written |
| `StorageNamespace.LabIsApart` | src/mind_runtime/runtime_binding.py:302-356 | whatever the roots and relocation, a PRODUCTION and a LAB binding that both resolve have pairwise disjoint directories |
| `StorageNamespace.FilesAreSharedIff` | src/mind_runtime/runtime_binding.py:321-356 | without relocation, two bindings of one environment have no file in common exactly when their namespaces differ |
| `StorageNamespace.DirectoriesAreApartIff` | src/mind_runtime/runtime_binding.py:321-356 | their directories are disjoint exactly when neither namespace is a path prefix of the other; the compat namespace holds all production ones |
| `StorageNamespace.ResolvesIff` | src/mind_runtime/runtime_binding.py:321-356 | a binding resolves exactly when its databases lie apart from the lab root, a lab binding when the two roots do and it does not ask for the compat namespace |
| `StorageNamespace.FactsVariableMovesFacts` | src/mind_runtime/runtime_binding.py:321-335 | for the compat binding the variable of the facts database is where that database is, and moves nothing else |
| `StorageNamespace.StateVariableMovesTheRest` | src/mind_runtime/runtime_binding.py:321-335 | the variable of the state database is where that database is, with root and manifest in its directory; the facts stay |
| `StorageNamespace.OthersIgnoreRelocation` | src/mind_runtime/runtime_binding.py:336-356 | for every other binding both variables mean nothing |
| `StorageNamespace.DisjointIff` | src/mind_runtime/runtime_binding.py:293-299 | two directories count as disjoint exactly when no path lies within both |
| `StorageNamespace.OneHolderPerNamespace` | src/mind_runtime/runtime_binding.py:359-402 | over every sequence of binds, later binds of a manifest succeed exactly for its holder, and all holders are one binding |
| `StorageNamespace.FirstAttemptDecides` | src/mind_runtime/runtime_binding.py:359-402 | over every history of whole and cut binds, a bind succeeds exactly when none was attempted at its manifest before or the first attempt was whole and by the same identity; it reports an unreadable manifest exactly when the first attempt was cut, and another owner otherwise |
| `StorageNamespace.BoundIff` | src/mind_runtime/runtime_binding.py:386-402 | a bind answers paths exactly when the binding resolves to them at its site and their manifest is absent or its own; it then holds that manifest, and every other one is as it was |
| `StorageNamespace.SplitIsInjective` | src/mind_runtime/runtime_binding.py:89 | different labels have different segments |
| `StorageNamespace.SplitIsBetweenSlashes` | src/mind_runtime/runtime_binding.py:89 | the segments are what stands between the slashes |
| `StorageNamespace.AcceptedTextIff` | src/mind_runtime/runtime_binding.py:82-97 | an accepted label has only the announced characters exactly when it does not end in a line break |
| `StorageNamespace.AcceptedIff` | src/mind_runtime/runtime_binding.py:82-97 | a label is accepted exactly when it starts with a letter or digit and goes on with the announced characters, apart from one final line break, and no segment is empty, `.` or `..` |
| `StorageNamespace.LineBreakIsAccepted` | src/mind_runtime/runtime_binding.py:94 | every clean label is also accepted with a line break at its end, as another namespace |
| `StorageNamespace.NamespaceStore.WriteOrVerifyManifest` | src/mind_runtime/runtime_binding.py:359-383 | an absent manifest is written, the own one accepted, any other refused with nothing changed |
| `StorageNamespace.NamespaceStore.BindStorage` | src/mind_runtime/runtime_binding.py:386-402 | bind answers and stores as the sequences of `OneHolderPerNamespace` do |
| `ReadinessProtocol.AlwaysGenuine` | xiyue/mr_seam.py:402-441 | under every interleaving of loads, evaluations, temporary writes and renames, every record under either name is coherent, belongs to some process's epoch, and rests on an evaluation of that epoch |
| `ReadinessProtocol.AdmissionIsJustified` | xiyue/mr_seam.py:784-828 | over every run, a message is admitted exactly when it is of another profile, or the runtime is disabled, or the process has begun, the file carries its own epoch and a ready time found by an evaluation of that epoch with core ready, and the message is not older than that; each of the four statuses is given exactly in its own case |
| `ReadinessProtocol.LockedOutForever` | xiyue/mr_seam.py:794-801 | a process of whose epoch no record is left admits nothing until it begins again, whatever else happens |
| `ReadinessProtocol.QuietTakeoverHolds` | xiyue/mr_seam.py:638-671 | once no other epoch's record is left anywhere, none comes back and no other process admits until it begins |
| `ReadinessTakeover.TakeoverIsLostIff` | xiyue/mr_seam.py:626-671 | from every reachable state whose file holds q's record, some run without a beginning, or with q's own only, puts another process's record there exactly when a listed thread or temporary file endangers it |
| `ReadinessTakeover.FinalTakeoverShutsOutOthers` | xiyue/mr_seam.py:784-828 | without that danger no other process admits a message until another process begins |
| `ReadinessProtocol.LateSaveShutsOutTheNewEpoch` | xiyue/mr_seam.py:638-671 | an older process between its ownership test and its rename can erase a newer epoch, which then admits nothing until it begins again |
| `ReadinessProtocol.UnreadableIff` | xiyue/mr_seam.py:388-399 | one step makes the file unreadable exactly when it renames a temporary file that is not whole, or spoils a renamed one still open |
| `ReadinessProtocol.OverlappingSavesRefuseAll` | xiyue/mr_seam.py:388-399 | two overlapping saves do that: between the rename of the first and the write of the second every process refuses the profile's messages |
| `Readiness.RefreshedIsCoherent` | xiyue/mr_seam.py:653-671 | an evaluation keeps the epoch, records both probes, is NOT_READY exactly without core and READY exactly with both, has a ready time exactly while core is ready, and keeps it for as long |
| `Readiness.FreshIsUnready` | xiyue/mr_seam.py:402-441 | a new epoch's record is ready in no respect |
| `Readiness.ReadySinceTheStreakBegan` | xiyue/mr_seam.py:662-669 | after any evaluations the ready time is the instant of the first one of the current unbroken ready streak |
| `Readiness.GatewayProcess.BeginRuntimeEpoch` | xiyue/mr_seam.py:402-441 | a fresh not-ready record is in the file before the epoch is claimed |
| `Readiness.GatewayProcess.MarkRuntimeReady` | xiyue/mr_seam.py:626-672 | only the owner of the record in the file writes, and it writes the refreshed record |
| `Readiness.GatewayProcess.Reconcile` | xiyue/mr_seam.py:700-715 | the loop over probes leaves the record reconciled by all of them, or a foreign record untouched |
| `Keyset.TopKUnion` | src/observation_window/human_causal_trace.py:105-193 | the first `limit` rows of a union are found among the first `limit` rows of each part |
| `TurnPaging.WalkListsEveryTurn` | src/observation_window/human_causal_trace.py:105-193 | with every turn past the cursor dated, disjoint ids and at most `limit` aborts, walking by the last row lists those turns once, in strictly descending order, and then stops |
| `TurnPaging.PageIsExactIff` | src/observation_window/human_causal_trace.py:159-193 | a page is the first `limit` turns past the cursor exactly when every abort among those is one of the `limit` newest aborts |
| `TurnPaging.PageIsExactIffCounts` | src/observation_window/human_causal_trace.py:159-193 | the same in counts: every abort past the cursor with fewer than `limit` turns past the cursor above it has fewer than `limit` aborts above it |
| `TurnPaging.WalkEndsIff` | src/observation_window/human_causal_trace.py:105-193 | with disjoint ids and at most `limit` aborts, the walk by last rows stops giving pages exactly when every turn past its cursor is dated |
| `TurnPaging.ListCommittedTurns` | src/observation_window/human_causal_trace.py:105-193 | the two queries, the filtering loop and the merge compute that page |
| `TurnPaging.PassesIff` | src/observation_window/human_causal_trace.py:106-125 | which turns a cursor leaves: all without a time, older ones with a time alone, and with an id also those of the same time with a smaller id |
| `FrozenValues.FrozenFormIsCanonical` | src/mind_runtime/contracts/common.py:85-109 | two acceptable values are equal, in any insertion order at any depth, exactly when their frozen forms are identical |
| `FrozenValues.FreezeIsIdempotent` | src/mind_runtime/contracts/common.py:98-109 | freezing a frozen value gives it back; exactly the values without unsupported parts are accepted |
| `FrozenValues.RefusedIff` | src/mind_runtime/contracts/common.py:85-109 | a value is refused exactly when some part of it, at any depth, offends |
| `FrozenValues.FrozenEqualityIsEntryEquality` | src/mind_runtime/contracts/common.py:62-65 | on frozen values, equality of mappings is identity of entries |
| `FrozenValues.LookupIsPreserved` | src/mind_runtime/contracts/common.py:50-54 | a key looks up the frozen form of what it looked up before |
| `FrozenValues.HashAgreesIff` | src/mind_runtime/contracts/common.py:62-68 | a mapping built by hand equals its frozen form, and has the same entries to hash exactly when its keys ascend |
| `FrozenValues.FreezeMapping` | src/mind_runtime/contracts/common.py:85-95 | collecting frozen pairs and sorting once at the end is the freezing the lemmas speak of |
| `SemanticPass.AdmissionIsSingleAndBound` | xiyue/semantic_delta_composition.py:81-106 | over every sequence of callbacks, admission is called at most once, for the first sibling output, with the source frozen at the first current-session user append, whose record id is that row |
| `SemanticPass.CapturedIsFrozen` | xiyue/semantic_delta_composition.py:53-68 | the captured row and source are those of the first successful user append, whatever happened since |
| `SemanticPass.FirstDeltaDecides` | xiyue/semantic_delta_composition.py:81-124 | once an output was submitted, later messages change neither the admissions nor the reported status |
| `SemanticPass.ReportedIff` | xiyue/semantic_delta_composition.py:97-120 | an output that admission knows or accepts is reported with that status exactly when its payload has points that all have a status, and dependencies with a length; otherwise as a validation failure, with the receipt there |
| `SemanticPass.RefusalIsReported` | xiyue/semantic_delta_composition.py:83-121 | an output without its row's source, a failed lookup and a refused admission are reported under their own codes, and only the last has called admission |
| `SemanticPass.StatusBeforeOutput` | xiyue/semantic_delta_composition.py:70-80 | before any output, the report says whether a message was read at all |
| `SemanticPass.MessagesAreReadOnce` | xiyue/semantic_delta_composition.py:70-80 | every final assistant message is read once, when first persisted, and replaced by its prose; the prose kept is that of the last one read |
| `SemanticPass.SpokenIs` | xiyue/semantic_delta_composition.py:144-148 | what is said is the kept prose, or else that of the final response, or nothing if there is a guard and it refuses that |
| `SemanticPass.CountedIff` | xiyue/semantic_delta_composition.py:107-115 | counting goes through exactly for that shape, and gives the numbers of points, of dependencies and of points that defer |
| `SemanticPass.DefersIff` | xiyue/semantic_delta_composition.py:112-115 | a point defers exactly when its status says so or it leaves a reference open, which any value but the empty ones does |
| `SemanticPass.ReplayReportedInvalid` | xiyue/semantic_delta_composition.py:97-120 | a replay whose output lacks its dependencies is reported as invalid, and nothing of it is admitted |
| `SemanticPass.RunOnePass` | xiyue/semantic_delta_composition.py:127-154 | the pass folds its callbacks, answers the guarded prose, and restores all four hooks on a normal and an exceptional end |
| `AffectTrends.ValueIsTheLatestProjected` | src/observation_window/human_causal_trace.py:469-486 | the value carried at a turn is v exactly when the latest turn that projected the dimension last projected v, and absent exactly when none did |
| `AffectTrends.ChangesAddUpIff` | src/observation_window/human_causal_trace.py:475-486 | for four-decimal values, first value plus deltas equals the current value at every point exactly when no turn measures its change from another projection inside itself |
| `AffectTrends.OneProjectionIsJoined` | src/observation_window/human_causal_trace.py:469-486 | one projection per dimension and turn meets that condition |
| `AffectTrends.TwiceProjectedDoesNotAddUp` | src/observation_window/human_causal_trace.py:476-486 | a first turn with two projections adds up exactly when they are equal |
| `AffectTrends.DriftIsBounded` | src/observation_window/human_causal_trace.py:477 | for arbitrary values the sum of deltas drifts by at most half a step per projecting turn |
| `AffectTrends.ProjectingIsCounted` | src/observation_window/human_causal_trace.py:469-486 | those turns are the ones with an id that names a state of the dimension |
| `AffectTrends.RoundingIsClose` | src/observation_window/human_causal_trace.py:477 | rounding lands on the four-decimal grid, moves a value by at most half a step, not at all exactly on the grid, and decides ties to the even step |
| `AffectTrends.Trend` | src/observation_window/human_causal_trace.py:459-508 | each point holds, for every requested dimension, the reading of the history up to that turn |
| `AffectTrends.ReadTurn` | src/observation_window/human_causal_trace.py:469-486 | the inner loop leaves the last projected value, its change and origin, and the value carried on |
| `AffectTrends.ShownOnce` | src/observation_window/human_causal_trace.py:469-499 | what a turn shows of a dimension it projects once: value, rounded change from the value carried in, and origin |
| `AffectTrends.ShownNot` | src/observation_window/human_causal_trace.py:490-499 | and of one it does not project: the carried value without a change, or nothing |
| `AffectTrends.LastProjectionIs` | src/observation_window/human_causal_trace.py:469-486 | the last projection of a dimension is the state that the last id naming it names |
| `AffectTrends.FillForward` | src/observation_window/human_causal_trace.py:490-499 | unprojected dimensions keep their value with no change; never projected ones stay unavailable |
| `TraceJournal.SanitizedIsClean` | src/observation_window/transient_trace_journal.py:34-61 | no secret-looking text, over-long text or value under a sensitive key is left at any depth, and exactly clean values are unchanged |
| `TraceJournal.PlainPathsAreKept` | src/observation_window/transient_trace_journal.py:34-61 | whatever is reached under plain keys alone is in its place, sanitized itself |
| `TraceJournal.LeavesBecome` | src/observation_window/transient_trace_journal.py:34-61 | what becomes of a secret-looking text, an over-long one, a secret key's value and a thought key's value; other leaves stay |
| `TraceJournal.ClassifyIff` | src/observation_window/transient_trace_journal.py:34-61 | which keys are secret and which are thoughts |
| `TraceJournal.SanitizeIsIdempotent` | src/observation_window/transient_trace_journal.py:34-61 | sanitizing twice is sanitizing once, truncation included |
| `TraceJournal.EventsAreNumbered` | src/observation_window/transient_trace_journal.py:211-235 | after any accepted and dropped inserts, the events of an interaction are its accepted payloads numbered 1..n in order |
| `TraceJournal.TransientTraceJournal.Record` | src/observation_window/transient_trace_journal.py:186-242 | an insert adds one sanitized row numbered past the highest of its interaction, or nothing |
| `TraceJournal.GroupByModel` | src/observation_window/transient_trace_journal.py:506-514 | the running table holds, for exactly the models called, the usage of their calls |
| `TraceJournal.ModelsSumToTotal` | src/observation_window/transient_trace_journal.py:491-514 | the usage by model adds up to the total |
| `TraceJournal.CallIsRead` | src/observation_window/transient_trace_journal.py:491-514 | a call counts once, under its own model and with its own three numbers; missing numbers count as zero, a missing or empty model as unknown |
| `CausalTraceStores.HitsAreCurrent` | src/observation_window/binding.py:430-455 | after any calls the cache is within its bound and a hit is the last value written for that scope and id |
| `CausalTraceStores.FreshEntryOutlasts` | src/observation_window/binding.py:437-443 | a newly put key survives the next capacity - 1 puts of any keys |
| `CausalTraceStores.CausalTraceStore.Put` | src/observation_window/binding.py:437-443 | the eviction loop drops the oldest entries until there is room; with no room at all it empties the cache and fails |
| `CausalTraceStores.CausalTraceStore.ReplaceField` | src/observation_window/binding.py:445-452 | a cached entry gets the field in place, an absent one is reported |
| `RuntimeAdmission.OneLeasePerNamespace` | src/mind_runtime/runtime_admission.py:49-118 | over every interleaving in which no lease is released from two threads at once, a namespace has at most one owner and is locked exactly when it has one |
| `RuntimeAdmission.LookIsUnsafeIff` | src/mind_runtime/runtime_admission.py:49-53 | from an orderly state, a look at an unreleased lease can lead to two owners of one namespace, all later looks being careful, exactly when another thread has seen that lease and not marked it |
| `RuntimeAdmission.DoubleReleaseAdmitsTwo` | src/mind_runtime/runtime_admission.py:49-53 | released from two threads at once, one lease can free the next holder's namespace and admit two |
| `RuntimeAdmission.AdmissionLease.Release` | src/mind_runtime/runtime_admission.py:49-53 | a first release frees the namespace, a repeated one touches nothing |
| `RuntimeAdmission.NamespaceAdmissionAuthority.TryAcquire` | src/mind_runtime/runtime_admission.py:109-114 | a lease is granted exactly when none is out |
| `RuntimeAdmission.Authorities.ForStateDb` | src/mind_runtime/runtime_admission.py:79-88 | one authority per resolved path, created once |
| `HistoricalRebuilds.CheckpointFile.Load` | historical/checkpoint.py:28-29 | a load returns the durable state |
| `SourceCurator.CompileExactlyUserText` | historical/source_curator.py:39-48 | a record compiles exactly when a user wrote it, its type is not operational, and it has a character other than white space |
| `SourceCurator.IgnoredExactlyOperations` | historical/source_curator.py:39-48 | a record is ignored exactly when an agent wrote it, its type is operational, or a tool wrote it and it is not asked for as context |
| `SourceCurator.ContextExactlyTheRest` | historical/source_curator.py:39-48 | what may be context when asked for is everything else that does not compile |
| `IntentLifecycle.MovedTwice` | src/mind_runtime/intents/lifecycle.py:70-83 | doing a transition twice is doing it once |
| `StorageNamespace.TornStaysClosed` | src/mind_runtime/runtime_binding.py:361-367 | from any store, a manifest found torn refuses every later bind as unreadable |
| `TurnPaging.UndatedTurnRestarts` | src/observation_window/human_causal_trace.py:106-125 | the last row of a page leads back to the beginning exactly when it is undated |
| `TraceJournal.KeysAreKept` | src/observation_window/transient_trace_journal.py:35-45 | keys are never redacted |
| `SourceCurator.SpacesAre` | historical/source_curator.py:42 | the characters of a blank text are the twenty-nine that stripping removes |
| `ContextAssembler.CharsAreCounted` | historical/context_assembler.py:63-66 | the budget counts the characters of every item, a missing text none |
| `IntentLifecycle.TargetsAre` | src/mind_runtime/intents/lifecycle.py:10-24 | each verb has its own status; the statuses that occupy a kind are exactly those that some step can leave |
| `StorageNamespace.WithinIff` | src/mind_runtime/runtime_binding.py:293-299 | one path lies within another exactly when it continues it |
| `Texts.ContainsIff` | src/observation_window/transient_trace_journal.py:34-45 | a part is contained exactly when the text is something, the part, and something |

## Left out

- NoReceiptBeyondTheNextSource: one way only; the exact condition per call is `RebuildReentry.EntryOverrunsIff`.
- CarefulRunsStayWithin: one way only, since a risky call need not be followed by an admission; the exact condition per call is `RebuildReentry.EntryOverrunsIff`.
- EveryTickDrains: for tick batches without due times, as the ticker's own calls give; `OnlyStaleEntriesStayCandidates` is exact for all others.
- RedriveAllowsTwoIff: for such batches too, and for a second drive whose engine proposes the same batch.
- RecoveryIsExactIff: the decision pass alone; `RedriveRecoversIff` speaks of a drive.
- ReplayIsNoOpIff: the decision pass alone; `RedriveIsNoOpIff` speaks of a drive.
- SecondAllowIff: the decision pass alone; `RedriveAllowsTwoIff` speaks of a drive.
- OnePerKindAlways: for turns that admit only free kinds, which the turn orchestrator does not ensure; `TurnKeepsIff` is exact.
- AdmitBatch: for batches of distinct intent ids, which the engine derives from rule ids it requires to be unique (src/mind_runtime/intents/engine.py:126-131).
- Decide: likewise for batches of distinct intent ids.
- DueAtOnceIsStranded: needs a dated proposal, which the ticker's own engine call does not return.
- OneLeasePerNamespace: for runs in which no lease is released from two threads at once; the exact condition per look is `LookIsUnsafeIff`.
- QuietTakeoverHolds: a sufficient condition; the exact one is `ReadinessTakeover.TakeoverIsLostIff`.
- WalkListsEveryTurn: for at most `limit` aborts; one page is exact under the condition of `PageIsExactIff`.
- TornStaysClosed: assumes the torn manifest; `FirstAttemptDecides` says when there is one.
- BoundResolvesForever: storage binds follow one another; concurrent first binds of one namespace are not part of this model.
- Run: without the native-digest comparisons, since native records are immutable here.
- ResolveBinding: without the validation that constructing the stored identity as a binding repeats (src/mind_runtime/binding_registry.py:522-528), which can refuse a store edited by hand.
- HitsAreCurrent: entries are values; the source keeps and returns the caller's own dictionary, so later changes to it by the caller show in the cache.
- SelectBlocks: scope and active-only filtering happen inside MR-Mem, whose `select` is taken as a lookup by id.
- Transition: answers the recorded status, not the stored intent version that a replay returns.
- Resolve: without the symbolic-link refusal of persona artifacts.
- MarkRuntimeReady: without the process-id comparison, which the epoch identity contains, the escape for tests, and the `checks` and `reasons` fields.
- Reconcile: without a reconciliation that raises and is swallowed by the loop.
- ListCommittedTurns: `moments_only`, flags and previews; one abort event per id; no two scopes committing one id at one instant; the abort query orders by `occurred_at` alone, taken as the same time as the filter's `occurred_at` or `created_at`, since the journal's writer stores both.
- RunOnePass: an exception is the ending `Raised`, wherever it comes from; a guard or an original hook that raises is not told apart.
- SQLite, file locks, fsync, environment variables, HTTP probes and subprocess workers: atomic durable steps or arbitrary answers.
- The authority and ownership tests when a rebuild is opened.
- Digests: the prompt digest is the context itself and the fingerprint the row, so both are injective.
- Ids of intents, interactions and records are integers and instants are reals, since only their order matters; the microsecond truncation of `occurred_at` is not modelled.
- Databases that lack the optional `messages` columns: rows always have them.
- MR-Mem admission, the policy, the intent engine, the dynamics engine and the LLM worker: arbitrary functions.
- Tick stages before `_decide` other than the scheduler: projection, situation and affect decay; and expression after it.
- FrozenValues: NaN; numbers that compare equal across types (`1`, `1.0`, `True`) are one value.
- Readiness: epoch identities are distinct, timestamps aware and parsable; the `checks` and `reasons` fields are not modelled.
- Paths are resolved segment sequences: no symbolic links.
- The registry's write lock is taken as serializing writers; entries that are not objects are read as entries without fields.
- PersonaPublication: permission bits and removal of the temporary file.
- SemanticPass: the text of the memory context, token counts and telemetry; objects have distinct keys.
- AffectTrends: reals in place of binary floats, one reading per dimension in place of three parallel dictionaries, distinct turn ids, slow-state history, summaries and sparklines.
- TraceJournal: payload values outside JSON, success counts, the completeness label and time windows; lower-casing is a parameter.
- RuntimeAdmission: blocking in `acquire`, and the error of freeing an unlocked lock.
- Live traces, terminal interfaces, gateway patch scripts, provenance graphs, dataclass validators and the research archive: presentation, plumbing or single-branch tests.
