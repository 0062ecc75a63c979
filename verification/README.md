# Verified model of the bookkeeping kernel

Several agents share one project. The kernel keeps a durable ledger, workspace
snapshots, turn baselines, journals and a state directory, all updated by
processes that may die between any two file writes, under a lock. This project
models that kernel in Dafny and proves its protocol, refinement and round-trip
properties.

`dafny verify dfyconfig.toml` checks everything.

## How it is organised

Code that changes a ledger, an index, a directory or a turn in place is a class
whose methods follow that code branch by branch; each method is proved equal to
a function on plain values. Lemmas about those functions state what every step
keeps and what holds over whole runs. Loops stay loops, proved against a
recursive definition. Durable writes are recorded in a ghost `trace`, and a crash
leaves the disk in one of the recorded states.

| files | what they hold |
|---|---|
| `Manifest`, `ManifestRuns`, `ManifestWork`, `ManifestAnswers`, `ManifestLimits` | the manifest transaction over ledger, `workspace-current` and turn baselines; crash recovery; whole runs; what a commit answers and leaves; where its guarantees end |
| `Attribution`, `AttributionFacts` | which agents own unsettled revisions of a path: recording, eviction, settlement |
| `LedgerReducer`, `LedgerTurns`, `LedgerRuns`, `LedgerTurnRuns`, `LedgerMemory`, `LedgerUpkeep` | the event reducer, which the manifest transaction shares; when a turn was last used and what it changed; turn closing and retirement, maintenance; whole runs; how long a closed turn is remembered |
| `R2Gate`, `R2Answers` | the destructive-command decision over the attribution index; exactly what it lets through |
| `Migration`, `MigrationAnswers`, `MigrationRuns` | the state directory, its copy/verify/rename migration, writers, outsiders and crashes |
| `Outbox`, `OutboxAnswers`, `OutboxRuns`, `OutboxProgress` | the coordination outbox, its journal and receipts; what it accepts and delivers; interleaved drainers; progress of draining |
| `Scorecard`, `ScorecardFacts`, `ScorecardAnswers`, `ScorecardRefines` | the incremental scorecard and the batch aggregate it refines; what both count |
| `ScorecardBound`, `ScorecardStore` | the bound on cached sessions; the scorecard journal and its dirty flag across evictions and crashes |
| `Covers`, `CoversFacts`, `CoversRuns` | verification freshness of one turn |
| `Snapshots`, `SnapshotBuild` | net delta, baseline merge; collision removal |
| `ScopePolicy`, `ScopeAnswers` | scan scope, pruning and glob matching |
| `ShellScan`, `ShellSegments`, `ShellOperators`, `ShellCases` | shell text cut into command segments, against a reference lexer; at which operators; `case` |
| `Quarantine`, `QuarantineFacts`, `QuarantineRoundTrip`, `QuarantineAnswers`, `Separated`, `Utf8` | quarantine records written and read back, what is read from any file, UTF-8 (RFC 3629, sections 3 and 4), garbage collection |
| `Common`, `Runs`, `Ordering`, `Paths`, `Decimals` | shared types, induction over runs, sorted listings, paths, decimal numbers |

Assumed throughout: the lock excludes and a crash releases it; replacing one file
is atomic; hashes and identifiers are injective, so an id stands for its content;
times, randomness and the file system's answers are inputs. A save that fails
ends its process, as a crash between two writes does.

## Where the code falls short of what it is for

Each of these is a lemma with its exact condition, not a footnote:

- An ordinary change event carries a manifest generation of at least 1
  (core/adapter_change_events.py:19-36). One ahead of the ledger's generation
  raises it without a manifest: exactly then the generation stops counting the
  committed advances (`EventKeepsChainExactly`). That happens at rest too, with
  the first change of a project that has no manifest yet
  (`FirstChangeRaisesGeneration`). Between a crash and its recovery it makes a
  rollback keep the raised generation and a roll-forward drop the committed
  change events (`RollbackRestoresGenerationExactlyUnlessAhead`,
  `RollForwardAppliesExactly`).
- A committed manifest's change events go through the reducer when the ledger is
  finalized. Each is applied exactly if its turn is open at that point
  (`AppliedExactly`, `TakesExactly`). Admission looks elsewhere: with one turn
  active it lets an event of another turn pass, which is then never applied
  (`ReplacedTurnIsNotApplied`); nor is one whose turn a prompt replaces between a
  crash and its recovery (`TurnReplacedBeforeRecovery`).
- Two snapshots may have one id but different scope policies. Recovery then
  cannot rebuild a pending baseline and degrades the turn
  (`SameIdRebuildsExactlyUnderOneScope`).
- An event without a turn id opens a turn under a numbered default id, even if a
  turn of that id was retired (`RetiredRevivedExactly`).
- A caller that leaves out part of its identity is recorded under one key and
  judged under another, so its own revisions block it (`KeysAgreeExactly`,
  `IncompleteCallerIsItsOwnPeer`).
- The destructive-command gate compares a container with a path as text. A
  container that holds another agent's unsettled file is blocked if and only if
  it lies inside the project (`HoldingContainerBlockedExactly`): the project root
  written as `src/..` and the directories above it pass (`RemovingTheRootPasses`,
  `RemovingAboveTheRootPasses`).
- A coordination journal that cannot be read counts as empty, and a delivery then
  appends an id a second time; ids are unique exactly as long as that did not
  happen (`JournalIdsUniqueExactly`). An append torn inside a character makes the
  file unreadable for good (`TornIsNeverRead`). An event whose text holds U+0085,
  U+2028 or U+2029 is dropped from the outbox and not in the journal
  (`DrainKeepsExactly`, `AppendReadsBackExactly`); an R2 denial is accepted by its
  id alone (`AcceptedDenyForever`).
- A scorecard entry marked complete can miss lines: after a crash between a
  session's first journal line and its first save, or when more than 64 sessions
  were evicted after it. These are the only ways to lose sight of a session
  (`StepSoundExactly`, `NewEventTrueExactly`, `LeftoverLineIsMissed`,
  `ForgottenSessionIsMissed`).
- The scorecard cache counts a list of resolved ids and the batch a set; they
  agree exactly when no recovery names twice a block that it resolves
  (`CacheEqualsBatchExactly`, `RepeatedNameCountsTwice`).
- An exclude pattern that is a bare directory name hides the directory from the
  scan although its contents are in scope (`SkipsExactly`, `BareNameHidesContents`).
- A quarantine header value that ends in `# ---` is taken for the separator
  (`RecordBodyExactly`). One that holds a line break which escaping leaves alone
  (U+0085, U+2028 and the like) breaks the header off, unless every further line
  of it starts like a header line (`RecordsReadBackExactly`).
- A substitution or backtick that is never closed does not protect what follows
  it: the text is cut at the next semicolon (`UnclosedIsCut`) and always reported
  malformed (`LeftOpenIsMalformed`).

## Model

| member | source | states |
|---|---|---|
| `Manifest.ManifestStore.CommitLocked` | core/provenance_manifest.py:620-721 | recovers, refuses or runs the transition; outcome, final disk and the disk after every single write are those of `CommitOf` |
| `Manifest.ManifestStore.RunTransition` | core/provenance_manifest.py:676-721 | the writes of an admitted commit in order: pending record, `workspace-current`, baseline, finalized ledger |
| `Manifest.ManifestStore.RecoverLocked` | core/provenance_manifest.py:736-767 | rolls forward, rolls back or raises, with the disk after each write |
| `Manifest.ManifestStore.RollForward` | core/provenance_manifest.py:749-759 | restores or degrades the baseline, then finalizes |
| `Manifest.ManifestStore.RestorePendingBaseline` | core/provenance_manifest.py:770-838 | leaves the file alone, advances it to the merged snapshot, or reports it lost |
| `Manifest.ManifestStore.AdvanceBaseline` | core/provenance_store.py:161-198 | compare-and-set: writes exactly when the stored ledger's generation and the stored id are the expected ones |
| `Manifest.ManifestStore.FinalizeLedger` | core/provenance_manifest.py:939-977 | sends the committed events through the reducer in order, with its turn guards, turn opening and stale collection, advances generation and snapshot id, notes the baseline, clears the pending record |
| `ManifestRuns.PreparedNumbered` | core/provenance_manifest.py:908-936 | the n-th event takes the n-th number after the counter: the numbers taken rise strictly above all taken before, and the counter ends at the last one |
| `ManifestRuns.AtRestInv` | core/provenance_manifest.py:724-733 | every store without a pending record starts a history that satisfies the invariant |
| `ManifestRuns.StepKeepsInv` | core/provenance_manifest.py:620-853 | commits and recoveries that die after any write, events, maintenance and lost baselines all keep the invariant, unless an event runs ahead of the generation |
| `ManifestRuns.RunKeepsInv` | core/provenance_manifest.py:620-853 | and so does every run of them |
| `ManifestRuns.FinalizeKeepsInv` | core/provenance_manifest.py:939-977 | finalizing reaches the next position of the chain of committed manifests |
| `ManifestRuns.RollBackKeepsInv` | core/provenance_manifest.py:760-763 | dropping the pending record leaves the chain where it was |
| `ManifestRuns.CrashAtomicity` | core/provenance_manifest.py:620-853 | a transition that dies after any write, then any recoveries dying anywhere, events and losses, then one completed recovery: generation, snapshot id and baseline id all new if it landed, all old if not, and no pending record |
| `ManifestRuns.BaselineOnlyRollsForward` | core/provenance_manifest.py:749-759 | a transition that only moves a baseline is carried forward from its first write on, without raising the generation |
| `ManifestRuns.RecoveryDegradesExactlyTheLost` | core/provenance_manifest.py:770-853 | recovery brings file and note to the new id when the file survived; the turn is degraded exactly when it did not (or already was), unless an applied event finds the turn stale and closes it |
| `ManifestRuns.NoLostUpdate` | core/provenance_manifest.py:630-721 | in every run without an event ahead of the generation the committed manifests form an unbroken before/after chain and the generation counts the advances |
| `ManifestRuns.EventKeepsChainExactly` | core/ledger_v2.py:278-287 | an ordinary event keeps that, at rest and with a transition pending, if and only if its generation does not exceed the ledger's |
| `ManifestRuns.ManifestsAlwaysChain` | core/provenance_manifest.py:620-853 | in every run whatever, each committed manifest was made on top of the one committed before it, and recovery never raises |
| `ManifestRuns.AppliedExactly` | core/provenance_manifest.py:939-963 | in every run an event of a committed transition is applied once if its turn is open when its place in the finalization comes and never otherwise; one of a rolled-back transition never |
| `ManifestRuns.PendingNotApplied` | core/provenance_manifest.py:743-763 | nor is one of a pending transition |
| `ManifestRuns.TakesExactly` | core/ledger_v2.py:174-215 | the reducer takes a committed event if and only if the manifest has not moved past it and its turn is open: not retired, and either the active one or, with none active, not ended |
| `ManifestRuns.TurnStays` | core/ledger_v2.py:215-291 | committed events leave the active turn and its degradation alone, unless one finds the turn stale |
| `ManifestWork.FreshIsTold` | core/provenance_manifest.py:724-733 | a store without turns starts a history |
| `ManifestWork.RunIsTold` | core/provenance_manifest.py:620-853 | in every run whatever, each open turn has the id its opening event gave it, was last used by the last event it took, and its table tells the changes it took; every committed event that the reducer took is among them |
| `ManifestWork.RevisedExactly` | core/ledger_v2.py:708-714 | in every run, committed events included, the changed paths of an open turn are exactly those with a net change among the changes it took since it was opened |
| `ManifestWork.RevisedIsRefused` | core/provenance_manifest.py:664-670 | in every run a baseline update that covers such a path of the agent's open turn is refused and writes nothing but the recovery |
| `ManifestAnswers.RefusedExactly` | core/provenance_manifest.py:620-670 | in every run a commit is refused if and only if it is stale, a turn it requires has lost its baseline, a template's turn does not go on, or its update does not fit; which changed paths matter is read off the history |
| `ManifestAnswers.CommitAnswers` | core/provenance_manifest.py:620-721 | in every run a commit raises, is refused, answers that nothing changes, or leaves manifest, generation, baseline and pending record all new, each under exactly one condition |
| `ManifestAnswers.RecoveryRaisesExactly` | core/provenance_manifest.py:736-767 | recovery raises if and only if the stored snapshot is neither the one before nor the one after the pending transition, and then writes nothing |
| `ManifestAnswers.BaselineIsNewOrTurnDegraded` | core/provenance_manifest.py:770-853 | rolled forward, a pending baseline is in its file or the turn that goes on is degraded; a file is rewritten only from the baseline before and at the transition's own generation |
| `ManifestAnswers.CommittedNotes` | core/provenance_manifest.py:939-963 | a committed event gives the turn it opens its baseline note and changes no other |
| `ManifestAnswers.FinalizedNotesExactly` | core/provenance_manifest.py:939-977 | a turn that goes on ends with the new baseline as its note if the update is its own, and with its old note otherwise |
| `ManifestAnswers.CommittedIsNumbered` | core/provenance_manifest.py:908-963 | a path that a committed event changed stands in its turn's table under the event's number and the transition's generation |
| `ManifestAnswers.CommittedIsListed` | core/provenance_manifest.py:908-963 | and in the attribution index under the agent that the event names |
| `ManifestRuns.NumbersNeverReused` | core/provenance_manifest.py:908-936 | sequence numbers taken later lie strictly above all taken earlier, rollbacks included |
| `ManifestLimits.RollbackRestoresGenerationExactlyUnlessAhead` | core/provenance_manifest.py:760-763 | with an ordinary event in between, rollback restores the generation if and only if the event's does not exceed the ledger's |
| `ManifestLimits.RollForwardAppliesExactly` | core/provenance_manifest.py:939-977 | roll-forward applies all the committed events if and only if the ledger is not ahead of them and each finds its turn open |
| `ManifestLimits.ReplacedTurnIsNotApplied` | core/provenance_manifest.py:939-1078 | a template of a turn that is not the active one is admitted and committed, and never applied |
| `ManifestLimits.TurnReplacedBeforeRecovery` | core/provenance_manifest.py:743-763 | nor is one whose turn a prompt replaces between the crash and its recovery |
| `ManifestLimits.FirstChangeRaisesGeneration` | core/adapter_change_events.py:19-36 | the first change of a project without a manifest raises the generation to 1 with nothing committed |
| `ManifestLimits.SameIdRebuildsExactlyUnderOneScope` | core/provenance_manifest.py:770-838 | with an unchanged snapshot id the baseline can be rebuilt if and only if both snapshots have one scope |
| `Snapshots.SameIdSameEntries` | core/provenance_snapshot.py:82-110 | equal ids under one folding mean equal entries and exclusions |
| `Snapshots.SharedKeyExactly` | core/provenance_policy.py:89-91 | two paths share a key exactly if they agree character by character, slashes and backslashes alike and, where case is folded, letters in either case |
| `Snapshots.SameIdSameMerge` | core/provenance_manifest.py:1103-1152 | which of two snapshots with one id is stored does not change the merged id |
| `SnapshotBuild.CollidingKeys` | core/provenance_snapshot.py:69-79 | returns exactly the keys that two different paths share, each with the smaller one of the first path and the last one that differs from it |
| `SnapshotBuild.MinPathIsFirst` | core/provenance_snapshot.py:69-79 | the smaller of two paths is one of them and sorts before both |
| `SnapshotBuild.BuildEntries` | core/provenance_snapshot.py:33-66 | keeps exactly the entries whose key does not collide, as often as the scan lists them, sorted by key and path |
| `SnapshotBuild.BuiltSnapshotHasUniqueKeys` | core/provenance_snapshot.py:33-79 | a built snapshot can always be indexed, and indexes exactly the uncollided keys |
| `Snapshots.IndexEntries` | core/provenance_delta.py:26-37 | the index, or the policy error exactly when two paths share a key |
| `Snapshots.CalculateNetDelta` | core/provenance_delta.py:13-23 | the deltas in key order |
| `Snapshots.DeltaForPathNames` | core/provenance_delta.py:40-71 | a delta is emitted exactly when type, digest or mode differ, under the operation that names the change |
| `Snapshots.DeltaReplaysToCurrent` | core/provenance_delta.py:13-71 | replaying the delta on the baseline gives the current state on type, digest and mode |
| `Snapshots.DeltaNamesEveryChangeOnce` | core/provenance_delta.py:13-71 | every changed key appears once, in order, under the right operation, and nothing else does |
| `Snapshots.MergeIndex` | core/provenance_manifest.py:1117-1128 | adds the candidate keys the baseline lacks and keeps everything it has |
| `Snapshots.MergeTurnBaseline` | core/provenance_manifest.py:1103-1152 | the merged snapshot, or the policy mismatch |
| `Snapshots.MergeBaselineIndex` | core/provenance_manifest.py:1103-1152 | the merged snapshot is genuine and its index is the merged index |
| `Snapshots.MergeHidesCandidateCreates` | core/provenance_manifest.py:1103-1152 | the delta from the merged baseline is the old delta without exactly the creations under candidate keys |
| `Snapshots.MergeComposes` | core/provenance_manifest.py:1103-1152 | merging twice is merging once with both candidate sets |
| `Snapshots.MergeIdempotent` | core/provenance_manifest.py:1103-1152 | merging again with the same candidates changes nothing |
| `Snapshots.IndexedSortedValues` | core/provenance_manifest.py:1141-1152 | listing an index in key order and indexing the list again loses nothing |
| `PathAttribution.AttributionIndex.CountLive` | core/ledger_v2.py:505-510 | counts the entries with an unsettled owner |
| `PathAttribution.AttributionIndex.Record` | core/ledger_v2.py:294-359 | the whole index after a change event, filter included |
| `PathAttribution.AttributionIndex.RecordItem` | core/ledger_v2.py:312-359 | one path of it, with the running live counter |
| `PathAttribution.AttributionIndex.Settle` | core/ledger_v2.py:428-464 | the whole index after a verification |
| `PathAttribution.AttributionIndex.SettleOwners` | core/ledger_v2.py:453-464 | settles exactly the owners the verification covers |
| `PathAttribution.FindOwner` | core/ledger_v2.py:372-379 | the agent's own entry in the owner list, none exactly if it has none |
| `PathAttribution.OldestSettled` | core/ledger_v2.py:386-398 | the settled owner of the smallest revision, the first of equals, none exactly if none is settled |
| `PathAttribution.FirstAged` | core/ledger_v2.py:333-346 | a fully settled entry to evict, none exactly if all are live |
| `AttributionFacts.CountMeaning` | core/ledger_v2.py:513-521 | the count that decides contention is at most one exactly when at most one owner is unsettled |
| `AttributionFacts.OwnerRecordedFacts` | core/ledger_v2.py:362-425 | what one change leaves listed: its own revision, and exactly the other owners of the same content, exclusive exactly if that is one owner of an uncontended change; or nothing changed but overflow |
| `AttributionFacts.RecordedKeepsIndex` | core/ledger_v2.py:294-425 | every change keeps the bounds, one revision per agent, one digest among unsettled owners and exclusive meaning at most one of them; the loop's counter is the true count at every item |
| `AttributionFacts.SettlementKeepsIndex` | core/ledger_v2.py:428-464 | and so does every verification |
| `AttributionFacts.EvictionOk` | core/ledger_v2.py:333-346 | evicting a fully settled entry keeps the index and the counter right |
| `AttributionFacts.ItemTouchesOnly` | core/ledger_v2.py:312-359 | besides its own path an item can only drop one fully settled path |
| `AttributionFacts.NotListedIsOnRecord` | core/ledger_v2.py:312-425 | a recorded digest that is not listed leaves capacity exceeded, owner overflow, or something newer in place |
| `AttributionFacts.ItemReleasesExactly` | core/ledger_v2.py:312-425 | an item ends an agent's protection of a path if and only if it deletes the path or another agent's different content takes effect |
| `AttributionFacts.ChangeKeepsProtection` | core/ledger_v2.py:294-359 | a change event none of whose items does that keeps the protection; eviction and overflow never end it |
| `AttributionFacts.SettlementLeaves` | core/ledger_v2.py:428-464 | the unsettled owners after a verification are the uncovered ones before it |
| `AttributionFacts.SettlementReleasesExactly` | core/ledger_v2.py:428-464 | a verification ends an agent's protection if and only if it covers every unsettled revision the agent has of the path |
| `AttributionFacts.SettledStatusExactly` | core/ledger_v2.py:453-464 | a path that a verification settles stays contended if and only if it once overflowed or more than one owner is still unsettled |
| `AttributionFacts.CapacityExceededExactly` | core/ledger_v2.py:312-359 | capacity is exceeded exactly by a change that gives a path without unsettled owner a digest while 10,000 others have one; it is then not recorded, and every other such change is |
| `LedgerReducer.LedgerState.Apply` | core/ledger_v2.py:169-291 | the whole ledger after an event, every guard and branch |
| `LedgerReducer.LedgerState.Admits` | core/ledger_v2.py:174-215 | an event reaches the reducer exactly when no guard drops it |
| `LedgerReducer.LedgerState.OpenPrompted` | core/ledger_v2.py:235-277 | a prompt reopens its turn, closes another, drops the legacy turn and keeps a degraded one |
| `LedgerReducer.LedgerState.Finish` | core/ledger_v2.py:224-234 | a finished turn moves to the closed list |
| `LedgerReducer.LedgerState.Continue` | core/ledger_v2.py:265-291 | any other event continues or opens its turn, raises the generation and updates the index |
| `LedgerReducer.LedgerState.CollectStale` | core/ledger_v2.py:795-819 | closes exactly the turns idle for more than a day, but not the preserved one |
| `LedgerReducer.LedgerState.CloseKeys` | core/ledger_v2.py:810-819 | closes the listed turns one after the other |
| `LedgerReducer.LedgerState.RememberClosed` | core/ledger_v2.py:857-880 | the closed list with this turn newest, the oldest forgotten beyond the cap |
| `LedgerReducer.LedgerState.Maintain` | core/ledger_maintenance.py:202-243 | closes and retires the planned turns, or refuses when a list would overflow |
| `LedgerReducer.AppliedCounters` | core/ledger_v2.py:278-291 | an event moves the counter to its own number if that is higher, and the generation only if it raises it |
| `LedgerReducer.ChangeLeavesTurn` | core/ledger_v2.py:215-291 | a change event leaves its agent's turn the active one unless it finds it stale |
| `LedgerTurns.EventRefreshes` | core/ledger_v2.py:602-611 | an event that reaches the reducer and finishes nothing leaves its turn open and last used at its time; every other open turn is as it was |
| `LedgerTurns.AppliedTells` | core/ledger_v2.py:169-291 | after every event the open turns are what the events taken so far say |
| `LedgerTurns.CollectsExactly` | core/ledger_v2.py:795-819 | an event closes an open turn if and only if its last event lies more than 86400 seconds back and the event does not name it |
| `LedgerTurnRuns.RunTells` | core/ledger_v2.py:169-291 | over every run, with the events taken read off the steps |
| `LedgerTurnRuns.RunCollectsExactly` | core/ledger_v2.py:795-819 | and likewise what an event closes |
| `LedgerTurnRuns.RunRevisesExactly` | core/ledger_v2.py:708-714 | over every run the changed paths of an open turn are the net changes of the steps it took since it was opened |
| `LedgerUpkeep.GoesToExactly` | core/ledger_v2.py:529-546 | an event goes to its own agent's turn, unless it is no prompt, its identity is a stand-in, its agent has no turn and one other agent alone has one |
| `LedgerUpkeep.PromptOpensExactly` | core/ledger_v2.py:190-277 | a prompt is refused if and only if it names a turn that its agent retired; otherwise that turn is the open one, last used now and not listed as closed |
| `LedgerUpkeep.MaintainedExactly` | core/ledger_maintenance.py:202-243 | maintenance is refused as a whole if and only if a list would outgrow 256; otherwise the given turns are no longer open, and exactly they are listed as closed or retired besides those listed before |
| `LedgerRuns.DefaultLedgerInv` | core/ledger_v2.py:39-55 | the default ledger satisfies the invariant |
| `LedgerRuns.StepKeepsInv` | core/ledger_v2.py:169-291 | events, collection, maintenance and reloads keep active and ended turns apart, both lists capped and the index sound |
| `LedgerRuns.RunKeepsInv` | core/ledger_v2.py:169-291 | over every run of events that name their turn |
| `LedgerRuns.RetiredNeverActive` | core/ledger_v2.py:190-215 | a retired turn stays retired and is never active again, prompts included |
| `LedgerMemory.ClosedUntilNamed` | core/ledger_v2.py:190-264 | a closed turn stays listed and inactive over every run in which no prompt names it and no full list pushes it off, both read off the state before each step |
| `LedgerMemory.EvictedExactly` | core/ledger_v2.py:857-880 | an event that does not name a remembered closed turn takes it off the list if and only if the turns it closes do not fit behind it |
| `LedgerMemory.StaysClosedExactly` | core/ledger_v2.py:201-264 | a step of any kind takes it off exactly under that condition |
| `LedgerMemory.ClosedWhileFewFollow` | core/ledger_v2.py:857-880 | over every run it is remembered and inactive while it and the turns closed after it are at most 256 |
| `LedgerMemory.MaintenanceForgetsNothing` | core/ledger_maintenance.py:202-243 | maintenance forgets no closed turn |
| `LedgerRuns.RetiredRevivedExactly` | core/ledger_v2.py:190-271 | an event brings a retired turn back if and only if it names no turn and its numbered default is a retired id |
| `LedgerRuns.RetiredRevivedWithoutTurnId` | core/ledger_v2.py:571-575 | one such event |
| `LedgerRuns.AttributionAfter` | core/ledger_v2.py:174-289 | only change and verification events that reach the reducer touch the index |
| `LedgerRuns.VerificationReleasesExactly` | core/ledger_v2.py:428-464 | on a sound index a verification ends protection if and only if it succeeded, is the agent's own, covers that digest and reaches its sequence number |
| `LedgerRuns.StepKeepsProtection` | core/ledger_v2.py:169-464 | no other step of the ledger ends it |
| `LedgerRuns.ProtectedUntilReleased` | core/ledger_v2.py:169-464 | over every run a listed unsettled revision stays listed until it is released |
| `R2Gate.WithinIsComponentPrefix` | core/destructive_guard.py:3029-3031 | a path is within a container exactly when the container's components begin its own |
| `R2Gate.PassesExactly` | core/destructive_guard.py:2933-3026 | the gate passes if and only if all commands are resolved, the state is healthy, and no target or container meets protected state, an open peer invocation or another agent's unsettled revision |
| `R2Answers.AllowsExactly` | core/destructive_guard.py:2933-3026 | under whatever reason, the gate lets a request through if and only if it is no shell command, not destructive, or the state is healthy and no target or container, as places, meets protected state, an open peer invocation or a file that another agent has not settled; everything else is blocked |
| `R2Gate.InsideHoldsExactly` | core/destructive_guard.py:2994-3031 | a place below the project root lies above a path exactly when the text test says so |
| `R2Gate.HoldingContainerBlockedExactly` | core/destructive_guard.py:2994-3031 | a container that holds another agent's unsettled file is found if and only if it is not the project root or a directory above it |
| `R2Gate.RemovingTheRootPasses` | core/destructive_guard.py:3029-3031 | removing the project root written as a child's parent passes |
| `R2Gate.RemovingAboveTheRootPasses` | core/destructive_guard.py:3003-3008 | and so does removing the directory above it |
| `R2Gate.ProtectedPathBlocks` | core/destructive_guard.py:2757-3026 | an unsettled revision blocks every other caller whose target is the file or whose container inside the project holds it |
| `R2Gate.ProtectedUntilReleasedBlocks` | core/destructive_guard.py:2933-3026 | at every point of every run, until a step releases the revision |
| `R2Gate.KeysAgreeExactly` | core/destructive_guard.py:2747-2754 | the gate's key for a caller is the reducer's exactly when its identity is complete |
| `R2Gate.IncompleteCallerIsItsOwnPeer` | core/destructive_guard.py:2747-2770 | otherwise the caller's own unsettled revisions block it |
| `Migration.HiddenWrite` | core/state_layout.py:485-489 | transient entries do not show in a manifest |
| `MigrationAnswers.HiddenExactly` | core/state_layout.py:485-489 | a path stays out of a manifest exactly if it or a directory above it is the project configuration or the marker at the top, or ends in `.guard`, `.lock` or `.tmp` |
| `MigrationAnswers.AuthorityExactly` | core/state_layout.py:107-290 | the legacy directory is the authority exactly while there is no target and nothing is out of order; the target is, exactly if a migration has finished, it stands alone or nothing stands |
| `MigrationAnswers.RecoveryLeavesExactly` | core/state_migration.py:600-649 | recovery removes exactly the staging directories that name the process and attempt of their own marker, whose process is dead |
| `MigrationAnswers.StateNamesAreProtected` | core/state_layout.py:174-194 | everything that the state directory and its migration put into the project root has a protected name |
| `Migration.ProjectRoot.CopyFolders` | core/state_migration.py:539-544 | the staging directory holds exactly the manifest's directories |
| `Migration.ProjectRoot.CopyFiles` | core/state_migration.py:545-557 | then its files, as they are read while outsiders may write; undisturbed, exactly the manifest |
| `Migration.ProjectRoot.CopyEntries` | core/state_migration.py:532-563 | both, as one copy |
| `Migration.ProjectRoot.SourceStill` | core/state_migration.py:436-470 | a second manifest equal to the first means the source's visible entries are those recorded |
| `Migration.ProjectRoot.CopyVerifyPublish` | core/state_migration.py:384-529 | at every moment, and however it ends, the legacy directory is as outsiders left it and the target is as before or holds exactly the legacy manifest of that moment, sealed; it publishes whenever nothing interferes |
| `Migration.ProjectRoot.Publish` | core/state_migration.py:397-474 | the steps up to the rename |
| `Migration.ProjectRoot.RemoveOwnedStaging` | core/state_migration.py:798-823 | removes only the attempt's own staging directory |
| `Migration.ProjectRoot.RecoverOrphans` | core/state_migration.py:600-618 | removes exactly the staging directories whose own marker and dead owner say so |
| `Migration.Pruned` | core/state_migration.py:600-649 | nothing else is removed or changed |
| `Migration.ProjectRoot.MigrateLocked` | core/state_migration.py:308-381 | done means migrated with the legacy manifest; otherwise the target is untouched; foreign staging directories survive; whenever it can start and nothing interferes it gets done |
| `MigrationRuns.StartsSane` | core/state_layout.py:201-290 | a project without state, with a legacy or with a native directory is a sound start |
| `MigrationRuns.TraceIsAttempt` | core/state_migration.py:384-529 | whatever a migrator leaves where it stops is a step of the runs below |
| `MigrationRuns.SaneHasAuthority` | core/state_layout.py:107-119 | a sound layout has an authority |
| `MigrationRuns.WriteStep` | core/state_layout.py:131-167 | a writer leaves the authority where it is and changes only its own entry there |
| `MigrationRuns.AttemptStep` | core/state_migration.py:384-529 | an attempt keeps the authoritative visible entries, and moves the authority exactly when it publishes |
| `MigrationRuns.EveryWriteIsKept` | core/state_layout.py:131-290 | at every point of every run of writers, migrators and crashes there is one authority, whose visible entries are exactly those the successful writes left |
| `MigrationRuns.MigratedForever` | core/state_layout.py:234-251 | no step of a writer, migrator or outsider brings the legacy directory back into authority |
| `MigrationRuns.LeftoverNeverPublished` | core/state_migration.py:384-529 | an attempt leaves every staging directory it found as it was |
| `MigrationRuns.LeftoverNeverBlocks` | core/state_layout.py:253-290 | whatever plain leftovers there are, the layout can be migrated, and they change nothing afterwards |
| `Outbox.Coordination.EnqueueRaw` | core/ledger.py:484-513 | accepts or refuses, deduplicates against outbox and receipts, marks degraded |
| `Outbox.Coordination.EnqueueDeny` | core/scorecard_coordination.py:345-384 | an R2 denial of a known id is accepted as it is |
| `Outbox.Coordination.Begin` | core/ledger.py:533-556 | takes the next batch of sixteen, round robin from the cursor |
| `Outbox.Coordination.Deliver` | core/ledger.py:557-573 | one turn of the delivery loop: append, adopt the recorded event, or give the entry up |
| `Outbox.Coordination.AcknowledgeDone` | core/ledger.py:616-629 | removes what was delivered unless it changed meanwhile, and files receipts |
| `Outbox.Coordination.Trim` | core/ledger.py:630-636 | keeps the newest receipts within the bound |
| `Outbox.Coordination.Acknowledge` | core/ledger.py:583-652 | both, and advances the cursor |
| `Outbox.Coordination.Drain` | core/ledger.py:532-580 | one whole drain |
| `Outbox.LoadJournal` | core/scorecard_coordination.py:234-264 | the first event of each id, and whether every line was good |
| `OutboxAnswers.ReadsBackExactly` | core/scorecard_coordination.py:234-264 | for each id the loader finds the event that the first line recorded, and it is complete exactly if no line is broken and lines of one id agree |
| `OutboxAnswers.AcceptsExactly` | core/ledger.py:484-513 | an entry is accepted if and only if it is well formed and repeats what is held under its id or is new and finds one of 256 places; a refusal only marks the coordination degraded |
| `OutboxAnswers.AcceptsDenyExactly` | core/scorecard_coordination.py:345-384 | a denial besides whenever anything is held under its id |
| `OutboxAnswers.DeliversExactly` | core/scorecard_coordination.py:291-315 | the event recorded first under the id stands if it is the same event or the same denial and conflicts otherwise; a new one is appended |
| `OutboxAnswers.DeliveryTellsExactly` | core/ledger.py:557-573 | an entry is done unless it cannot be parsed, conflicts or meets a transient failure, which degrade the drain; only a failure stops it |
| `OutboxAnswers.BeginsDegradedExactly` | core/ledger.py:533-556 | a drain starts degraded exactly if the journal is unreadable or inconsistent |
| `OutboxAnswers.AckTellsExactly` | core/ledger.py:583-652 | an acknowledgement removes exactly the entries delivered as they still are, moves the cursor past what was attempted and never back, and passes the degradation on |
| `OutboxRuns.ReplayedFacts` | core/scorecard_coordination.py:234-264 | a replay holds exactly the journal's ids, each once |
| `OutboxRuns.StartOk` | core/ledger.py:484-513 | the empty outbox satisfies the invariant |
| `OutboxRuns.StepKeepsInv` | core/ledger.py:484-652 | outbox and receipts stay disjoint and within 256, the delivery order lists the receipts once each, and every receipt is backed by the journal or by an event whose text splits |
| `OutboxRuns.RunKeepsInv` | core/ledger.py:484-652 | over every interleaving of enqueues and drainers that may crash between journal append and acknowledgement or tear an append |
| `OutboxRuns.AcceptedForever` | core/ledger.py:484-652 | from acceptance on an event whose own text does not split is in the outbox or in the journal, whatever other events do |
| `OutboxRuns.AcceptedDenyForever` | core/scorecard_coordination.py:345-384 | an accepted R2 denial stays kept under its id, if no event of that id splits |
| `OutboxRuns.UniqueExactly` | core/scorecard_coordination.py:291-315 | a step breaks the uniqueness of journal ids if and only if it appends a recorded id to a journal it could not read |
| `OutboxRuns.JournalIdsUniqueExactly` | core/scorecard_coordination.py:291-315 | at every point of every run ids are unique if and only if no step so far did that; so also after receipts were evicted and events enqueued again |
| `OutboxRuns.TornIsNeverRead` | core/scorecard_coordination.py:234-241 | after a tear inside a character every later drain is degraded and every later delivery unread |
| `OutboxRuns.AppendReadsBackExactly` | core/scorecard_coordination.py:234-315 | an appended event reads back if and only if its text does not split into lines |
| `OutboxProgress.DrainedFacts` | core/ledger.py:532-652 | one drain removes exactly the deliverable entries of its batch and changes no other's deliverability |
| `OutboxProgress.DrainKeepsExactly` | core/ledger.py:532-652 | a new event that a drain takes from the outbox is in the journal if and only if its text does not split |
| `OutboxProgress.AckedExactly` | core/ledger.py:616-629 | an entry is acknowledged exactly if it is in the batch and deliverable |
| `OutboxProgress.TurnedOn` | core/ledger.py:540-543 | moving the cursor by a batch turns the listing by a batch |
| `OutboxProgress.DrainProgress` | core/ledger.py:537-650 | with n entries pending some entry leaves within ceil(n/16) drains, if any can be delivered |
| `OutboxProgress.DrainingEnds` | core/ledger.py:537-650 | repeated draining ends, with exactly the undeliverable entries left |
| `OutboxProgress.SettledStays` | core/ledger.py:537-650 | and then changes nothing more |
| `Scorecard.UpdateEntry` | core/scorecard_cache.py:37-87 | one transition folded into the cached entry |
| `Scorecard.ForgetReasons` | core/scorecard_cache.py:77-78 | drops the reasons of the resolved ids only |
| `Scorecard.FoldEntry` | core/scorecard_cache.py:29-33 | the fold over one session |
| `Scorecard.GroupBySession` | core/scorecard_cache.py:25-27 | groups by agent key, sessions in the order of their first transitions |
| `Scorecard.BuildEntries` | core/scorecard_cache.py:25-33 | for every session the fold of its transitions in time order |
| `ScorecardBound.BuildCache` | core/scorecard_cache.py:22-34 | the entries of all sessions, bounded |
| `ScorecardBound.BoundCache` | core/scorecard_cache.py:154-163 | the bounded cache and the history of dropped sessions |
| `ScorecardBound.BoundKeepsNewest` | core/scorecard_cache.py:154-163 | the bound keeps as many sessions as it may, unchanged, and none that was last seen before one it drops |
| `ScorecardBound.OneGoes` | core/scorecard_cache.py:154-163 | with one session too many exactly one of those seen last the longest ago goes, and is remembered |
| `ScorecardBound.RememberedExactly` | core/scorecard_cache.py:158-163 | the history forgets exactly its oldest session, and only for a new one when full |
| `Scorecard.ResolveBlocks` | core/scorecard.py:259-289 | blocks, open blocks, recovered blocks and recovery scopes |
| `Scorecard.KeepUnique` | core/scorecard.py:171-178 | the first transition of each id, or the conflict error |
| `Scorecard.Summarize` | core/scorecard.py:185-207 | counts, open blocks, turn, times and per-reason rows of the ordered transitions |
| `Scorecard.AggregateTransitions` | core/scorecard.py:168-207 | the aggregate or its error |
| `ScorecardAnswers.BatchTellsExactly` | core/scorecard.py:259-289 | the batch holds exactly the blocks there were, those that a later recovery of their reason lists, and the scopes with a recovery that was the first to resolve some block |
| `ScorecardAnswers.SortKeepsOrder` | core/scorecard.py:179 | sorting by time keeps the order of transitions that are not later |
| `ScorecardAnswers.AggregateTells` | core/scorecard.py:168-207 | the aggregate counts blocks, recoveries, resolved blocks and allowances, in all and by reason, of the transitions each taken once, by time and among equals as they first came |
| `ScorecardFacts.DedupCommutesWithSort` | core/scorecard.py:171-179 | dropping repeated events and the stable sort commute |
| `ScorecardFacts.SessionCommutesWithSort` | core/scorecard_cache.py:26-27 | picking a session and the stable sort commute |
| `ScorecardFacts.FoldedSeen` | core/scorecard_cache.py:37-87 | an entry has seen exactly the events folded into it |
| `ScorecardFacts.FoldSkipsRepeats` | core/scorecard_cache.py:41-46 | repeated events do not change the fold |
| `ScorecardRefines.ScopeKeyInjective` | core/scorecard_cache.py:66-72 | within one session the joined key identifies the recovery scope |
| `ScorecardRefines.CacheRefinesBatch` | core/scorecard_cache.py:22-87 | the fold over sorted transitions agrees with the batch on counts, open blocks, turn, times and rows, up to attempts that a recovery names twice |
| `ScorecardRefines.CacheEqualsBatchExactly` | core/scorecard_cache.py:59-78 | the two agree in everything if and only if no recovery names twice a block that it resolves |
| `ScorecardRefines.CacheEqualsBatchWithoutRepeats` | core/scorecard_cache.py:59-78 | in particular when no transition lists an attempt twice |
| `ScorecardRefines.NoExtraExactly` | core/scorecard_cache.py:59-76 | nothing is counted twice exactly when no recovery does so |
| `ScorecardRefines.BatchRefusesExactly` | core/scorecard.py:171-184 | the batch refuses if and only if there is nothing, one id with two contents, or several sessions |
| `ScorecardRefines.BuiltEntryRefinesBatch` | core/scorecard_cache.py:22-34 | every session's entry of a built cache agrees with the batch aggregate of that session |
| `ScorecardRefines.RepeatedNameCountsTwice` | core/scorecard_cache.py:59-76 | the smallest session in which they differ |
| `ScorecardStore.Store.RecordLocked` | core/scorecard_store.py:130-175 | the durable states a record passes through, for every outcome of the saves and the append |
| `ScorecardStore.Store.Refold` | core/scorecard_store.py:154-175 | the ledger in memory after the append: refolded or marked incomplete, then bounded |
| `ScorecardStore.DroppedExactly` | core/scorecard_store.py:159-175 | what a record leaves is the cache bounded: one session goes exactly if another is new to a full cache, and it is one seen last the longest ago |
| `ScorecardStore.MarkedWithin` | core/scorecard_store.py:212-224 | bounding the marked cache before it is saved changes nothing |
| `ScorecardStore.CompleteAfterExactly` | core/scorecard_store.py:146-175 | after a record an entry is complete exactly if the line was appended where the cache ended and the entry was complete already or is of a session that cannot have been there before |
| `ScorecardStore.StartIsSound` | core/scorecard_store.py:130-175 | the empty cache and journal are sound |
| `ScorecardStore.StepTrueExactly` | core/scorecard_store.py:130-252 | a record, stopped anywhere, keeps complete entries true if and only if it does not adopt lines it never folded, or these fold to the same |
| `ScorecardStore.NewEventTrueExactly` | core/scorecard_store.py:130-252 | for a new event, if and only if it adopts no such lines |
| `ScorecardStore.StepSoundExactly` | core/scorecard_store.py:130-252 | a record keeps the store sound, wherever it stops and whatever it drops, if and only if it neither leaves a new session's first line behind nor forgets a session that has lines |
| `ScorecardStore.CompleteEntriesStayTrue` | core/scorecard_store.py:130-252 | over every run of records, evictions, crashes and failed saves without these two, an entry marked complete is the append-order fold of its session's lines |
| `ScorecardStore.LeftoverLineIsMissed` | core/scorecard_store.py:212-252 | a first line left behind, another session's record, then a record of the first: complete and one line short |
| `ScorecardStore.ForgottenSessionIsMissed` | core/scorecard_store.py:159-175 | a forgotten session recorded again is complete and misses its earlier lines |
| `Covers.TurnState.RecordPathRevisions` | core/verification_covers.py:95-145 | the turn's tables after a change event |
| `Covers.TurnState.RecordItem` | core/verification_covers.py:104-139 | one path of it, credit included |
| `Covers.TurnState.AttachCovers` | core/verification_covers.py:148-154 | the covers go to the latest result, if there is one |
| `Covers.TurnState.Verify` | core/verification_covers.py:148-154 | a verification event appends its result and attaches its covers |
| `CoversFacts.TableIsNetChange` | core/verification_covers.py:95-145 | over any changes the table holds exactly the paths whose last digest differs from the one before their first change, each with identity, digest, number and obligation of its last change |
| `CoversFacts.PendingExactly` | core/verification_covers.py:172-185 | pending are exactly the last changes of paths with a net change, neither exempt nor documentation, and not a peer's: read off the changes alone |
| `CoversFacts.ChangedBackIsNoRevision` | core/verification_covers.py:127-130 | a path created and removed again leaves no revision |
| `CoversRuns.VerifiedExactly` | core/verification_covers.py:157-185 | over every run, from the steps alone: a turn counts as verified if and only if nothing needs verification, or one single verification succeeded whose covers were captured when every change that needs it now already did |
| `CoversRuns.LaterChangeNeedsLaterCapture` | core/verification_covers.py:65-92 | a change that needs verification leaves the turn unverified until a verification succeeds that was captured after it; a capture before it is not enough even if the test ends later |
| `CoversRuns.PeerNeverCreditedAfterOwn` | core/verification_covers.py:188-245 | no path is credited to a peer once the turn has its own history of it |
| `ScopePolicy.CollectFixedPrefix` | core/provenance_policy.py:287-294 | the leading segments without wildcards |
| `ScopePolicy.FixedPrefixFacts` | core/provenance_policy.py:287-294 | they are plain and end the pattern or stop at a separator |
| `ScopePolicy.MatchedUnderPrefix` | core/provenance_policy.py:269-294 | a path the pattern matches is the fixed prefix or lies below it |
| `ScopePolicy.IncludedBelow` | core/provenance_policy.py:274-284 | an include pattern that matches a path can match below each of the path's directories |
| `ScopePolicy.StarExcludesBelow` | core/provenance_policy.py:269-271 | an exclude pattern that ends in a star excludes everything below what it excludes |
| `ScopePolicy.SkipsExactly` | core/provenance_policy.py:179-219 | a directory of an in-scope path is skipped if and only if it is excluded though the path is not and no include reaches below it |
| `ScopePolicy.PruningHidesNothing` | core/provenance_policy.py:179-294 | with exclude patterns that end in a star and have no bracket the scan descends into every directory of every in-scope path |
| `ScopePolicy.BareNameHidesContents` | core/provenance_policy.py:210-219 | a bare name hides contents that are in scope |
| `ScopeAnswers.TokensExactly` | core/provenance_policy.py:269-271 | a pattern is read token by token and nothing of it is lost; an opening bracket is a literal exactly if no bracket expression starts there |
| `ScopeAnswers.MemberExactly` | core/provenance_policy.py:269-271 | a character belongs to a bracket expression exactly if it lies in one of its ranges |
| `ScopeAnswers.GlobExactly` | core/provenance_policy.py:269-271 | a path matches exactly if it can be cut into pieces, one for each token |
| `ScopeAnswers.MatchesExactly` | core/provenance_policy.py:269-271 | besides, a pattern that ends in a slash and two stars matches the directory before them, and any other the path it spells |
| `ScopeAnswers.HardExcludedExactly` | core/provenance_policy.py:200-207 | a normal path is hard-excluded exactly if its first component is a protected or version-control name |
| `ScopeAnswers.SpellingsAgree` | core/provenance_policy.py:246-256 | backslashes and a leading `./` make no difference |
| `ScopeAnswers.SoftExcludedExactly` | core/provenance_policy.py:253-266 | a normal path is soft-excluded exactly if one of the known chains stands among its components |
| `ScopeAnswers.CanMatchBelowExactly` | core/provenance_policy.py:278-284 | an include can match below a directory exactly if the components before its first wildcard and the directory's are comparable, the longer one allowed to be the directory only if there is a wildcard |
| `ScopeAnswers.InScopeExactly` | core/provenance_policy.py:179-219 | the configuration is in scope; of the rest nothing hard-excluded, and an include wins over excludes and soft exclusions; descending likewise, where an include can match below |
| `ShellScan.FindBacktickEnd` | core/destructive_guard.py:2097-2106 | the first unescaped backtick |
| `ShellScan.FindSubstitutionEnd` | core/destructive_guard.py:2109-2172 | the closing parenthesis of a substitution, nested ones skipped |
| `ShellScan.TickCloses` | core/destructive_guard.py:2097-2106 | the reference lexer closes the backtick there, and never if none is found |
| `ShellScan.SubstitutionCloses` | core/destructive_guard.py:2109-2172 | the reference lexer first has everything closed again at the found end, and never if none is found |
| `ShellSegments.TakeTurn` | core/destructive_guard.py:2229-2357 | one pass through the branches of the loop |
| `ShellSegments.CutHere` | core/destructive_guard.py:2339-2354 | a cut moves one segment from what is to come to what was collected |
| `ShellSegments.EnterHere` | core/destructive_guard.py:2245-2318 | a nested command is scanned recursively on strictly shorter text |
| `ShellSegments.CommandSegments` | core/destructive_guard.py:2211-2362 | top-level segments, then nested ones, and whether something has no end |
| `ShellSegments.SegmentsLoseNothing` | core/destructive_guard.py:2211-2362 | without `case` the top-level segments and their separators rebuild the command exactly |
| `ShellSegments.CutsAtTop` | core/destructive_guard.py:2229-2354 | every cut lies where the reference lexer has nothing open and nothing escaped |
| `ShellOperators.OpeningsAreCut` | core/destructive_guard.py:2320-2354 | every semicolon, line break, pipe or ampersand that opens a new command there is part of a cut |
| `ShellSegments.SeparatorsAreTop` | core/destructive_guard.py:2211-2362 | in a command that leaves no substitution or backtick open the separator before each segment stands where the segments before it end, outside quotes, escapes, backticks and substitutions |
| `ShellOperators.OperatorsSeparate` | core/destructive_guard.py:2211-2362 | in such a command every semicolon and line break, every pipe without `>` before it and every ampersand without `>` beside it and with text since the last separator is in a separator |
| `ShellOperators.BreaksAndPipesSeparate` | core/destructive_guard.py:2320-2331 | for breaks and pipes wherever the last separator was |
| `ShellOperators.SeparatorsAreOperators` | core/destructive_guard.py:2320-2337 | each separator is the longest shell operator at its place, and stands only where one of these characters opens a new command |
| `ShellSegments.LostExactly` | core/destructive_guard.py:2229-2354 | the scan meets an opening without an end if and only if the reference lexer never closes one |
| `ShellSegments.LeftOpenIsMalformed` | core/destructive_guard.py:2211-2362 | and such a text is always reported malformed |
| `ShellCases.MalformedExactly` | core/destructive_guard.py:2211-2362 | a command is reported malformed if and only if its backticks are ambiguous, it leaves one open, or a command nested in it is malformed |
| `ShellCases.SegmentTextExactly` | core/destructive_guard.py:2333-2361 | in every command a top-level segment is the text between its cuts, with `case _ in ` in front if and only if it is not blank and, inside a `case` that opened before, only blanks stand between it and the end of a clause |
| `ShellSegments.UnclosedIsCut` | core/destructive_guard.py:2109-2172 | one text that is cut inside an open substitution |
| `Utf8.DecodeEncode` | core/quarantine.py:191-233 | decoding undoes encoding |
| `Utf8.DecodedPrefix` | core/quarantine.py:201-207 | decoding a byte prefix with errors ignored gives exactly the characters that fit whole |
| `Utf8.FittingIsLargest` | core/quarantine.py:201-207 | that number of characters is the largest within the limit |
| `Separated.PartsSurviveExactly` | core/quarantine.py:422-424 | header lines and body come apart as they were put together if and only if no line ends in the mark |
| `Quarantine.StoredIsLongestPrefix` | core/quarantine.py:191-207 | the stored body is the longest whole-character prefix within the byte limit |
| `Quarantine.DropExpired` | core/quarantine.py:362-371 | removes exactly the expired files, the oldest |
| `Quarantine.DropExcess` | core/quarantine.py:373-374 | removes the oldest beyond the number allowed |
| `Quarantine.DropOversize` | core/quarantine.py:376-388 | removes the oldest until the size fits, and no more |
| `Quarantine.Collect` | core/quarantine.py:342-388 | the survivors are the newest part, within age and both caps, and as large as these allow |
| `QuarantineFacts.EscapedEnds` | core/quarantine.py:236-237 | escaping neither makes nor breaks an end in characters it does not touch |
| `QuarantineFacts.BodySurvivesExactly` | core/quarantine.py:422-424 | the body comes back if and only if no header value ends in the mark |
| `QuarantineFacts.RecordBodyExactly` | core/quarantine.py:191-237 | the same for a whole record, in terms of the values given by its caller |
| `QuarantineRoundTrip.LoadedTable` | core/quarantine.py:391-402 | the parsed header is the table the fields spell, or what stands before the line at which it breaks off |
| `QuarantineRoundTrip.RecordRoundTrip` | core/quarantine.py:191-460 | a record read back gives the longest whole-character prefix, both byte counts, the truncation flag, and complete or truncated but never corrupt |
| `QuarantineRoundTrip.RecordsReadBackExactly` | core/quarantine.py:191-460 | for given header values every record of every command and limit reads back if and only if none ends in the mark and every line they fall into is read past |
| `QuarantineAnswers.EscapedInjective` | core/quarantine.py:236-237 | two header values with one escaped form are the same |
| `QuarantineAnswers.LinesTell` | core/quarantine.py:391-393 | the header falls into lines at every line end, CR LF counting as one |
| `QuarantineAnswers.FieldsExactly` | core/quarantine.py:391-402 | of any header exactly the keys are known that a line gives before the first that stops the reader, each with the value of the last such line |
| `QuarantineAnswers.StrippedExactly` | core/quarantine.py:400-401 | keys and values lose the blanks at both ends and nothing else |
| `QuarantineAnswers.StatusExactly` | core/quarantine.py:422-443 | of any file the status is corrupt if and only if the header is belied by the body or says so, and complete or incomplete if and only if it says so or, saying none of the three, its flag does |
| `Paths.JoinedComponents` | core/provenance_policy.py:253-266 | splitting a path at slashes and joining it again gives the path |
| `Decimals.ParsedDecimal` | core/quarantine.py:405-410 | a written count parses back |
| `Ordering.SortedUnique` | core/provenance_delta.py:18-22 | a set of keys has one sorted listing |

## Left out

- Lock files, process liveness and `flock` (core/file_lock.py): mutual exclusion, released by a crash, is assumed.
- JSON, hashing and UUIDs: ids are their content or injective, digests are parameters; a file is replaced atomically.
- Unicode case folding and Windows or symbolic-link path resolution: keys fold ASCII letters, paths are POSIX.
- Regex and word-list classifiers, per-command option tables, adapters, command-line shims and messages: many cases, shallow properties.
- Agent audit logs: appended outside the atomic save, so nothing is claimed about them.
- Manifest: legacy pending records without baseline ids (core/provenance_manifest.py:856-905), the capped `manifest_event_journal`, bootstrap (core/provenance_manifest.py:230-505) and collisions of two baselines' file names.
- Manifest.ManifestStore.AdvanceBaseline: the read after the write is left out, because an atomic write reads back.
- ManifestRuns.CrashAtomicity: for events that do not run ahead of the ledger's generation and updates merged under the stored scope; `EventKeepsChainExactly` and the lemmas of `ManifestLimits` say exactly what happens otherwise, and `ManifestsAlwaysChain` what holds regardless. `full_reconciled_at` may be lost when the id is unchanged, so the statement is about ids.
- ManifestRuns.NoLostUpdate: likewise.
- Manifest.ManifestStore.FinalizeLedger: of a turn the ledger keeps its id, its last event's time, its degradation, its changed paths and results and its baseline note; the notes of new turns are inputs.
- Turn contents: invocations, goals, evidence, stop blocks and projections; a turn is its id, its last event's time, two flags, its changed paths and its verification results. The index and the turn's table read the paths of one change event; they are two inputs here. Open peer invocations are an input of the gate, and the keys that maintenance re-verified an input of maintenance.
- LedgerReducer.LedgerState.CollectStale: stale turns close in key order, the order a reloaded ledger has; the original uses the order in memory, which differs only in which turn a full closed list forgets first.
- LedgerRuns.RunKeepsInv: events name their turn; without a turn id `RetiredRevivedExactly` says exactly what happens.
- AttributionFacts.RecordedKeepsIndex: stated for events that pass the filter, owner equal to event agent (core/ledger_v2.py:302-308); core/adapter_observation.py:353-362 passes the agent key as owner and the short name as agent, so acceptance is not derived from adapters. Events that do not pass change nothing.
- R2Gate.PassesExactly: parsing the shell text and resolving targets and containers to places are inputs; names hold no backslash, so a key is its components.
- R2Gate.HoldingContainerBlockedExactly: for indexes whose paths are relative and free of empty names, as the adapters record them.
- R2Answers.AllowsExactly: likewise, and for places whose names are non-empty and hold no slash.
- Migration: links, special files and unreadable entries appear as a layout that is invalid or a step that fails; receipts, reports, rollback advice and nested write scopes are not modelled; writers do not write the migration marker. The two readings of the legacy ledger's turns are inputs.
- OutboxRuns.AcceptedForever: for an event whose text splits into lines `DrainKeepsExactly` says what is lost; a journal line counts as kept even when a later tear makes the file unreadable.
- Outbox.Coordination.Drain: for a readable journal and no transient failure; `OutboxRuns` runs the same steps with both.
- Outbox: building events from payloads and the field checks behind "parses" and "valid" are inputs; transient failures of the lock end a drain.
- Scorecard: rendering, and agent keys that collide because an id contains ":", are not modelled; times are compared as numbers.
- ScorecardStore.Store.RecordLocked: a loaded ledger has at most 64 cached and 64 dropped sessions, as its schema demands; the journal position counts lines instead of bytes.
- Migration.ProjectRoot.CopyEntries: file modes and times are not copied.
- Migration.ProjectRoot.CopyVerifyPublish: the checks after publication are left out; they only read.
- Covers: the attribution status of a path and the match in a peer's log are inputs of each item; lists of pending revisions are sets; covers come from captures only; a different active turn is not modelled.
- ScopePolicy: reading the configuration is left out; the configuration file lies in a directory of the root.
- ShellSegments.CommandSegments: whether a segment opens a `case` construct and whether backticks nest ambiguously are regular expressions in the original and parameters here; here-documents are cut out beforehand and not modelled.
- ShellSegments.SegmentsLoseNothing: for commands without `case`, because inside one the code prefixes segments with text of its own; `SegmentTextExactly` says which.
- ScopeAnswers.HardExcludedExactly: for normalised paths; `SpellingsAgree` says what other spellings do not change.
- ManifestAnswers.CommittedIsListed: for the last path of an event, with a generation and an owner that pass the filter; `ItemTouchesOnly` and `NotListedIsOnRecord` say what happens to the others.
- LedgerTurnRuns.RunTells: runs start from a ledger without open turns, as a new project has.
- QuarantineRoundTrip.RecordRoundTrip: the digest is any function to hexadecimal text; the two values the encoder does not escape, the time stamp and the notice, are its own and hold no CR or LF.
- Quarantine: reserving, writing, re-reading and marking files; `Collect` assumes that unlinking succeeds; counts are the decimal texts that the encoder writes; a header that is not UTF-8, which no encoded record has, is decoded by dropping bytes instead of substituting them.
