# Verified model of an evidence-backed project memory

This project models the file-backed protocols and algorithms of a memory store that keeps evidence,
cases and promoted knowledge for software projects, and proves what they promise. Each module follows
one part of the program. Loops and objects that the program changes step by step are methods and
classes here, proved against specification functions; the results below are about those functions
and methods, for every input, every run or every interleaving.

- `SupportGraph`, `SupportGraphSearch`, `SupportGraphExpansion`, `GraphAnswers`: breadth-first search over a
  scoped and workspace-filtered graph. Answers are compared with walks of the snapshot itself.
- `InvocationArtifacts`, `InvocationWriter`, `UpdateEffects`, `MemorySurface`: the artifact a consultation
  writes, what each update does to it, and the operations that begin and run a consultation.
- `DeliveryReport`, `DeliveryFacts`: the report that merges delivered versions. What the writer can do is what
  the report accepts.
- `InvocationLock`, `ImportState`: updates under lock files as interleaved steps of processes that may crash.
- `InvocationProtocol`: the two together. Whatever a schedule of crashing writers commits, the report can merge.
- `RolloutSnapshots`, `RolloutImport`, `ImportOutcomes`, `SnapshotChains`: importing growing conversation threads
  as immutable snapshots, what becomes of each candidate, and the chains the snapshots form.
- `VisibleMessages`, `VisibleEvents`, `VisibleProjections`: the projection of a rollout to its visible messages.
- `RolloutReplay`, `ImportCounters`: which messages a rollout can show, when showing stored messages again goes
  back in time, and when the counters of an import add up.
- `EvidenceCorrections`: chains of corrections and their heads.
- `CaseCompletion`, `CompletionAnswers`: completing a draft case from evidence.
- `CaseSeeds`, `SeedEffects`: the seeds cases grow from.
- `LiveCandidates`, `PromotionPass`: revisioned promotion candidates and the capped pass that decides on them.
- `BoundedReader`, `ReaderAnswers`: line and byte arithmetic of excerpts, and the budget of a response.
- `Fusion`, `FusionAnswers`: grouping and ranking of retrieved candidates.
- `Parameters`, `ParameterAnswers`: superseded parameter observations.
- `Common`: options, results, a stable sort and what is picked from a list.

The modules named after effects, facts, events and answers state what the operations mean in terms of their
inputs and results alone, and prove the specification functions against that.

Conventions. A hash is modelled by the value it was computed from, so two hashes are equal only for
equal inputs. Times are integers (milliseconds) and files are maps from names to contents. Phrase lists,
judges and other code outside the model are arbitrary functions passed in; where text is trimmed and
lower-cased before such a predicate sees it, the model does the same. Locale ordering of ids is any total
order, fusion scores are reals.

Four results are about where the code stops being right. `RankBreaksAtAThousandReceipts` shows that the
report's text rank needs fewer than 1000 receipts, which the writer's cap guarantees; `PaddedCountsOrderExactlyBelow`
gives the exact bound. `RolloutReplay.PlannedIsLaterExactlyWhen` gives the exact condition on a stored snapshot under
which a rollout can be planned no later than it: its stored counts fall behind its stored messages, some rollout can
show those messages, and the last of them is not after the stored time. The plan then carries the time of that
message. `IdIsReusedExactlyWhen` adds that it takes the stored id exactly when the snapshot carries that same time; a
snapshot taken when its thread was archived may carry a later one. `StaleCountRecurs` is a snapshot whose id recurs.
`RecoveryBesideBoundariesCollides` shows that recovered boundaries keep unique ids only because recovery
runs when the first build kept no boundary. `CollidingInputs` is an input that would collide.
`ImportCounters.CountersAddUpExactlyWhen` shows that import counters add up to the candidates exactly when no candidate
gets as far as a seed link that fails and the ledger save succeeds. `LinkFaultBreaksTheCounters` exhibits the failure,
and `CountersAlwaysAddUpExactlyWhen` gives the settings under which every selection adds up.

## Model

| member | source | states |
|---|---|---|
| `SupportGraph.IndexedLinkIsSnapshotLink` | src/support-graph/query.js:231-246 | following the indexes and following the snapshot itself allow exactly the same hops, given unique ids |
| `SupportGraph.AdmissionExactly` | src/support-graph/query.js:291-309 | an absent, empty or global scope asks for everything and global things belong to every scope; an absent or empty workspace asks for every node |
| `SupportGraph.AdjacencyListsTouchingEdges` | src/support-graph/query.js:231-246 | a node's adjacency list holds exactly the edges that start or end there |
| `SupportGraph.WalkStaysInReach` | src/support-graph/query.js:248-282 | an admissible walk of k edges ends within k hops of its start |
| `SupportGraphSearch.BuildIndexes` | src/support-graph/query.js:231-246 | the three index maps are those of the snapshot, and every listed edge can be looked up |
| `SupportGraphSearch.ResolutionExactlyWhen` | src/support-graph/query.js:6-23 | over the nodes of the snapshot alone: a node id names itself; any other name is answered with the one node bearing that record id exactly when one does, is ambiguous exactly when two different nodes do, and unknown exactly when none does |
| `SupportGraphSearch.ReachIsDiscovered` | src/support-graph/query.js:101-137 | breadth-first discovery holds every node within the depth already closed |
| `SupportGraphSearch.DiscoverNode` | src/support-graph/query.js:107-136 | queueing a new neighbour one level deeper keeps the predecessor tree, the frontier and the closed nodes |
| `SupportGraphSearch.MaterializePath` | src/support-graph/query.js:248-282 | following predecessors back terminates and gives an admissible walk as long as the recorded depth |
| `SupportGraphSearch.SearchPath` | src/support-graph/query.js:96-139 | no path exactly when every admissible walk is longer than the depth limit; otherwise a shortest admissible walk |
| `SupportGraphSearch.FindShortestPath` | src/support-graph/query.js:78-139 | unknown and ambiguous names are errors, the first end before the second; between the nodes that are named, the empty walk for equal ends and otherwise the shortest-walk answer |
| `SupportGraphSearch.PathAnswerIsAboutTheSnapshot` | src/support-graph/query.js:78-139 | null exactly when the snapshot has no admissible path of at most maxDepth edges; otherwise a minimum-length one, in terms of the snapshot alone |
| `SupportGraphExpansion.CountEntry` | src/support-graph/query.js:163-191 | following one adjacency entry counts it once for the node it leads to and for no other |
| `SupportGraphExpansion.Expand` | src/support-graph/query.js:151-192 | the visited depths are the exact admissible distances within the limit, and each count is the number of admissible entries from nodes followed |
| `SupportGraphExpansion.FollowedIsReach` | src/support-graph/query.js:157-163 | the nodes whose entries are followed are exactly those at distance below the limit |
| `SupportGraphExpansion.ExhaustedSearchIsExact` | src/support-graph/query.js:157-192 | an emptied queue means distances are exact and minimal and every discovered node was expanded |
| `SupportGraphExpansion.CollectRelated` | src/support-graph/query.js:194-224 | one faithful entry for every node within the depth that passes the filter, with a valid example walk of that length |
| `SupportGraphExpansion.ExpandRelated` | src/support-graph/query.js:141-229 | an unknown or ambiguous name is an error; for the node that is named, the answer is the ranked prefix of exactly the related nodes |
| `GraphAnswers.ExpansionIsAboutTheSnapshot` | src/support-graph/query.js:141-229 | in terms of the snapshot alone: the nodes within reach, each once, with their exact distance, a shortest walk, its hops and the score, best first; only canonical ones when only those are asked for |
| `GraphAnswers.PathConfidenceIsBest` | src/support-graph/query.js:194-224 | the confidence of a walk is the best rating among its hops, and zero without hops |
| `GraphAnswers.PathsTellTheirHops` | src/support-graph/query.js:248-282 | every hop of an answered path names its edge with the kind and confidence the snapshot gives it |
| `EvidenceCorrections.ResolveLatest` | src/evidence/corrections.js:37-52 | an unknown id resolves to nothing, a known one to the end of its chain, and a failure names a real cycle |
| `EvidenceCorrections.LinkChildren` | src/evidence/corrections.js:12-28 | linking succeeds with a map that is exactly the correction relation, and every failure points at a real dangling, self or branching correction |
| `EvidenceCorrections.BuildIndex` | src/evidence/corrections.js:1-35 | succeeds exactly when the corrections are disjoint finite chains, and then every id has a head |
| `EvidenceCorrections.HeadIsUnique` | src/evidence/corrections.js:37-52 | an id has at most one head |
| `EvidenceCorrections.HeadsResolveToThemselves` | src/evidence/corrections.js:37-52 | resolution is idempotent, and heads are the records nothing corrects |
| `EvidenceCorrections.ChainSharesItsHead` | src/evidence/corrections.js:37-52 | resolution is constant along a chain |
| `EvidenceCorrections.GetCurrentRecords` | src/evidence/corrections.js:54-57 | current records exist exactly for disjoint finite chains, and are those without a correction, as often and in the order they are listed |
| `EvidenceCorrections.CurrentRecordsAreTheHeads` | src/evidence/corrections.js:54-57 | a record is current exactly when it heads its chain, and every record leads to exactly one current record |
| `DeliveryReport.ConflictsAreSymmetric` | src/runtime/project-memory-telemetry-report.js:36-64 | the reasons found for two deliveries do not depend on which comes first |
| `DeliveryFacts.ConflictsExactly` | src/runtime/project-memory-telemetry-report.js:36-76 | each reason is found exactly when it applies to the two deliveries: origin, attempt identity, ended attempts, decisions, requests, results, usage, receipts and progression |
| `DeliveryFacts.ConflictFreeDeliveriesAgree` | src/runtime/project-memory-telemetry-report.js:36-76 | deliveries without a conflict come from one origin and agree on what both record, and one of them has everything the other has |
| `DeliveryReport.PaddedCountsOrder` | src/runtime/project-memory-telemetry-report.js:78-82 | below a thousand, padded counts compare as the numbers do |
| `DeliveryReport.PaddedCountsOrderExactlyBelow` | src/runtime/project-memory-telemetry-report.js:78-82 | padded counts up to a bound compare as the numbers do if and only if the bound is below a thousand |
| `DeliveryReport.RankIsMonotone` | src/runtime/project-memory-telemetry-report.js:66-82 | a progression never ranks lower, and equal ranks mean equal milestones |
| `DeliveryReport.RankBreaksAtAThousandReceipts` | src/runtime/project-memory-telemetry-report.js:78-82 | with 1000 receipts the rank falls below that of 999, so the bound on receipts is needed |
| `DeliveryReport.SurvivorIsAProgressionOfAll` | src/runtime/project-memory-telemetry-report.js:12-34 | the survivor of an accepted group is a progression of every delivery in it |
| `DeliveryReport.AcceptanceIgnoresOrder` | src/runtime/project-memory-telemetry-report.js:12-34 | a group is accepted or not whatever the order of delivery |
| `DeliveryReport.SurvivorsAgreeInProgress` | src/runtime/project-memory-telemetry-report.js:12-34 | survivors chosen under different orders are progressions of each other |
| `DeliveryReport.GroupsPartitionTheInput` | src/runtime/project-memory-telemetry-report.js:12-18 | the groups by key add up to the input |
| `DeliveryReport.EveryDeliveryIsAccountedFor` | src/runtime/project-memory-telemetry-report.js:160 | the reported duplicates are exactly the surplus deliveries of accepted groups, so accepted, duplicate and conflicted add up |
| `DeliveryReport.CollectReasons` | src/runtime/project-memory-telemetry-report.js:21-25 | no reasons exactly when the group is pairwise conflict-free |
| `DeliveryReport.ChooseSurvivor` | src/runtime/project-memory-telemetry-report.js:28 | reducing by rank finds the first delivery of the highest rank |
| `DeliveryReport.GroupByKey` | src/runtime/project-memory-telemetry-report.js:12-18 | each key holds exactly its deliveries, in order |
| `DeliveryReport.Deduplicate` | src/runtime/project-memory-telemetry-report.js:12-34 | one survivor per conflict-free group, one conflict entry per other group, sorted without loss |
| `InvocationWriter.CommitAdvances` | src/runtime/project-memory.js:137-317 | one committed update never takes back a milestone, a receipt or an identity |
| `InvocationWriter.EveryRunProgresses` | src/runtime/project-memory.js:137-440 | in every run an earlier version is progression-below every later one |
| `InvocationWriter.RunConflictsExactly` | src/runtime/project-memory.js:137-440 | the conflicts between two versions of a run are exactly a blocked decision upgraded to consult, a usage recorded again, or a request that disagrees |
| `InvocationWriter.ConsistentRunNeverConflicts` | src/runtime/project-memory.js:137-440 | runs without those three never conflict, whichever version arrives first |
| `InvocationWriter.RunKeepsReceipts` | src/runtime/project-memory.js:352-388 | receipt ids stay distinct and within the cap |
| `InvocationWriter.WriterRunsAreAccepted` | src/runtime/project-memory.js:137-440 | whatever versions of a consistent run are delivered, the report accepts them and its survivor is a progression of each |
| `UpdateEffects.UpdatesHaveTheirEffect` | src/runtime/project-memory.js:137-440 | every update changes exactly what it is for, or is refused exactly for its reason, said of the artifact before and after |
| `UpdateEffects.DecideHasEffect` | src/runtime/project-memory.js:195-215 | a second, different decision is refused, save consulting after a mandatory block; a skip where retrieval is mandatory is stored as a block with the mandatory reason; the gate tells what was done |
| `UpdateEffects.FinishHasEffect` | src/runtime/project-memory.js:286-317 | the running attempt ends as the retrieval went; without an outcome what was retrieved stays, with one the returned ids are its own and request, basis and gate are its own where it has them |
| `UpdateEffects.ReadHasEffect` | src/runtime/project-memory.js:352-388 | a receipt is kept once, at the end, under different ids and the cap |
| `UpdateEffects.UsageHasEffect` | src/runtime/project-memory.js:404-440 | linked ids must be used and returned; the used ids that were returned are kept, in order, and memory counts as used exactly when there is one |
| `MemorySurface.ProjectMemorySurface.UpdateInvocation` | src/runtime/project-memory.js:881-922 | an unknown id is an error; a refused or idle update leaves every artifact as it was; a successful one replaces exactly one artifact by what the update makes of it |
| `MemorySurface.ProjectMemorySurface.BeginTaskOpportunity` | src/runtime/project-memory.js:137-189 | an existing anchor is observed only in a matching context, a new one is created with its first observation |
| `MemorySurface.ProjectMemorySurface.ExecuteConsultation` | src/runtime/project-memory.js:238-317 | a supplied opportunity must exist and match the context, a begun one is created or observed; then the decision to consult, and one ended attempt: succeeded when the retrieval returned, cancelled or failed when it did not, with its end time and details, and what the retrieval brought. It goes on the anchor when that had no attempt, and otherwise on a new artifact that carries the opportunity and nothing else of the first consultation; every other artifact stays |
| `MemorySurface.ProjectMemorySurface.RunRetrieval` | src/runtime/project-memory.js:259-317 | the attempt is attached to the anchor or to a new invocation and ended, with no failing branch left |
| `MemorySurface.ProjectMemorySurface.FindAnchor` | src/runtime/project-memory.js:242-252 | a supplied opportunity is only inspected; an unknown or mismatched one is an error that changes nothing |
| `InvocationLock.MutualExclusion` | src/runtime/project-memory.js:881-922 | in every schedule at most one process is between opening and unlinking the lock |
| `InvocationLock.ReleaseRemovesOnlyItsOwnLock` | src/runtime/project-memory.js:905-922 | the lock a release unlinks is its own |
| `InvocationLock.CommitsFormAChain` | src/runtime/project-memory.js:881-994 | one creation, then each commit is one update applied to the commit just before it; the file holds the last one |
| `InvocationLock.RenameReplacesWhatWasRead` | src/runtime/project-memory.js:964-994 | between reading and renaming, the artifact is still what was read, so the final check always passes under the lock |
| `InvocationLock.OnlyLinkAndRenameCommit` | src/runtime/project-memory.js:624-646 | only the publishing link and the replacing rename change the artifact; failed updates commit nothing |
| `InvocationLock.CommitsOnlyGrow` | src/runtime/project-memory.js:881-994 | no schedule loses a commit |
| `InvocationLock.CrashedHolderBlocksLaterUpdates` | src/runtime/project-memory.js:881-922 | the lock of a crashed holder is never removed, so later updates change nothing |
| `InvocationLock.CrashOrphansTheLock` | src/runtime/project-memory.js:881-922 | creating, then crashing with the lock open, leaves a lock that no process holds |
| `InvocationLock.UncontendedUpdateCommits` | src/runtime/project-memory.js:881-994 | an update that meets no other commits exactly what its callback makes of the artifact, or nothing when the callback keeps or rejects it, and frees the lock |
| `InvocationLock.LockIsHeldUntilACrash` | src/runtime/project-memory.js:881-922 | in every schedule without a crash a lock exists exactly while some process holds it |
| `InvocationProtocol.CallbacksReplaceWhatChanges` | src/runtime/project-memory.js:881-994 | the callback replaces a file by the committed artifact, and leaves alone what cannot be read, is refused or does not change |
| `InvocationProtocol.ScheduleIsAWriterRun` | src/runtime/project-memory.js:881-994 | when the callbacks are the writer's updates, the files any schedule commits are the versions of one writer run |
| `InvocationProtocol.ConsistentSchedulesAreAccepted` | src/runtime/project-memory-telemetry-report.js:12-34 | however writers interleave, crash and retry, delivered versions of a consistent schedule form one conflict-free group whose survivor is a progression of each |
| `ImportState.CodexImportState.Load` | src/importers/codex-import-state.js:21-36 | a load takes the ledger's sources and remembers its bytes, or fails and keeps the state |
| `ImportState.CodexImportState.SetSourceFingerprint` | src/importers/codex-import-state.js:46-55 | one source is set, or a missing fingerprint is refused |
| `ImportState.CodexImportState.PruneSources` | src/importers/codex-import-state.js:57-64 | exactly the listed sources remain |
| `ImportState.CodexImportState.Save` | src/importers/codex-import-state.js:66-95 | writes only when the lock is free and the ledger is what was last loaded or saved |
| `ImportState.SavedLedgerLoadsBack` | src/importers/codex-import-state.js:21-36 | loading what was saved gives the same sources |
| `ImportState.LoadsExactlyWhen` | src/importers/codex-import-state.js:21-118 | a ledger loads when there is none, or when it has a known version, absolute paths and fingerprints; otherwise the error tells which |
| `ImportState.SavesNeverOverwriteUnseenContents` | src/importers/codex-import-state.js:66-95 | in every interleaving each save replaces exactly what its instance had last seen, and the ledger is the last save |
| `ImportState.UncontendedSaveGoesThrough` | src/importers/codex-import-state.js:66-95 | an instance that reloads and meets no other writes its bytes and frees the lock |
| `ImportState.StaleSaveChangesNothing` | src/importers/codex-import-state.js:66-95 | an instance whose ledger changed since it loaded changes nothing and frees the lock |
| `ImportState.CrashedHolderBlocksLaterSaves` | src/importers/codex-import-state.js:66-95 | the lock of a crashed instance stays, and nothing is saved any more |
| `ImportState.CrashOrphansTheLock` | src/importers/codex-import-state.js:66-95 | an instance that crashes while it holds the lock leaves it behind |
| `ImportState.LockIsHeldUntilACrash` | src/importers/codex-import-state.js:66-95 | without a crash the lock is taken exactly while an instance holds it |
| `CaseSeeds.RunsPreserveSeeds` | src/cases/case-seed-store.js:23-198 | over any run evidence references never change once set, chat references only grow, a compiled packet never changes and a status follows the links |
| `CaseSeeds.StepPreserves` | src/cases/case-seed-store.js:23-198 | one operation keeps a seed in order and takes back nothing it has recorded |
| `CaseSeeds.RunsAccountForPackets` | src/cases/case-seed-store.js:23-102 | revision minus one counts accepted packet changes, and the current and previous hashes are exactly the accepted ones |
| `SeedEffects.BuildsCandidatesOnly` | src/cases/case-seed-store.js:238-288 | a seed is built exactly for a closed-out candidate with project and session, and every other run is refused for its reason |
| `SeedEffects.StepsHaveTheirEffect` | src/cases/case-seed-store.js:23-198 | every operation changes exactly what it is for in the seed of an id |
| `SeedEffects.FatesExactly` | src/cases/case-seed-store.js:104-182 | offered evidence is attached, already there, or in conflict with other evidence, exactly as the seed says |
| `SeedEffects.RunsStandForTheirPackets` | src/cases/case-seed-store.js:23-102 | read off the operations alone: a seed holds the last packet accepted for its id, its revision counts them, its hashes are theirs, and it is compiled exactly when it was compiled after it was created |
| `CaseSeeds.CaseSeedStore.UpsertRun` | src/cases/case-seed-store.js:23-102 | stores the built or merged seed and touches no other |
| `CaseSeeds.CaseSeedStore.AttachSessionToSeeds` | src/cases/case-seed-store.js:104-145 | every seed of the session is attached, already attached or in conflict; each count is the size of its set of seeds, and other seeds stay |
| `CaseSeeds.CaseSeedStore.AttachChatToSeeds` | src/cases/case-seed-store.js:147-182 | every seed of the thread gains the reference once; each count is the size of its set of seeds, and other seeds stay |
| `CaseSeeds.CaseSeedStore.CompileSeed` | src/cases/case-seed-store.js:184-198 | marks exactly the named seed compiled, or reports it missing |
| `CaseCompletion.SupportLists.PushSupportItem` | src/cases/case-review.js:897-916 | a usable, unseen text is appended with the next id of its lane; anything else changes nothing |
| `CaseCompletion.SupportLists.PushExistingSupportItem` | src/cases/case-review.js:661-675 | a recovered item keeps its id and is appended unless its text was seen |
| `CaseCompletion.SupportLists.PushCase` | src/cases/case-review.js:405-437 | the problem statement, failure lines and constraints are offered in this order |
| `CaseCompletion.SupportLists.PushEvidence` | src/cases/case-review.js:445-489 | the objective, steps, findings and blockers of one payload are offered in this order |
| `CaseCompletion.SupportLists.PushRecoverable` | src/cases/case-review.js:540-565 | blockers, then the findings that look recoverable |
| `CaseCompletion.PushingNumbers` | src/cases/case-review.js:392-478 | ids follow positions, texts are never repeated in a lane, and items and usable candidates account for each other |
| `CompletionAnswers.EverythingIsOffered` | src/cases/case-review.js:392-478 | a build is offered the problem, failure lines and constraints of the case, then objective, steps, findings and blockers of each evidence, in this order, with lane, reference and place |
| `CompletionAnswers.PushingKeepsFirsts` | src/cases/case-review.js:897-916 | each lane keeps the first usable offer of each text, trimmed and numbered in the order of the offers |
| `CompletionAnswers.AllRecoverableIsOffered` | src/cases/case-review.js:532-567 | recovery is offered the blockers and the recoverable findings of each evidence, in this order |
| `CaseCompletion.BuildCaseCompletionPacket` | src/cases/case-review.js:392-521 | the packet is the one its candidates give in source order, or the first applicable error |
| `CaseCompletion.BuildCaseBoundaryRecoveryPacket` | src/cases/case-review.js:523-590 | the recovered boundaries are the substantive blockers and recoverable findings, or the no-boundaries error |
| `CaseCompletion.FirstBuildSucceedsExactlyWhen` | src/cases/case-review.js:484-491 | the first build succeeds, or fails for lack of boundaries, exactly according to what the inputs offer |
| `CaseCompletion.RecoverySucceedsExactlyWhen` | src/cases/case-review.js:569-574 | recovery succeeds exactly when some candidate is neither resolved nor process-only |
| `CaseCompletion.RecoveryNeverFailsTheSecondBuild` | src/cases/case-review.js:132-151 | after a failed first build and a recovery, the second build succeeds with exactly the recovered boundaries |
| `CaseCompletion.RecoveredPacketIsSupported` | src/cases/case-review.js:132-154 | although two counters numbered the items, all support ids are different, and the suggestion passes validation |
| `CaseCompletion.FirstPacketIsSupported` | src/cases/case-review.js:116-154 | the same for a packet built without recovery |
| `CaseCompletion.RecoveryBesideBoundariesCollides` | src/cases/case-review.js:479-483 | had recovery run beside a bounded boundary with another text, two boundaries would share an id |
| `CaseCompletion.CollidingInputs` | src/cases/case-review.js:392-590 | such inputs exist: a draft case with one constraint, and evidence with one recoverable finding |
| `CaseCompletion.ValidateCompletionSuggestion` | src/cases/case-review.js:630-659 | accepts exactly the suggestions whose lines cite known items and whose warnings cite a boundary |
| `CaseCompletion.CompleteDraft` | src/cases/case-review.js:90-212 | succeeds exactly on a draft with evidence that offers a fact and a bounded or recoverable boundary at the expected version, and then returns the validated packet and the amended record; each error is returned exactly in its case |
| `CompletionAnswers.CompletionsTell` | src/cases/case-review.js:90-190 | a completion holds the first offers as facts, the bounded boundaries of the build or else the substantive ones of the recovery, the suggestion made of them, and the amended case |
| `CompletionAnswers.ApplicabilityIsSuggested` | src/cases/case-review.js:592-628 | what is suggested, from the leading fact and the first two substantive boundaries, and what each line cites |
| `CompletionAnswers.AmendedAmends` | src/cases/case-review.js:156-182 | the amended case is one version on, carries the suggested texts, and takes over the recovered boundary when it named no failure |
| `CompletionAnswers.SupportedExactlyWhen` | src/cases/case-review.js:630-659 | validation accepts exactly the packets whose lines cite its items and whose warnings cite a boundary |
| `LiveCandidates.RediscoveryNeverConflicts` | src/runtime/live-promotion-candidates.js:1145-1196 | rediscovery creates a candidate, refreshes the latest, or adds a revision with an unused id; the revision-id conflict is unreachable and an unchanged candidate keeps status, entry and history |
| `LiveCandidates.NextRevisionIdIsUnused` | src/runtime/live-promotion-candidates.js:1230-1237 | the id built for the next revision of a series has never been used |
| `LiveCandidates.LatestHasTopRevision` | src/runtime/live-promotion-candidates.js:116-125 | the latest candidate has a strictly higher revision than all others of its series |
| `LiveCandidates.RunKeepsInv` | src/runtime/live-promotion-candidates.js:29-92 | in every run revisions of a series differ and the supersedes links form one chain through them, down to the base |
| `LiveCandidates.RunProgresses` | src/runtime/live-promotion-candidates.js:29-92 | over any run candidates only move forward, and one added later has a higher revision than everything before it |
| `LiveCandidates.StepProgresses` | src/runtime/live-promotion-candidates.js:29-92 | one step moves candidates only forward and adds only on top of a series |
| `LiveCandidates.LivePromotionCandidateStore.ListCandidates` | src/runtime/live-promotion-candidates.js:103-114 | the list holds every stored candidate once |
| `LiveCandidates.LivePromotionCandidateStore.GetLatestCandidateForSeries` | src/runtime/live-promotion-candidates.js:116-125 | filtering and sorting finds the unique most recent candidate of the series |
| `LiveCandidates.LivePromotionCandidateStore.UpsertCandidate` | src/runtime/live-promotion-candidates.js:29-52 | writes exactly the merged candidate, and nothing on a dry run or a conflict |
| `LiveCandidates.LivePromotionCandidateStore.RecordCandidateDecision` | src/runtime/live-promotion-candidates.js:952-967 | overwrites an existing candidate with its decision appended, and only that one |
| `PromotionPass.SelectLatestCandidatesBySeries` | src/runtime/live-promotion-candidates.js:1239-1255 | one listed candidate per series, none of its series more recent |
| `PromotionPass.FilterEligible` | src/runtime/live-promotion-candidates.js:253-254 | the selection holds exactly the latest candidates still open for a decision |
| `PromotionPass.ActivationsStayUnderTheCap` | src/runtime/live-promotion-candidates.js:263-276 | no pass promotes more than the cap |
| `PromotionPass.ExitExactlyWhen` | src/runtime/live-promotion-candidates.js:263-481 | a candidate leaves promoted exactly when it is under the cap, not active already, supported, judged to activate or narrow, ready, no duplicate and promoted; and by every other exit exactly under its own conditions |
| `PromotionPass.PassTells` | src/runtime/live-promotion-candidates.js:243-485 | after a pass each selected candidate is listed and stored exactly as the checks it met say, with its last decision in its history; no other candidate changes; and the store holds exactly as many newly activated candidates as the summary counts activated and already active |
| `PromotionPass.BucketsPartition` | src/runtime/live-promotion-candidates.js:243-485 | the five outcome counts add up to the number of candidates |
| `PromotionPass.ListedExactlyOnExit` | src/runtime/live-promotion-candidates.js:243-485 | an id is listed under an outcome exactly when its candidate left that way |
| `PromotionPass.ListedUnderOneBucket` | src/runtime/live-promotion-candidates.js:243-485 | no candidate is listed under two outcomes |
| `PromotionPass.OverlaysAreDecided` | src/runtime/live-promotion-candidates.js:363-436 | narrowed candidates are also activated or retired, duplicates are retired |
| `PromotionPass.PassActivatesOnlyLatest` | src/runtime/live-promotion-candidates.js:243-485 | only the latest revision of a series is newly activated |
| `PromotionPass.PassKeepsInv` | src/runtime/live-promotion-candidates.js:243-485 | a pass leaves the revision chains intact and touches only selected series |
| `PromotionPass.ProcessCandidate` | src/runtime/live-promotion-candidates.js:263-481 | one candidate goes through the checks in order; the summary gains it exactly under the ways it left, and it is stored with the status of its exit and its decisions |
| `PromotionPass.ProcessSelected` | src/runtime/live-promotion-candidates.js:263-485 | the loop leaves the summary and the store that every candidate's exit gives, and nothing in the store on a dry run |
| `PromotionPass.ProcessCandidateKind` | src/runtime/live-promotion-candidates.js:243-485 | the pass selects the latest undecided candidate of each series and lists and stores each as the checks it met say; its counts sum to the total and stay under the cap; without a judge or on a dry run nothing is written |
| `VisibleMessages.CollectMessages` | src/importers/codex-visible-messages.js:42-153 | the loop gathers what reading the events one by one gives |
| `VisibleProjections.MessagesAreTaken` | src/importers/codex-visible-messages.js:53-142 | a message of either family is gathered exactly when it is of this thread, in a visible phase and readable, with its own line, turn, id, time, role, phase and text; a completed one is placed by its identity |
| `VisibleProjections.CompletedIsPlaced` | src/importers/codex-visible-messages.js:129-142 | a completed identity seen before is a duplicate or a conflict with the first, and any other message is gathered |
| `VisibleProjections.EventsPassBy` | src/importers/codex-visible-messages.js:42-153 | every other event starts a turn, is kept as a response, is reported or is passed over |
| `VisibleMessages.MessageReader.Read` | src/importers/codex-visible-messages.js:53-153 | reading one event changes the objects gathered so far as one step of the fold does |
| `VisibleMessages.MessageReader.PlaceCompleted` | src/importers/codex-visible-messages.js:129-142 | a repeated completed identity is a duplicate or a conflict and prints nothing |
| `VisibleMessages.PlaceMessage` | src/importers/codex-visible-messages.js:158-176 | a shared identity merges the later projection into the earlier object in place; otherwise the message is printed by itself |
| `VisibleProjections.MessagesArePlaced` | src/importers/codex-visible-messages.js:157-177 | the first message of the other family with the same role, turn and id is merged or in conflict; any other message is printed beside the rest, reported when it looks like one of them |
| `VisibleMessages.Message.Assign` | src/importers/codex-visible-messages.js:167 | every field of the legacy projection is copied, the completed-only fields stay |
| `VisibleMessages.Message.SetPhase` | src/importers/codex-visible-messages.js:197-201 | a missing phase of a completed assistant message is taken from an equal response |
| `VisibleMessages.FindCounterpart` | src/importers/codex-visible-messages.js:159-161 | the first printed message of the other family with the same role, turn and id |
| `VisibleMessages.DeduplicatePrinted` | src/importers/codex-visible-messages.js:157-177 | the printed objects hold what merging the projections one by one gives |
| `VisibleMessages.MatchResponses` | src/importers/codex-visible-messages.js:179-225 | each response is matched to the first free printed message it projects, whose missing phase it may add, or reported |
| `VisibleProjections.ResponsesAreSettled` | src/importers/codex-visible-messages.js:179-225 | a response is context, the projection of the first free message it fits, whose missing phase it may give, analysis, or reported for the first reason that applies |
| `VisibleMessages.FindMatch` | src/importers/codex-visible-messages.js:190-193 | the first unmatched printed message the response projects |
| `VisibleMessages.ExplainUnmatched` | src/importers/codex-visible-messages.js:205-224 | the first reason that applies to a response without a printed message |
| `VisibleMessages.PrintingConserves` | src/importers/codex-visible-messages.js:157-177 | every primary message is printed, merged or reported as a conflict |
| `VisibleMessages.MatchingIsSound` | src/importers/codex-visible-messages.js:179-225 | every response has one justified fate, no printed message is matched twice, and matching changes nothing but missing phases |
| `VisibleMessages.ExtractVisibleMessages` | src/importers/codex-visible-messages.js:42-266 | the loops over message objects compute the extraction that the three passes give |
| `VisibleMessages.VisibleTextWasPrinted` | src/importers/codex-visible-messages.js:155-240 | for every rollout visible messages carry only printed-event text, in strictly increasing line order |
| `VisibleMessages.CleanExtractionAccountsForResponses` | src/importers/codex-visible-messages.js:179-225 | with no diagnostics every response is context, skipped analysis, or matched to a printed message of its own |
| `VisibleMessages.CleanExtractionIsComplete` | src/importers/codex-visible-messages.js:155-240 | with no diagnostics every gathered message is shown or counted as a duplicate, and every completed assistant message has a phase |
| `VisibleEvents.CleanExtractionShowsEveryEvent` | src/importers/codex-visible-messages.js:42-266 | with no diagnostics every event that prints a message of this thread in a visible phase is shown with its role, text and phase: at its own line and time, or a completed one at those of a legacy or earlier completed event with the same turn and id |
| `VisibleEvents.EventsAreRejectedForTheirReasons` | src/importers/codex-visible-messages.js:53-142 | an event is reported under a code exactly when that reason applies to it, up to the first twenty diagnostics, and an event that is rejected always leaves a diagnostic |
| `VisibleEvents.FormatFollowsEvents` | src/importers/codex-visible-messages.js:243-247 | the format names the families of messages the events hold |
| `VisibleMessages.CoverageFollowsMessages` | src/importers/codex-visible-messages.js:240-266 | each coverage exactly: what is visible, with and without diagnostics |
| `RolloutSnapshots.PlannedIsLater` | src/importers/codex-rollouts.js:978-1028 | on top of a snapshot whose counts suffice, whatever is planned is strictly later |
| `RolloutReplay.PlannedIsLaterExactlyWhen` | src/importers/codex-rollouts.js:978-1028 | over all rollouts the import takes, everything planned on top of a stored snapshot is strictly later if and only if its counts suffice, or its messages cannot be shown, or the last of them is after the stored time |
| `RolloutReplay.IdIsReusedExactlyWhen` | src/importers/codex-rollouts.js:978-1028 | some rollout the import takes is planned under the stored id if and only if the counts do not suffice, the messages can be shown, and the snapshot carries the time of the last of them |
| `RolloutReplay.NotLaterIsShownAgain` | src/importers/codex-rollouts.js:960-1050 | only a rollout that shows exactly the stored messages is planned no later than the snapshot, and then at the time of the last message |
| `RolloutReplay.ShownAgainIsPlannedAgain` | src/importers/codex-rollouts.js:960-1028 | for every header and events: a live rollout that shows the stored messages of a snapshot with insufficient counts, no later than it, is planned again at its own time |
| `RolloutReplay.StaleCountRecurs` | src/importers/codex-rollouts.js:949-976 | a failing input: a payload that stores one final answer and counts none, taken at the time of that answer |
| `RolloutReplay.ShownExactlyWhen` | src/importers/codex-visible-messages.js:42-266 | some supported rollout shows given messages if and only if they are numbered from one, have readable times and visible roles and phases |
| `RolloutReplay.PrintingShowsMessages` | src/importers/codex-visible-messages.js:42-266 | printed one event each, such messages are read back exactly as they were, without diagnostics |
| `RolloutReplay.SupportedIsShowable` | src/importers/codex-visible-messages.js:42-266 | whatever the events, a supported rollout shows only such messages |
| `RolloutReplay.ImportableTime` | src/importers/codex-rollouts.js:539-593 | a supported rollout carries the time of its last visible message |
| `RolloutSnapshots.DerivedIsConsistentExactlyWhen` | src/importers/codex-rollouts.js:960-976 | derived metadata is consistent exactly when stored counts, if present, are those of the messages |
| `RolloutSnapshots.LoadLatestSnapshots` | src/importers/codex-rollouts.js:924-947 | a thread has a latest snapshot exactly when it has records, and it is the first of those no other is later than, with its metadata |
| `ImportOutcomes.ParsedCarries` | src/importers/codex-rollouts.js:539-593 | a parsed rollout carries its header, the visible messages in order, the time of the last message or of the session, and a coverage that is never supported for an inherited thread |
| `RolloutSnapshots.ParsedIsExtractable` | src/importers/codex-rollouts.js:539-593 | whatever its events, a parsed rollout has supported coverage only with messages and none without, and its final answers are those extracted |
| `RolloutImport.PlanIsNew` | src/importers/codex-rollouts.js:303-307 | at any point of a run over a catalog of well-named snapshots with sufficient counts, what is planned next is new to the catalog and later than the thread's latest |
| `RolloutImport.PlannedAreImportable` | src/importers/codex-rollouts.js:213-307 | a run plans a parsed rollout exactly when it lies in the roots, is supported and reaches a plan on top of the latest snapshot |
| `RolloutImport.DuplicatesOnlyAfterTrouble` | src/importers/codex-rollouts.js:308-342 | on any catalog the duplicate-id branch is reachable only after a failed or conflicting import of the thread in the same run |
| `RolloutImport.RunKeepsInv` | src/importers/codex-rollouts.js:159-421 | every run, on any catalog, in either mode and under any faults, keeps seen ids overtaken by the latest snapshots and written records new, distinct and in time order until trouble |
| `RolloutImport.RunKeepsChains` | src/importers/codex-rollouts.js:159-421 | from latest snapshots with sufficient counts, the latest stay records of their threads, parents stay older records, and the catalog stays covered |
| `RolloutImport.StoredSnapshotsAreDistinct` | src/importers/codex-rollouts.js:159-421 | on any catalog, stored ids are distinct and new, and a thread's stored times increase until it meets trouble |
| `SnapshotChains.StoredSnapshotsFormChains` | src/importers/codex-rollouts.js:159-421 | parents are older records of the thread; until the thread meets trouble each stored snapshot has as its parent the latest record the thread had before it, in the catalog or earlier in the run, and none exactly when it had none |
| `SnapshotChains.RunTellsParents` | src/importers/codex-rollouts.js:453-459 | in every run that writes, the latest snapshot of a thread without trouble is its latest record, and that is the parent of the next one |
| `ImportOutcomes.CheckpointExactlyWhenDue` | src/importers/codex-rollouts.js:978-1028 | a checkpoint is reached exactly when a reason is due: a first snapshot, more final answers, a new archive, a hundred more messages or seven days, in this order |
| `ImportOutcomes.PlansWhatIsDue` | src/importers/codex-rollouts.js:594-690 | the planned record carries thread, source, time, payload and parent of the snapshot that is due |
| `ImportOutcomes.CandidatesHaveTheirOutcome` | src/importers/codex-rollouts.js:159-421 | at any point of any run, what a candidate leaves: each outcome exactly under its conditions on the rollout, the catalog, the payloads and the faults, with what is written, linked and remembered |
| `ImportOutcomes.StoredSnapshotsShowTheirSources` | src/importers/codex-rollouts.js:159-421 | in every run each stored record describes a rollout of the sources, and its payload is stored under its id |
| `RolloutImport.EveryCandidateIsAccounted` | src/importers/codex-rollouts.js:159-421 | every candidate leaves one entry, in order; the loop counts one outcome for each and one more for each failed seed link |
| `RolloutImport.CountersOfARun` | src/importers/codex-rollouts.js:159-436 | the counters of a run are the candidates, plus the failed seed links, plus one for a failed ledger save |
| `ImportCounters.LinkFailsExactlyWhen` | src/importers/codex-rollouts.js:380-403 | a candidate leaves a failed link exactly when the link fails on a run that links, and the rollout gets as far: planned under an id not seen, known or new and not on disk |
| `ImportCounters.CountersAddUpExactlyWhen` | src/importers/codex-rollouts.js:159-436 | the counters of a run add up to its candidates if and only if no candidate reaches a failing link in the state the ones before it leave, and the save succeeds |
| `ImportCounters.LinkFaultBreaksTheCounters` | src/importers/codex-rollouts.js:380-403 | a failing input at every index whose link fails: unreadable sources, then a new rollout of one message |
| `ImportCounters.CountersAlwaysAddUpExactlyWhen` | src/importers/codex-rollouts.js:159-436 | with a successful save the counters add up for every selection if and only if the run is dry or pinned or no link fails |
| `RolloutImport.RolloutImporter.Finish` | src/importers/codex-rollouts.js:423-436 | a dry run leaves the ledger alone; otherwise unlisted sources are dropped and the ledger saved, or the failed save is counted as an error |
| `RolloutImport.ImportRollouts` | src/importers/codex-rollouts.js:159-436 | an unpinned run imports the candidates up to the limit and saves the ledger, and its counters add up as stated |
| `SnapshotChains.ImportIntoCatalog` | src/importers/codex-rollouts.js:85-159 | an import that loads its latest snapshots from the catalog: stored ids are new and distinct, stored records show their sources, and when the records resolve with sufficient counts, each snapshot of a thread without trouble has the thread's latest record as its parent and the catalog stays covered |
| `RolloutImport.DryRunWritesNothing` | src/importers/codex-rollouts.js:442-537 | a dry run leaves payloads, records, seed links and ledger as they were |
| `RolloutImport.PreflightPredictsTheRun` | src/importers/codex-rollouts.js:778-839 | on any catalog and from any latest snapshots, after a passed preflight the run skips, recognises, plans or imports each source exactly as screened, in order, with no conflict, repair or rejection |
| `RolloutImport.PassesExactlyWhenTheRunIsClean` | src/importers/codex-rollouts.js:778-839 | a preflight passes if and only if the run it stands for would leave every source skipped at its checkpoint, recognised, planned or imported |
| `ImportOutcomes.SourcesAreBlockedForTheirReason` | src/importers/codex-rollouts.js:778-839 | a source is blocked under an outcome exactly when that reason applies to it, and a conflict names the snapshot that is planned |
| `RolloutImport.PreflightSelectedSources` | src/importers/codex-rollouts.js:778-839 | passes exactly when no source is blocked, one result per source |
| `RolloutImport.RolloutImporter.ImportSnapshot` | src/importers/codex-rollouts.js:308-408 | a planned snapshot is skipped as a duplicate, refused as a conflict, recognised as existing, planned or written |
| `RolloutImport.RolloutImporter.ImportRollout` | src/importers/codex-rollouts.js:213-307 | the gates on a parsed rollout, in order |
| `RolloutImport.RolloutImporter.Write` | src/importers/codex-rollouts.js:508-537 | payload then record; a fault stops there, keeps what was written and names the trouble |
| `RolloutImport.RolloutImporter.Settle` | src/importers/codex-rollouts.js:380-403 | an accepted snapshot is linked, remembered and becomes the latest; a failed link leaves ledger and latest alone |
| `RolloutImport.RolloutImporter.Import` | src/importers/codex-rollouts.js:164-204 | a source the ledger knows is skipped, an unreadable or malformed one is counted, a parsed one goes on |
| `RolloutImport.RolloutImporter.ImportCandidates` | src/importers/codex-rollouts.js:159-421 | the loop imports candidates in order and stops at the limit |
| `RolloutImport.ImportSelection` | src/importers/codex-rollouts.js:136-156 | a blocked preflight writes nothing at all, the ledger included; otherwise the whole selection is imported and the ledger saved |
| `BoundedReader.IndexLines` | src/runtime/project-memory-reader.js:156-158 | the line ends split the bytes into lines that end in a newline or at the end |
| `BoundedReader.EndsIncrease` | src/runtime/project-memory-reader.js:156-158 | line ends are strictly increasing |
| `BoundedReader.IndexIsUnique` | src/runtime/project-memory-reader.js:156-158 | the bytes have only one such index |
| `BoundedReader.LinesConcatenate` | src/runtime/project-memory-reader.js:256-259 | the slice between two line ends is the concatenation of those lines |
| `BoundedReader.CutExcerpt` | src/runtime/project-memory-reader.js:254-271 | the excerpt is exactly the requested lines, or the error for a bad span, range or budget |
| `ReaderAnswers.SpansRefusedExactlyWhen` | src/runtime/project-memory-reader.js:71-90 | a span is refused exactly when it names no line, runs backwards, or is longer than eighty lines |
| `BoundedReader.ChooseBodies` | src/runtime/project-memory-reader.js:310-331 | the greedy loop includes each body exactly when it still fits, and never exceeds the budget |
| `BoundedReader.OverwrittenReceiptStillFits` | src/runtime/project-memory.js:371-382 | the response still fits after receipt id, time and reused flag are overwritten |
| `ReaderAnswers.SizesAddUp` | src/runtime/project-memory-reader.js:310-331 | the size of a response is the sum of its records, a comma between each two and its fixed parts |
| `ReaderAnswers.ByteLengthMeasures` | src/runtime/project-memory-reader.js:310-331 | the size of a text is the sum of the UTF-8 widths of its characters |
| `ReaderAnswers.ResponsesHoldTheirRecords` | src/runtime/project-memory-reader.js:310-331 | a rendered response holds every record, in order and separated by commas, between its fixed parts |
| `ReaderAnswers.ReceiptsAcceptedExactlyWhen` | src/runtime/project-memory.js:364-370 | stored receipts are accepted exactly when there are at most twenty, properly named and timed, under different ids |
| `BoundedReader.ReadRecords` | src/runtime/project-memory.js:352-388 | a whole read: the bodies are chosen greedily under the placeholder receipt, and the response that leaves fits its budget with the receipt id of the chosen bodies, with a new receipt stored under the cap or with the first receipt's time when reused; the error cases in order |
| `Fusion.FusedScoreBounds` | src/retrieval/fusion.js:14-38 | a group of n >= 2 scores between its best score plus 0.05 and plus 0.05(n-1) |
| `Fusion.AggregateDescribesGroup` | src/retrieval/fusion.js:14-38 | an aggregate lists the lanes of its group in order and is qualified when any member is |
| `Fusion.GroupCandidates` | src/retrieval/fusion.js:14-38 | candidates are aggregated once per layer and record |
| `FusionAnswers.GroupsAreFused` | src/retrieval/fusion.js:14-38 | there is one group for each record of a layer that has candidates, with the first one's record, all lanes and reasons in order, and the score that taking the better and adding a boost for each further candidate gives |
| `Fusion.FusionConserves` | src/retrieval/fusion.js:14-60 | admitted plus excluded groups are the distinct layer and record keys, and the per-code counts sum to the excluded ones |
| `Fusion.TalliedCodesAddUp` | src/retrieval/fusion.js:47-60 | the recorded per-code counts sum to the excluded count |
| `Fusion.AdmitGroups` | src/retrieval/fusion.js:40-60 | each group lands in its layer or in the exclusions, which are counted by code |
| `FusionAnswers.AdmittedExactlyWhen` | src/retrieval/fusion.js:101-161 | a group is admitted exactly when it is relevant and eligible, and otherwise excluded for the first of these it is not |
| `FusionAnswers.CodesCountTheRejected` | src/retrieval/fusion.js:47-60 | each code counts the groups excluded under it |
| `Fusion.DiversifyByLineage` | src/retrieval/fusion.js:163-177 | the loop over seen lineages keeps the first candidate of each |
| `Fusion.DiversifyKeepsOrder` | src/retrieval/fusion.js:163-177 | diversification keeps the ranking and at most one candidate per lineage |
| `Fusion.DiversifyKeepsBest` | src/retrieval/fusion.js:163-177 | the best-ranked candidate of every lineage is kept |
| `Fusion.LayerResultsAreRanked` | src/retrieval/fusion.js:62-71 | each layer lists the best of what was admitted, by score, time and id, within budget; for evidence one per lineage, and every lineage is served by its best unless better ones fill the budget |
| `Fusion.AdmittedRecordsAreDistinct` | src/retrieval/fusion.js:47-60 | among groups with distinct keys, those admitted to a layer have distinct records |
| `Fusion.FusedLayersHoldRecordsOnce` | src/retrieval/fusion.js:7-95 | for all candidates, no layer of the response lists a record twice |
| `Fusion.RankLayers` | src/retrieval/fusion.js:62-71 | each layer of the response is its admitted groups ranked, thinned and cut |
| `Fusion.Fuse` | src/retrieval/fusion.js:7-95 | the response holds the ranked layers, each record once, the excluded counts by code that sum to their total, the first six exclusions and, when there are more, the summary |
| `FusionAnswers.ResponsesShowTheBest` | src/retrieval/fusion.js:7-95 | said of the lane candidates: every layer shows, each once and best first, the best of the records that are relevant and eligible |
| `Parameters.DedupedEntriesAreDistinct` | src/parameters/distillers.js:774-784 | entries that agree in key, kind, value and spans are kept once |
| `ParameterAnswers.DedupeKeepsFinal` | src/parameters/distillers.js:774-784 | every place that was read is kept once, in the order it was first read, with its final reading |
| `Parameters.SortedGroupHolds` | src/parameters/refresh.js:369-380 | the entries of a key in (line, character) order, each once |
| `ParameterAnswers.GroupIsInOrder` | src/parameters/refresh.js:369-380 | they come by line, then character, then as they were distilled |
| `Parameters.LinkGroup` | src/parameters/refresh.js:376-384 | each entry of a group is linked to the one before it and to nothing else |
| `Parameters.LinkGroups` | src/parameters/refresh.js:367-384 | every key's group is linked, and groups do not touch each other |
| `Parameters.MaterializeObservations` | src/parameters/refresh.js:306-396 | one observation per entry, superseding exactly its predecessor in the key's group |
| `Parameters.SupersedesExactlyItsPredecessor` | src/parameters/refresh.js:367-390 | supersession links form one chain per key in (line, character) order |
| `Parameters.SupersededUnlessLast` | src/parameters/refresh.js:367-390 | an observation is superseded exactly when it is not the last of its key |
| `ParameterAnswers.LinksFollowTheSource` | src/parameters/refresh.js:306-396 | each observation carries its entry and evidence, and supersedes exactly the observation of the same key just before it in the source |
| `Parameters.BuildParameterIndexes` | src/parameters/retrieval.js:1-39 | observations by evidence, superseded ids and current evidence are indexed exactly |
| `Parameters.IndexObservations` | src/parameters/retrieval.js:1-39 | every observation is listed under each of its evidence references, in order |
| `Parameters.ExactlyTheLastIsVisible` | src/parameters/retrieval.js:80-102 | for each current evidence record and key exactly the last observation is visible |
| `ParameterAnswers.TheLastEntryIsShown` | src/parameters/retrieval.js:80-102 | of the entries of a key the last in the source is shown, as long as its evidence is current |
| `ParameterAnswers.ShownExactlyWhen` | src/parameters/retrieval.js:95-102 | an observation is shown exactly when nothing supersedes it and some current evidence backs it |
| `Parameters.VisibleOnceHolds` | src/parameters/retrieval.js:80-93 | filtering shows every visible observation once, and only those |

## Left out

- Command-line parsing, scheduling, report printing, benchmark harnesses and JSON-schema validation.
- File-system detail: stat fields, symlink and realpath checks, fsync, directory creation and temporary names.
  Exclusive create, link, rename, read and unlink act on a map of files.
- Parsing of rollout bytes, session identity, workspace resolution and payload rendering: a parsed rollout
  carries their results. Byte lengths of text blocks and counts of non-text blocks are not recorded.
- Sample results, capped detail lists, per-source write states and coverage totals of an import; the model
  keeps one entry per candidate and the outcomes in the order they were counted.
- The fingerprints an import records in the ledger: the importer's own ledger holds outcomes, and the ledger file is
  saved with the sources its instance holds. Failures of the save other than a held lock or a changed file are left out.
- The refusal of an import limit smaller than a pinned selection.
- The metadata read from an existing payload is a function of its record; only its counts and messages matter.
- The stale-index case of a catalog record written by another process during an import.
- The wording of suggested applicability lines and the choice of an action or outcome line: the record
  carries the chosen line, and a suggested text is a constructor over the texts it quotes.
- Writing the completion, recovery and amendment packets to their stores, and review decisions on cases.
- Discovery of promotion candidates (token overlap, scores, counterexamples) and the comparison with the
  pre-normalization hash of older candidates. Candidate ids are structured values, so a base id is never
  mistaken for a revision id.
- LiveCandidates.Enabled: runs contain discovered candidates with base ids, which is what discovery
  produces; a caller that upserts other ids is outside the run theorems, while the store methods take any candidate.
- Errors thrown by candidate preparation or deterministic support checks end a promotion pass; the model treats both as answers.
- Explanations of fused results, admission policy details and the parameter-refresh write loop with its conflict classifiers.
- Neighbour listing in the support graph, and the branch of path materialization for a missing predecessor,
  which `MaterializePath` shows cannot be taken.
- Visibility without an evidence list: when retrieval is given no evidence catalog it shows every observation
  that is not superseded. The final ordering of shown observations is left out too.
- Telemetry summary fields beyond delivery deduplication, validation of telemetry envelopes, and the
  normalisation of usage identifiers.
- Iteration order of maps where it only decides which error is reported first.
