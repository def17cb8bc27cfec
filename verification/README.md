# Verification of oh-my-field's core workflows

oh-my-field turns captured agent runs ("evidence") into versioned capability
packages and moves those packages between runtimes. This Dafny project models
the parts of it whose correctness is a matter of state and order, and proves
what every run of them keeps:

- the checkpointed pipeline: six nodes, a run record rewritten before and after
  each of them, crashes between any two writes, resume and rollback, and many
  runs over one capabilities directory (`NodeNames`, `Runs`, `Pipeline`,
  `CrashResume`, `Orchestrator`, `SharedPackages`);
- the file store: the two write primitives as concurrent protocols over inodes,
  the files of a package, races for a whole package, versioned imports
  (`WriterProtocol`, `PackageStore`, `PackageRace`);
- integrity chains: what promotion, learning and patching build, what
  `verify_artifact` accepts, and what it goes on accepting (`Integrity`,
  `ArtifactStore`);
- evidence hardening, the strict quality gate and promotion (`OrderedMerge`,
  `EvidenceRecords`, `Hardening`, `Capture`, `Promotion`, `PipelineCapture`);
- readiness and target validation (`Readiness`, `Validation`);
- few-shot printing and splitting, and context packing (`Strings`, `FewShot`,
  `ContextPack`).

`dafny verify dfyconfig.toml` checks the whole project.

## How the model is set up

Python's control flow is kept branch by branch. Workflows that rewrite files are
methods of classes whose fields are those files (`RunStore`, `FileStore`,
`Directories`, `TargetWorkspace`); loops that fill lists, sets and dictionaries
are methods with the same loops; record copies and comprehensions are functions.
Each method is proved equal to a function of its inputs or of the old state, and
the results below are proved about that function. What such a function means is
stated apart from its helpers, in the fields of records and the texts of names, by
the lemmas whose names end in `Exactly`.

A pipeline node is an oracle: given the node and the artifact ids it may pass or
fail with an id, or raise. An exception the orchestrator does not catch, a kill,
and a power loss are all a crash: some prefix of the process' writes has reached
the disk. Histories are arbitrary sequences of resumes (each with its own oracle,
each crashing anywhere) and rollbacks. In `SharedPackages` the processes of
different runs interleave at the level of single writes.

The SHA-256 of an artifact is an arbitrary function `sha` of its content without
the chain; no lemma assumes it free of collisions. A snapshot of an artifact is a
function of its path, case folding a function on strings, and running a command,
looking at a file and judging a command's risk are inputs. Rates are compared by
cross-multiplication and scores counted in hundredths.

## What the proofs found

- A patch decision about an export of the learn workflow never passes
  `verify_artifact`, whatever came before: it embeds the export's last link without that
  link's predecessor (`ArtifactStore.StoredDecisionFails`). Embedding the whole
  chain would pass.
- A run rolled back past its recorded promotion, or killed between creating its
  package and recording the node, can never be completed again. In general an idle
  run cannot be completed exactly when its capability name is taken, by itself, by
  another run or by another tool, and its promotion is not listed as completed
  (`SharedPackages.CompletableExactly`).
- The development guide says that storage writes refuse to overwrite. Only the
  exclusive writer does; `update_manifest` and `write_workflow_run` replace.
- A writer that returns leaves its temporary file behind exactly when an
  operating-system error struck while it wrote that file, or when the file could not
  be removed afterwards (`WriterProtocol.TempsCleanedUp`); a writer that is killed can
  leave one too (`WriterProtocol.WriteFaultLeavesTemp`). The second error can hide that the
  write itself succeeded (`WriterProtocol.CleanupFaultAfterPublishing`).
- A `version` import takes the least free name, but "free" only means without a
  manifest: a directory with other package files left in it makes the import
  stop in the middle (`PackageStore.VersionImportCollides`).
- An imported manifest verifies exactly when it keeps its name and the evidence it
  links to is already there (`Integrity.ImportVerifiesExactly`): renaming it fails the
  identity check, and an import brings no evidence along.
- Hardening is stable from the second pass on, not from the first: the first pass
  adds checks to the harness that the second pass then observes
  (`Hardening.OnePassSettlesExactly`, `Hardening.TwoPassesCanDiffer`).
- The pipeline captures without naming final artifacts and promotes strictly, so
  that a run none of whose files has the role `artifact` never gets past promotion
  (`PipelineCapture.NoArtifactNoPromotion`).
- The runtime-profile clause of the promotion criteria is always true
  (`Promotion.RuntimeClauseAlwaysHolds`), the risk level `severe` and the clamps
  of the readiness, quality and confidence scores are never reached, and the
  readiness factor `model_downgrade` is also reported when one of the two models
  is merely unknown (`Readiness.DowngradeFactorExactly`).
- A few-shot prompt that contains the separator, or ends with all of it but its
  last newline, is split in the wrong place (`FewShot.RoundTripExactly`); a
  candidate written by hand can make the dataset export raise
  (`FewShot.SplitRaisesExactly`).
- The token budget of a context policy caps each item, not the bundle, which fits
  exactly when the capped estimates of its items add up to no more
  (`ContextPack.BundleIsCapped`), and an excluded file may be said not to
  match the query although it was never optional
  (`ContextPack.NeverOptionalNoMatch`).

## Model

| member | source | states |
|---|---|---|
| `NodeNames.TextsDistinct` | src/oh_my_field/orchestrate.py:46-61 | the six node names, the six legacy aliases and the six rollback notes are eighteen different texts |
| `NodeNames.DecodeInvertsText` | src/oh_my_field/orchestrate.py:508-513 | every stored node name has exactly one decoded form, so working on decoded names loses nothing |
| `NodeNames.NamesOfNodes` | src/oh_my_field/orchestrate.py:46-61 | the six names, the older name of each and its rollback note decode to the node of that place in the pipeline |
| `Runs.CompletedIsBelow` | src/oh_my_field/orchestrate.py:512-513 | in a record whose completed nodes are a prefix of length k, node i counts as completed exactly when i < k |
| `Runs.NeverMissing` | src/oh_my_field/orchestrate.py:544-547 | at the first uncompleted node of a well-formed record the required id is always set |
| `Runs.LatestIsFresh` | src/oh_my_field/orchestrate.py:534-541 | the log entry looked up after a node ran is the one just appended, whatever older entries carry its name |
| `Runs.RunNodeProgress` | src/oh_my_field/orchestrate.py:479-491 | a passing node extends the prefix by itself, a failing one keeps it, and either sets only its own artifact field |
| `Runs.RequiresExactly` | src/oh_my_field/orchestrate.py:544-547 | import needs no id, promotion the evidence id, every later node the capability name |
| `Runs.RollbackProgress` | src/oh_my_field/rollback.py:75-102 | rolling back to t keeps exactly the first min(t, k) nodes and leaves a well-formed record |
| `Runs.RollbackExactly` | src/oh_my_field/rollback.py:75-134 | field by field, the record a rollback writes: pending review, the target as current node, no failure, the old log and a note with the reason, and none of the ids from the target on |
| `Runs.ClearedExactly` | src/oh_my_field/rollback.py:116-134 | the cleared list names exactly the set fields at or above the target |
| `Runs.ClearedInOrder` | src/oh_my_field/rollback.py:120-133 | it names each of them once, in pipeline order |
| `Runs.RollbackComposes` | src/oh_my_field/rollback.py:75-134 | rolling back to t1 and then t2 leaves the nodes and fields of one rollback to the smaller |
| `Pipeline.StepIsSound` | src/oh_my_field/orchestrate.py:214-247 | one pass through the loop writes only well-formed records; it goes on exactly when one more node is completed, and a failure carries the reason the stage gave, never one of the orchestrator's own errors |
| `Pipeline.StepExactly` | src/oh_my_field/orchestrate.py:214-247 | an unhealthy import that is not allowed, an unhealthy verification and an unhealthy evaluation fail the run at their node; promotion, context and learning pass whenever they return; a stage that raises fails it with its reason; and the two records that are written either way |
| `Pipeline.ContinueSound` | src/oh_my_field/orchestrate.py:207-253 | every record a process writes is well-formed, and the last one is completed or failed |
| `Pipeline.ResumeSettles` | src/oh_my_field/orchestrate.py:169-188 | a resume that is not interrupted leaves a run completed or failed |
| `Pipeline.ResumeStarts` | src/oh_my_field/orchestrate.py:169-188 | whatever its stages do, a resume of a run that is not completed first marks it running and clears the failure, and then checkpoints its first uncompleted node |
| `Pipeline.CommandWellFormed` | src/oh_my_field/orchestrate.py:169-188 | one resume, crashing after any write, or one rollback keeps the run file well-formed |
| `Pipeline.HistoryWellFormed` | src/oh_my_field/orchestrate.py:169-253 | any history of crashing resumes and rollbacks only ever writes well-formed records |
| `Pipeline.EveryRecordWellFormed` | src/oh_my_field/orchestrate.py:150-166 | the same from the first write of a new run on: completed nodes are always a duplicate-free prefix, fields below it are set and above it unset, completed and failed mean what they say, and no failure reason is ever the orchestrator's own missing value |
| `Orchestrator.RunStore.RunOneNode` | src/oh_my_field/orchestrate.py:216-247 | the loop body performs exactly the writes of one step of the specification |
| `Orchestrator.RunStore.ContinueWorkflow` | src/oh_my_field/orchestrate.py:207-253 | the loop performs exactly the writes the specification lists, and the run file holds the last of them |
| `Orchestrator.RunStore.RunOrchestrateWorkflow` | src/oh_my_field/orchestrate.py:150-166 | a new run writes its initial record, running at import with nothing done, and then the loop's writes, and touches no other run |
| `Orchestrator.RunStore.RunResumeWorkflow` | src/oh_my_field/orchestrate.py:169-188 | for any store, also one whose files are misnamed: an unknown run is an error that writes nothing and a completed run is only reported; any other is marked running without its failure, its first uncompleted node is checkpointed, and with stages that pass exactly its uncompleted nodes run and the file ends completed; correctly named files stay so |
| `Orchestrator.RunStore.ArtifactResets` | src/oh_my_field/rollback.py:116-134 | the loop over the six fields computes the specified reset and the specified cleared list |
| `Orchestrator.RunStore.RollbackWorkflow` | src/oh_my_field/rollback.py:61-109 | for any store: one write, and only for a known run and a known node; the file then has the target as current node and the note at the end of its log; the summary reports the target, the kept nodes and the cleared fields |
| `Orchestrator.RunStore.OperateAll` | src/oh_my_field/orchestrate.py:169-188 | any sequence of resumes and rollbacks performs exactly the history of the specification, so that a well-formed run only ever has well-formed files |
| `CrashResume.AllPassGivesPassingBody` | src/oh_my_field/orchestrate.py:213-247 | when every node passes as a function of the artifact ids, repeating an interrupted step writes what the step would have written |
| `CrashResume.PassingSchedule` | src/oh_my_field/orchestrate.py:213-253 | a passing process writes two records per remaining node and a completed one, and from each of them would write the rest of the same schedule |
| `CrashResume.PassingLog` | src/oh_my_field/orchestrate.py:479-491 | it logs one pass of every remaining node, in order, and nothing else |
| `CrashResume.CrashesAreInvisible` | src/oh_my_field/orchestrate.py:169-253 | crashed and resumed any number of times, it persists only records of the uninterrupted run and ends with that run's last record |
| `CrashResume.CrashedRunEndsClean` | src/oh_my_field/orchestrate.py:150-253 | for a new run that is fourteen writes, and the final log holds the six passes once each in order |
| `CrashResume.RollbackThenResume` | src/oh_my_field/rollback.py:75-102 | after a rollback to t a passing resume starts exactly the nodes from min(t, k) on, in order |
| `CrashResume.ResumeRunsTheRest` | src/oh_my_field/orchestrate.py:169-253 | resuming any run that is not completed, failed ones included, with stages that pass runs exactly its uncompleted nodes, in order, and completes it |
| `CrashResume.HistoryConverges` | src/oh_my_field/orchestrate.py:169-253 | through any failures, crashes and rollbacks, a completed record carries the ids of the undisturbed run when passing nodes depend only on upstream ids |
| `CrashResume.LegacyContinues` | src/oh_my_field/orchestrate.py:508-513 | a record stored under legacy names continues write by write like its modernized form |
| `CrashResume.LegacyRollsBack` | src/oh_my_field/rollback.py:79-84 | rolling back to a legacy name, or a record that holds legacy names, gives the canonical result |
| `SharedPackages.RoundIsLoopBody` | src/oh_my_field/orchestrate.py:213-247 | an undisturbed round of an interleaved process writes exactly what the loop body writes; the packages on disk only decide whether promotion is refused |
| `SharedPackages.CreatesExactly` | src/oh_my_field/infrastructure/fs/storage.py:194-211 | a process creates a package exactly at node 1, with its evidence id there, when its workflow gets that far and the name is free; a taken name fails the run at that node |
| `SharedPackages.ExecKeepsInv` | src/oh_my_field/orchestrate.py:207-328 | every interleaving of runs, crashes, resumes, rollbacks and foreign packages keeps all files and processes in order |
| `SharedPackages.AtMostOnePromotion` | src/oh_my_field/orchestrate.py:307-328 | over all runs a capability name has at most one recorded promotion |
| `SharedPackages.BlockedForever` | src/oh_my_field/infrastructure/fs/storage.py:194-211 | a run whose package exists and whose promotion is not listed is never completed again |
| `SharedPackages.RollbackPastPromotionBlocks` | src/oh_my_field/rollback.py:116-134 | rolling back to promotion or before, after promoting, does this to a run: the id is cleared, the package is not |
| `SharedPackages.CrashAfterCreateBlocks` | src/oh_my_field/orchestrate.py:307-328 | so does every crash between creating the package and recording the node: while the other package files are written, and after promotion has returned and before its record is on disk |
| `SharedPackages.CompletableExactly` | src/oh_my_field/orchestrate.py:207-253 | an idle run can be completed by some continuation exactly when its name is free or its promotion, node 1, is still listed |
| `SharedPackages.PromotedRunsOccur` | src/oh_my_field/orchestrate.py:150-253 | from an empty directory any run can come to have promoted and be idle, so that there are runs for a rollback to block |
| `SharedPackages.PackagedRunsOccur` | src/oh_my_field/orchestrate.py:307-328 | and to have created its package with the record of that not yet on disk, so that there are crashes that block |
| `WriterProtocol.StepKeepsInv` | src/oh_my_field/infrastructure/fs/storage.py:621-663 | each step of each concurrent call keeps the relation between its progress, its temporary file and the target |
| `WriterProtocol.ReadsAreWhole` | src/oh_my_field/infrastructure/fs/storage.py:621-663 | a reader that opens the target sees the whole content of one call, or of the earlier file, however long it reads |
| `WriterProtocol.AtMostOneWins` | src/oh_my_field/infrastructure/fs/storage.py:621-643 | of any number of exclusive calls at most one puts its file in place, and none if the file was there; success is one way to return from that, an error while cleaning up the other |
| `WriterProtocol.WinnerStays` | src/oh_my_field/infrastructure/fs/storage.py:637-640 | from then on the path holds the winner's whole content |
| `WriterProtocol.EarlierFileStays` | src/oh_my_field/infrastructure/fs/storage.py:623-640 | exclusive calls never touch an earlier file |
| `WriterProtocol.ExactlyOneWins` | src/oh_my_field/infrastructure/fs/storage.py:621-643 | when all have returned without a system error, one succeeded and all others raised DuplicateWriteError |
| `WriterProtocol.TempsCleanedUp` | src/oh_my_field/infrastructure/fs/storage.py:626-643 | a returned call leaves its temporary file exactly when the schedule has a system error strike it while it writes that file, or in the finally block while the name is still there |
| `WriterProtocol.WriteFaultLeavesTemp` | src/oh_my_field/infrastructure/fs/storage.py:648-663 | the first kind can strike in both modes, and a writer killed at that point leaves its temporary file as well |
| `WriterProtocol.CleanupFaultAfterPublishing` | src/oh_my_field/infrastructure/fs/storage.py:637-643 | the second kind can strike an exclusive call that has put its file in place: it raises, the content stays, and so does the temporary file |
| `PackageRace.NeverMixed` | src/oh_my_field/infrastructure/fs/storage.py:194-211 | however many package writes of one name race, crash and meet errors, there is at every moment one writer such that each of the nine files is missing, an earlier one, or wholly that writer's |
| `PackageRace.CompleteForOne` | src/oh_my_field/infrastructure/fs/storage.py:194-211 | a writer whose last file was written owns all nine, and nobody else put even the first in place |
| `PackageRace.UpdatesCanMix` | src/oh_my_field/infrastructure/fs/storage.py:214-231 | two updates of one package can leave the first file from one and the second from the other, both being done with both |
| `PackageStore.FileStore.WriteTextExclusive` | src/oh_my_field/infrastructure/fs/storage.py:621-643 | alone on the path, a write stores the content or, for an existing file, changes nothing |
| `PackageStore.FileStore.WriteTextAtomic` | src/oh_my_field/infrastructure/fs/storage.py:646-663 | alone on the path, it replaces the content and leaves nothing else |
| `PackageStore.FileStore.WriteCapabilityPackage` | src/oh_my_field/infrastructure/fs/storage.py:194-211 | the nine files are written in order up to the first that exists, which is the reported collision |
| `PackageStore.FileStore.UpdateManifest` | src/oh_my_field/infrastructure/fs/storage.py:214-231 | all nine files hold their new rendering |
| `PackageStore.WrittenAt` | src/oh_my_field/infrastructure/fs/storage.py:194-231 | path by path: the written parts hold their rendering, everything else is as before |
| `PackageStore.WrittenInOrder` | src/oh_my_field/infrastructure/fs/storage.py:194-231 | after n writes those are the first n of the nine files by name: manifest, instructions, harness, task contract, artifacts, validation, replay plan, validator, card |
| `PackageStore.WrittenManifestIsRead` | src/oh_my_field/infrastructure/fs/storage.py:258-267 | once its first file is written a package is read from that file, whatever manifest an older version left |
| `PackageStore.SecondWriteRefused` | src/oh_my_field/infrastructure/fs/storage.py:194-199 | after any attempt, finished, refused or crashed after any number of files, and after any later additions, every further package write is refused at its first file |
| `PackageStore.FilesOnlyGrow` | src/oh_my_field/infrastructure/fs/storage.py:194-231 | writing a package, exclusively or not, removes no file |
| `PackageStore.CandidateInjective` | src/oh_my_field/application/portability/import_workflow.py:155 | different version indices give different names |
| `PackageStore.CandidateText` | src/oh_my_field/application/portability/import_workflow.py:155 | a versioned name is the name, `_v`, and the index in decimal digits without leading zeros |
| `PackageStore.FileStore.NextVersionedName` | src/oh_my_field/application/portability/import_workflow.py:152-158 | the search ends and returns the least index from 2 up whose name has no manifest |
| `PackageStore.FileStore.MaterializePackage` | src/oh_my_field/application/portability/import_workflow.py:121-149 | for each collision policy, the files and the result an import leaves |
| `PackageStore.ImportTouchesOwnPackage` | src/oh_my_field/application/portability/import_workflow.py:121-149 | an import that does not overwrite changes no existing file; one that does changes files of its own package only |
| `PackageStore.VersionImportCollides` | src/oh_my_field/application/portability/import_workflow.py:152-158 | a version import collides exactly when the directory of the least free name holds another package file |
| `PackageStore.VersionImportCanCollide` | src/oh_my_field/application/portability/import_workflow.py:127-137 | a store in which it does |
| `Integrity.PreviousLinkChecks` | src/oh_my_field/application/verify/workflow.py:224-250 | all checks pass exactly when every named predecessor occurs earlier in the chain |
| `Integrity.CapabilitySourceChecks` | src/oh_my_field/application/verify/workflow.py:253-292 | all checks pass exactly when every evidence link of a manifest matches the stored evidence as it is now |
| `Integrity.VerifyArtifact` | src/oh_my_field/application/verify/workflow.py:75-89 | verification passes exactly when the last link is the artifact's own, predecessors hold and sources hold |
| `Integrity.VerifiesExactly` | src/oh_my_field/application/verify/workflow.py:199-292 | the three conditions in links and hashes: the last link is the artifact's own type, id and present hash; every named predecessor's hash occurs earlier; every evidence link of a manifest has the hash of the stored record |
| `Integrity.VerifiesUnderOneName` | src/oh_my_field/application/verify/workflow.py:199-221 | an artifact that verifies does so under its own type and id only |
| `Integrity.EmbeddedLinkExactly` | src/oh_my_field/application/promote/workflow.py:383-390 | an artifact is cited by the last link of its chain, and one without a chain by the hash of its content |
| `Integrity.PromotedChain` | src/oh_my_field/application/promote/workflow.py:227-238 | a promoted manifest cites its sources in order and then itself, following the last of them |
| `Integrity.CitingChains` | src/oh_my_field/application/learn/workflow.py:147-155 | an export cites its source record and a decision its export, each then itself as following that |
| `Integrity.AcceptedChain` | src/oh_my_field/application/learning_patch/workflow.py:166-189 | an accepted patch adds one link, the manifest as it then is, following the last link before |
| `Integrity.EmbeddingLastLink` | src/oh_my_field/infrastructure/fs/hashing.py:34-48 | embedding another artifact's last link passes the predecessor check exactly when that link has no predecessor |
| `Integrity.EmbeddingWholeChain` | src/oh_my_field/infrastructure/fs/hashing.py:34-48 | embedding the whole chain passes exactly when that chain does |
| `Integrity.PromotedVerifiesExactly` | src/oh_my_field/application/promote/workflow.py:227-238 | when a freshly promoted manifest verifies, for any evidence |
| `Integrity.PromotedVerifies` | src/oh_my_field/application/promote/workflow.py:227-238 | from stored evidence with its own chain it always does |
| `Integrity.LearningVerifiesExactly` | src/oh_my_field/application/learn/workflow.py:147-155 | a learning export verifies exactly when the embedded evidence link has no predecessor |
| `Integrity.DecisionVerifiesExactly` | src/oh_my_field/application/learning_patch/workflow.py:92-113 | a patch decision verifies exactly when the link it embeds has no predecessor |
| `Integrity.LearnedDecisionNeverVerifies` | src/oh_my_field/application/learning_patch/workflow.py:192-201 | so no decision about a learned export verifies; with the whole chain embedded it would |
| `Integrity.AcceptedVerifies` | src/oh_my_field/application/learning_patch/workflow.py:166-189 | accepting a patch keeps a manifest verifying, adds the patch and one link |
| `Integrity.TamperedSource` | src/oh_my_field/application/verify/workflow.py:253-292 | deleting a linked evidence record, or an edit that changes its digest, makes the manifest fail |
| `Integrity.ImportVerifiesExactly` | src/oh_my_field/application/portability/import_workflow.py:56-62 | a manifest that verified where it comes from verifies where it is imported exactly when it keeps its name and the evidence it links to is there, unchanged |
| `Integrity.ImportWithoutEvidenceFails` | src/oh_my_field/application/verify/workflow.py:253-292 | a promoted manifest imported where one of its source records is missing fails, under any name |
| `ArtifactStore.StepKeepsVerified` | src/oh_my_field/application/learning_patch/workflow.py:79-125 | each workflow keeps a verifying manifest verifying; its chain grows by one exactly for an accepted patch |
| `ArtifactStore.VerifiesForever` | src/oh_my_field/application/verify/workflow.py:153-292 | so does every history of evidence, promotions, card rewrites, exports, patches and other writes |
| `ArtifactStore.PromotedVerifiesForever` | src/oh_my_field/application/promote/workflow.py:159-239 | promote, then anything: the manifest verifies and its chain length counts sources and accepted patches |
| `ArtifactStore.StoredDecisionFails` | src/oh_my_field/application/learning_patch/workflow.py:79-125 | over any history of captures, promotions, learn runs and patches, from a store without exports and decisions, no stored decision verifies, under any id and against any evidence |
| `ArtifactStore.DecisionsAreStored` | src/oh_my_field/application/learning_patch/workflow.py:79-125 | and there are such decisions: one made after a learn run is stored, and fails |
| `ArtifactStore.Directories.StoreEvidence` | src/oh_my_field/infrastructure/fs/storage.py:184-187 | evidence is stored once per id; a second write is refused and changes nothing |
| `ArtifactStore.Directories.RunPromote` | src/oh_my_field/application/promote/workflow.py:148-239 | for any directories: promotion succeeds exactly when there is evidence, all of it is found, parses and passes the gate, and the name is free, and then stores a manifest of that name and the first record's id, without patches, with a link for each record and its own; it raises the gate's error exactly when all is found and parses and some record does not pass |
| `ArtifactStore.Directories.RunLearn` | src/oh_my_field/application/learn/workflow.py:96-169 | for any directories: exactly when the manifest and its source record are found and parse and the id is free, the export of that source with the patches offered is stored with its chain; otherwise nothing changes |
| `ArtifactStore.Directories.ApplyLearningPatch` | src/oh_my_field/application/learning_patch/workflow.py:79-125 | for any directories: an accepted decision appends the patch at the 1-based index among those the export offers of that kind, and nothing else, to the manifest; a rejected one leaves it alone; the decision stored carries that patch, kind, export and answer; and the manifest is replaced before the decision is written, so that a refused decision leaves the patch applied |
| `OrderedMerge.FirstWinsKeys` | src/oh_my_field/application/record_builder.py:104-107 | an ordered dedupe keeps every key once, and no other element |
| `OrderedMerge.FirstWinsKeepsFirst` | src/oh_my_field/application/record_builder.py:448-465 | what it keeps for a key is the first element carrying it |
| `OrderedMerge.FirstWinsExtends` | src/oh_my_field/application/record_builder.py:448-465 | merging into a merged list only appends, and only new keys |
| `OrderedMerge.LastWinsFacts` | src/oh_my_field/application/record_builder.py:414-417 | a dictionary filled in a loop has the key order of first and the values of last occurrences |
| `OrderedMerge.LastWinsIdempotent` | src/oh_my_field/application/record_builder.py:410-417 | filling in the same elements again changes nothing, duplicates or not |
| `Hardening.SoundExactly` | src/oh_my_field/application/record_builder.py:321-364 | validation reports no failure exactly for artifacts inside the project that exist and whose kind's probe succeeds |
| `Hardening.ResultsExactly` | src/oh_my_field/application/record_builder.py:321-378 | the results for a snapshot of each kind, with their names, verdicts and the metadata each reads |
| `Hardening.FailsExactly` | src/oh_my_field/application/record_builder.py:321-378 | an artifact has a failing result exactly when it is outside the project, does not exist, or is of a kind whose probe did not succeed: json by valid_json, csv by valid_csv, png by valid_png, docx and xlsx by valid_zip, pdf by valid_pdf, a directory by its entries |
| `Hardening.PathsExactly` | src/oh_my_field/application/record_builder.py:104-115 | the inputs and artifacts of a record are the non-empty paths it lists and those of its files with the roles for them |
| `Hardening.ObservationsExactly` | src/oh_my_field/application/record_builder.py:420-445 | the observations a record gives rise to, with their texts |
| `Hardening.ObservationsInOrder` | src/oh_my_field/application/record_builder.py:420-445 | from the goal over inputs, commands and artifacts to validations |
| `Hardening.TaskContractExactly` | src/oh_my_field/application/record_builder.py:74-80 | the goal, inputs, artifacts and checks of the task contract in terms of the record |
| `Hardening.MissingExactly` | src/oh_my_field/application/record_builder.py:468-495 | which sections a hardened record is reported to lack |
| `Hardening.FailuresExactly` | src/oh_my_field/application/record_builder.py:498-530 | the failures of a hardened harness are the recorded ones and the messages of failing results, and it fails exactly when it has some or failed before |
| `Hardening.MergeValidationResults` | src/oh_my_field/application/record_builder.py:410-417 | the dictionary loop computes the last-wins merge |
| `Hardening.MergeObservations` | src/oh_my_field/application/record_builder.py:448-465 | the loop with its set of seen keys computes the first-wins merge |
| `Hardening.RecordQualityOf` | src/oh_my_field/application/record_builder.py:468-495 | the sections reported missing are those the record lacks, each once, and the score follows |
| `Hardening.HardenEvidenceRecord` | src/oh_my_field/application/record_builder.py:50-101 | hardening computes the specified record, whose parts the rows around this one describe |
| `Hardening.SecondPass` | src/oh_my_field/application/record_builder.py:50-101 | a second pass changes nothing but the observations |
| `Hardening.ThirdPass` | src/oh_my_field/application/record_builder.py:50-101 | a third pass changes nothing |
| `Hardening.SecondPassAppends` | src/oh_my_field/application/record_builder.py:420-465 | the second pass appends only validation observations, for checks that the first pass put into the harness |
| `Hardening.OnePassSettlesExactly` | src/oh_my_field/application/record_builder.py:420-465 | one pass is enough exactly when every recorded and every fresh check is in the harness or observed in the record that is given to it |
| `Hardening.TwoPassesCanDiffer` | src/oh_my_field/application/record_builder.py:420-465 | a record with one final artifact and nothing observed or checked, on which the second pass differs from the first |
| `Hardening.FreshResultsWin` | src/oh_my_field/application/record_builder.py:68-73 | a fresh result replaces the recorded one of its name, and a recorded name not checked again keeps its result |
| `Hardening.ContractsAreChecked` | src/oh_my_field/application/record_builder.py:74-90 | every check a contract names has a result, stands in the task contract and is required by the harness |
| `Hardening.StrictReadyExactly` | src/oh_my_field/application/record_builder.py:468-495 | a hardened record is strict-ready exactly when it has an input, an artifact, and every check's latest result passes |
| `Capture.RequestIsCaptured` | src/oh_my_field/application/capture/workflow.py:148-200 | the goal, runtime, artifacts, retries, interventions and outcome of the request reach the stored record unchanged, the outcome also as its label |
| `Capture.CapturedChecks` | src/oh_my_field/application/capture/workflow.py:148-227 | the checks a captured harness lists and requires: readable files, the schema, executed commands when there were some, and those of the artifacts |
| `Capture.CapturedFailures` | src/oh_my_field/application/capture/workflow.py:148-227 | its failures: one for every command with a non-zero exit code, in its own words when it has some, and the messages of failing checks; it fails exactly when there are some |
| `Hardening.ScoreIsAtLeastAQuarter` | src/oh_my_field/application/record_builder.py:488-495 | the score is at least 0.25, so the clamp never fires, and 1 exactly for strict-ready records |
| `Promotion.QualityGateIssues` | src/oh_my_field/application/promote/workflow.py:252-275 | exactly the issues that apply are reported, and none exactly for a promotable record |
| `Promotion.RaisedExactly` | src/oh_my_field/application/promote/workflow.py:252-275 | in fields of the record, what each issue takes; failing validations are reported once, by the names of all that fail |
| `Promotion.EnforceQualityGate` | src/oh_my_field/application/promote/workflow.py:242-249 | the gate raises exactly when some record is not promotable, with every record's issues |
| `Promotion.HardenedPromotableExactly` | src/oh_my_field/application/promote/workflow.py:252-275 | hardened evidence, stored as it is or with the schema check that capture adds, passes the gate exactly when it is strict-ready and its harness passes |
| `Promotion.PromotableBeforeHardening` | src/oh_my_field/application/record_builder.py:50-101 | the same in terms of the evidence before hardening |
| `Promotion.CapturedPromotableExactly` | src/oh_my_field/application/capture/workflow.py:148-227 | a captured record passes the gate exactly when a context or prompt file was given, an artifact was named or given, every command exited with 0, and every check of the artifacts passes |
| `PipelineCapture.NoArtifactNoPromotion` | src/oh_my_field/orchestrate.py:273-328 | over every history of crashes, resumes and rollbacks, a pipeline run that is given no artifact file never gets past promotion |
| `PipelineCapture.WhereItFails` | src/oh_my_field/orchestrate.py:273-328 | such a run fails at import exactly when capturing raises or its harness fails and that is not allowed, and otherwise at promotion |
| `PipelineCapture.HarnessFollowsCommands` | src/oh_my_field/application/capture/workflow.py:148-227 | and its captured harness passes exactly when every command exits with 0 |
| `Promotion.StoredFromHardening` | src/oh_my_field/application/capture/workflow.py:202-221 | a record stored as it was hardened, or by capture with its schema check, has the verdict of a hardened one |
| `Promotion.PromotionRuntimeProfiles` | src/oh_my_field/application/promote/workflow.py:612-626 | the loop computes the deduped runtime, model and eval profiles |
| `Promotion.RuntimeClauseAlwaysHolds` | src/oh_my_field/application/promote/workflow.py:523-568 | the required runtime profiles are always among the collected ones |
| `Promotion.CriteriaAreThreeCounts` | src/oh_my_field/application/promote/workflow.py:561-568 | the criteria come down to three counts: at least three successes, nine tenths of the harnesses passing, at most three tenths of the records with interventions |
| `Promotion.RecordCounts` | src/oh_my_field/application/promote/workflow.py:533-609 | one more record raises each count exactly when it has interventions, its outcome (or, undecided, its label) is success or failure, its harness passes |
| `Promotion.FirstRecordCounts` | src/oh_my_field/application/promote/workflow.py:533-609 | the counts of a single record |
| `Promotion.EvalCounts` | src/oh_my_field/application/promote/workflow.py:569-579 | one more eval raises the count of passes exactly when it passes; the eval gate is met exactly without evals or with nine tenths of them passing |
| `Promotion.StatusIsByNumbers` | src/oh_my_field/application/promote/workflow.py:561-595 | the status in these numbers alone: stable with evals, validated without, candidate when a threshold is missed |
| `Promotion.ProfilesExactly` | src/oh_my_field/application/promote/workflow.py:612-626 | the collected profiles: every record's runtime and model, every eval's profile |
| `Promotion.WorstScoreIsLeast` | src/oh_my_field/application/promote/workflow.py:416-440 | the manifest's quality is the least score of the records that have one |
| `Promotion.ManifestHarnessExactly` | src/oh_my_field/application/promote/workflow.py:503-520 | its harness has the failures of all records and passes exactly when no record has any |
| `Promotion.SuccessesAndFailuresAreDisjoint` | src/oh_my_field/application/promote/workflow.py:598-609 | successes and failures together never exceed the records |
| `Promotion.StrictPromotion` | src/oh_my_field/application/promote/workflow.py:533-568 | after the strict gate the harness pass rate is 1, and successes and interventions decide |
| `Promotion.StrictManifest` | src/oh_my_field/application/promote/workflow.py:416-520 | strict promotion of records that capture, import and sessions store, each hardened at its own time, gives a passing harness and a full score |
| `Promotion.CleanSuccessKeepsCriteria` | src/oh_my_field/application/promote/workflow.py:533-568 | a successful, passing, intervention-free record inserted anywhere never takes the criteria away |
| `Promotion.EnoughCleanSuccesses` | src/oh_my_field/application/promote/workflow.py:533-568 | enough such records meet the criteria whatever came before |
| `Promotion.PassingEvalNeverDemotes` | src/oh_my_field/application/promote/workflow.py:569-595 | one more passing eval never lowers the status and makes a validated capability stable |
| `Promotion.FailingEvalNeverPromotes` | src/oh_my_field/application/promote/workflow.py:569-595 | one more failing eval never raises the status, and the first one leaves only a candidate |
| `Promotion.Promote` | src/oh_my_field/application/promote/workflow.py:148-157 | promotion raises exactly for a strict request with an unpromotable record, and otherwise has the status that the numbers of successes, passes and interventions give |
| `Readiness.RanksBelowIsStrictWeakOrder` | src/oh_my_field/domain/portability/readiness.py:182-187 | ranking profiles is a strict weak order |
| `Readiness.RankIsClassRank` | src/oh_my_field/domain/portability/readiness.py:166-187 | for profiles of model names it is decided by the model class alone |
| `Readiness.ModelClassExactly` | src/oh_my_field/domain/portability/readiness.py:166-179 | the class and context size of a model by its name: two known names, then the local markers, then the frontier markers |
| `Readiness.DeltaTellsDowngrades` | src/oh_my_field/domain/portability/readiness.py:111-164 | between two known different models the delta is at most -0.10 exactly for a downgrade |
| `Readiness.DeltaByClass` | src/oh_my_field/domain/portability/readiness.py:111-141 | each delta in terms of the two classes and context sizes |
| `Readiness.PortabilityReadiness` | src/oh_my_field/domain/portability/readiness.py:53-108 | the score is 1 plus the sum of the reported deltas and lies in 0.55 to 1, so the clamp never fires |
| `Readiness.FactorsReported` | src/oh_my_field/domain/portability/readiness.py:61-103 | which factors are reported, with which deltas |
| `Readiness.FactorsInOrder` | src/oh_my_field/domain/portability/readiness.py:61-103 | in the order of the comparisons, at most one for each |
| `Readiness.ScoreExtremes` | src/oh_my_field/domain/portability/readiness.py:53-108 | exactly which environments score 1 and 0.55 |
| `Readiness.RiskLevels` | src/oh_my_field/application/portability/validation_support.py:400-407 | severe risk never occurs, and high risk in exactly one family of environments |
| `Readiness.RiskBySum` | src/oh_my_field/application/portability/validation_support.py:400-407 | low, medium and high risk by the sum of the reported deltas |
| `Readiness.DowngradeFactorExactly` | src/oh_my_field/domain/portability/readiness.py:71-85 | the downgrade factor is reported exactly for downgrades and for changes to or from an unknown model |
| `Readiness.TransferType` | src/oh_my_field/domain/portability/readiness.py:30-42 | the listed transfer types are exactly the differences, in order, and same_environment stands alone |
| `Validation.StaticBlockersExactly` | src/oh_my_field/application/portability/validation_support.py:363-387 | before the run there is a blocker for exactly the required tools missing from a supplied list and for an outstanding remap, and none exactly when the request is statically clear |
| `Validation.RunTargetHook` | src/oh_my_field/application/portability/validate_workflow.py:195-269 | the target runs exactly when there is a command and it needs no approval or has it; the plan, the check and the blocker its exit code gives, and the error when it cannot be carried out |
| `Validation.UnapprovedNeverRuns` | src/oh_my_field/application/portability/validate_workflow.py:218-234 | a command that needs an approval it has not been given never runs, raises nothing, is not checked and never leads to validated |
| `Validation.RaisesExactly` | src/oh_my_field/application/portability/validate_workflow.py:195-368 | validation stops with an error exactly when a command that may run, or the validator after it, cannot be carried out |
| `Validation.ExpectedArtifactsExactly` | src/oh_my_field/application/portability/validate_workflow.py:371-384 | requested artifacts win over those of the task contract, and those over the contracts' own |
| `Validation.ArtifactChecks` | src/oh_my_field/application/portability/validate_workflow.py:272-307 | the loop gives a check per expected artifact and a blocker per missing one |
| `Validation.ContractValidatorCheck` | src/oh_my_field/application/portability/validate_workflow.py:310-368 | the check and blocker of the validator, missing, failing or passing |
| `Validation.ValidationConfidence` | src/oh_my_field/application/portability/validation_support.py:176-247 | the accumulated score, which the clamp never changes |
| `Validation.Assess` | src/oh_my_field/application/portability/validate_workflow.py:53-124 | the stages together compute the specified report, or raise exactly when a command cannot be carried out |
| `Validation.TargetWorkspace.ValidateCapabilityPackage` | src/oh_my_field/application/portability/validate_workflow.py:53-158 | an eval is always written and failure evidence exactly when it fails; a raised error leaves everything untouched |
| `Validation.VerdictsAgree` | src/oh_my_field/application/portability/validation_support.py:250-287 | blockers and eval checks name the same failures, and there are blockers exactly when the eval fails |
| `Validation.BlockersExactly` | src/oh_my_field/application/portability/validation_support.py:363-387 | what each blocker of the final report tells, in terms of request and target |
| `Validation.BlockersInOrder` | src/oh_my_field/application/portability/validation_support.py:363-387 | blockers stand in the order of the stages that find them |
| `Validation.ChecksExactly` | src/oh_my_field/application/portability/validation_support.py:250-287 | the checks of the final report by name and in order |
| `Validation.StatusExactly` | src/oh_my_field/application/portability/validation_support.py:49-57 | the status in terms of request and target, and whether it was run: validated exactly when the target was run and exited 0, every artifact exists, no required tool is missing from a supplied list, no remap is outstanding and a requested validator passed; needs validation exactly when nothing is in the way and there is no command or no approval for it |
| `Validation.AdvisoryDoesNotInterfere` | src/oh_my_field/application/portability/validation_support.py:92-152 | runtimes, models and compression change nothing but score, warnings and risk |
| `Validation.ConfidenceOfValidated` | src/oh_my_field/application/portability/validation_support.py:410-415 | the confidence of a validated target, and its level, depend only on what was asked for |
| `Validation.HighConfidenceExactly` | src/oh_my_field/application/portability/validation_support.py:176-247 | a confidence of 0.80 takes a passing run, present artifacts and a passing validator |
| `Validation.ConfidenceExactly` | src/oh_my_field/application/portability/validation_support.py:176-247 | 45 hundredths for a passing run, 30 for expected artifacts that are all there, 25 for a passing validator |
| `FewShot.FirstFoundAfterPrompt` | src/oh_my_field/application/dataset_export/workflow.py:146-147 | the separator is first found right after the prompt exactly when the prompt is clean |
| `FewShot.RoundTripExactly` | src/oh_my_field/application/learn/workflow.py:189-202 | splitting a printed candidate never raises, and gives prompt and output back exactly when the prompt neither contains the separator nor ends with all of it but the last newline |
| `FewShot.SplitIsLossless` | src/oh_my_field/application/dataset_export/workflow.py:143-149 | printing the parts of a split gives the candidate back |
| `FewShot.SplitIsStable` | src/oh_my_field/application/dataset_export/workflow.py:143-149 | splitting, printing and splitting again changes nothing more |
| `FewShot.SplitRaisesExactly` | src/oh_my_field/application/dataset_export/workflow.py:143-149 | on which candidates unpacking the split raises |
| `FewShot.SplitKeepsExactly` | src/oh_my_field/application/dataset_export/workflow.py:143-149 | the split has no output part and the whole candidate as prompt exactly for candidates without prefix or separator |
| `FewShot.PairsExactly` | src/oh_my_field/application/learn/workflow.py:189-202 | the captured pairs: the content of every prompt file with that of every command output, test result and artifact |
| `FewShot.RowsAreTheCapturedPairs` | src/oh_my_field/application/dataset_export/workflow.py:124-140 | the exported rows are the captured pairs exactly when all prompts are clean or there is no output |
| `ContextPack.FateDecides` | src/oh_my_field/application/context/workflow.py:129-150 | each file is in exactly one list, decided by the file alone |
| `ContextPack.SelectedExactly` | src/oh_my_field/application/context/workflow.py:129-150 | the three lists by the file's path, role and content, the policy's lists, the option and the query |
| `ContextPack.SelectionPartitions` | src/oh_my_field/application/context/workflow.py:132-186 | required, optional and excluded split the captured files, counting copies and keeping order |
| `ContextPack.NothingForbiddenIsSelected` | src/oh_my_field/application/context/workflow.py:246-253 | no selected path contains a rule forbidden by the capability or the field |
| `ContextPack.ReasonsExplain` | src/oh_my_field/application/context/workflow.py:277-301 | for an excluded file, the exact condition of each of the five reasons |
| `ContextPack.NeverOptionalNoMatch` | src/oh_my_field/application/context/workflow.py:277-301 | a file that no list names is said not to match the query as optional context exactly when it is not forbidden and does not match the query given |
| `ContextPack.NeverOptionalButNoMatch` | src/oh_my_field/application/context/workflow.py:288-293 | an input on which that happens |
| `ContextPack.CompressionKeepsPrefix` | src/oh_my_field/application/context/workflow.py:375-386 | truncation keeps path, role and a prefix of the content, is flagged exactly when it happens, and is idempotent |
| `ContextPack.LimitExactly` | src/oh_my_field/application/context/workflow.py:389-394 | the request's own limit wins over the budget of the policy, which allows four characters a token |
| `ContextPack.EstimateExactly` | src/oh_my_field/application/context/workflow.py:341-342 | a token for every four characters, and at least one for a text that is not empty |
| `ContextPack.ItemFitsBudget` | src/oh_my_field/application/context/workflow.py:389-394 | with only a token budget B each packed item is estimated at its own estimate, capped at B |
| `ContextPack.BundleIsCapped` | src/oh_my_field/application/context/workflow.py:182-200 | a bundle is estimated at the sum of the plan's item estimates, each capped at B, and so fits B exactly when that sum does |
| `ContextPack.TwoFilesExceedOneToken` | src/oh_my_field/application/context/workflow.py:389-394 | a bundle that does not fit: two files that are not empty under a budget of one token |
| `ContextPack.BundleFitsBudgetPerItem` | src/oh_my_field/application/context/workflow.py:389-394 | so a bundle stays within B per item, and reaches that bound |
| `ContextPack.PlanEstimateIsBeforeTruncation` | src/oh_my_field/application/context/workflow.py:180-181 | the plan's estimate is never below the truncated bundle's, and equal when nothing was cut |
| `ContextPack.EstimateIsTheSum` | src/oh_my_field/application/context/workflow.py:121-200 | the bundle's estimate is the sum over its required and optional items |

## Left out

- Timestamps, generated ids and random tokens: a record's `updated_at` is not modelled, and ids come from the node oracle.
- Concurrent processes on one run or session file: the code takes no lock there. Concurrency is modelled for the file writers and for processes of different runs.
- Exceptions that the orchestrator does not catch: they end the process, which is a crash.
- `import --if-exists overwrite` as an event of `ArtifactStore`: it replaces a manifest by one from elsewhere, so that whether the result verifies depends on the bundle.
- ArtifactStore.VerifiesForever: the writing of a manifest is one step there; that a reader of a package never sees half a file is shown in `WriterProtocol`, and a crash between the files of one package only in `SharedPackages`.
- ArtifactStore.PromotedVerifiesForever: asks that the evidence carries only its own link, as capture writes it; `Integrity.PromotedVerifiesExactly` is the condition for any evidence.
- Integrity.PreviousLinkChecks: the messages and hashes carried by the checks, and the separate verification of an unpacked bundle directory.
- ArtifactStore.Directories.RunPromote: the gate is any test of a record's content there; what the quality gate tests is shown in `Promotion`.
- WriterProtocol.TempsCleanedUp: an error of the existence test in the `finally` block counts as an error of the removal; Python versions that report such an error as "does not exist" would return normally.
- PackageRace.NeverMixed: is about exclusive package writes alone; updates at the same time can mix files (`PackageRace.UpdatesCanMix`).
- Promotion.CapturedPromotableExactly: how capture reads files and runs commands; the outcome of a command is an input.
- Hardening.HardenEvidenceRecord: the names of contracts (a normalisation of the path), the texts of quality warnings, and snapshot metadata that is not a truth value.
- Hardening.MergedObservations: observations are compared without their time stamp, which the record builder leaves empty.
- Promotion.Promote: the descriptive parts of the manifest (field, policies, compatibility, tools, context sources), retry rate and version bump.
- Promotion.MetricsOf: rates are fractions; Python's floating-point quotients compare alike for any realistic number of records.
- Readiness.PortabilityReadiness: scores are exact hundredths; the code adds floats and rounds to two digits.
- Validation.Assess: the texts of messages and next actions, the pass-rate comparison, the overlay and its files, and how a stored remap plan is read.
- FewShot.RowsAreTheCapturedPairs: the identifying columns of a row, and preference and eval rows.
- ContextPack.SelectContext: context sources, recall notes, summaries and digests of truncated files.
- Contents of files, directory walks, probing of PNG, CSV and ZIP files, redaction, MIME types and Unicode case folding.
- Command execution, risk assessment, archives, the command line, the MCP server, dashboards, installers, probes, session-log parsers, and the review, reflect and inspection workflows.
- Markdown and YAML rendering and pydantic parsing: a stored record loads back as written.
