# Verified model of the closed-loop fine-tuning service

This project models the parts of the service that hold shared state or depend on ordering, and
proves what they keep over every input and every run:

* the **release registry**: the status of each model version, the single DEPLOYED pointer guarded
  by a partial unique index, the staging ladder, promotion decisions and rollback (`Releases`,
  `ReleaseProtocol`, `PointerLoss`, `ReleaseService`);
* the **GPU and training protocol**: one lock shared by training workers and deploys, the
  stop / poll / train / restart cycle, compare-and-set claims, heartbeats, the stale detector and
  bounded retries (`GpuLock`, `GpuProtocol`, `ServingCycle`, `TrainingRuns`, `ClaimProtocol`,
  `LockedQueue`);
* the **dataset chain**: duplicate and leakage detection, the gate, eval sets kept apart from
  validated data, and the pin from validated bytes to trained-on bytes (`Occurrences`,
  `Validation`, `FirstOccurrences`, `GateOrder`, `EvalSets`, `SeparationProtocol`, `DatasetPins`, `PinHistory`, `DatasetKeys`);
* **refresh-token families** with reuse detection, the pattern of section 4.14.2 of RFC 9700
  (`RefreshTokens`, `RefreshProtocol`);
* **version allocation and registration** under concurrent writers, several hosts and rollbacks
  (`VersionAllocation`, `Registrations`, `VersionNames`);
* two **codecs**: the CSV scanner (section 2 of RFC 4180, and what it reads beyond that) and the framed checksum preimage with the
  two artifact stores (`Csv`, `Decimal`, `ArtifactChecksum`, `FileNames`, `ChecksumAmbiguity`,
  `ArtifactStores`).

Code that updates state in place is a class or a loop here, proved against a specification function
or relation. Code that several transactions or processes run at once is a step system besides: a
`State`, a `Label` per step, and results about every sequence of enabled steps. Where both exist
they are connected (`ReleaseService.EndpointIsProtocolRun`, `RefreshProtocol.AloneIsAuthService`,
and the row functions that `ClaimProtocol` shares with `TrainingService`).

Everything outside is a parameter: clocks, answers of the serving stack and of the host, SHA-256
(an arbitrary function, so distinctness is proved of what is hashed), file listings in any order,
fresh identifiers, and which of two racing transactions goes first.

`dafny verify dfyconfig.toml` checks the whole project.

## What the code does where its documentation says otherwise

Each of these is a lemma with an exact condition, and the code is modelled as it is.

* The claim's over-budget branch writes FAILED whatever the row says by then, so a worker that
  selected a STALE run late can overwrite COMPLETED, and so can the failure of a second holder
  (`ClaimProtocol.OverwriteExactly`, `ClaimProtocol.CompletedCanBeOverwritten`,
  `ClaimProtocol.SecondHolderOverwrites`); such a run keeps its registered version. A claim that is
  beaten can still write into the winner's row (`ServingCycle.BeatenRowExactly`).
* The GPU lock serialises one host, so workers of two hosts can register one run as two versions: every
  run keeps to one version exactly when one host has all the workers
  (`Registrations.OneVersionEachExactly`). What holds as long as no run is claimed while another
  transaction still has it is `Registrations.CompletedRunsAreVersions`.
* A run that is marked STALE while it trains is left so by its worker, whose turn crashes
  (`ServingCycle.MarkedRunIsLeft`).
* With the lock-wait metric on, a lock timeout does not surface as TimeoutError but as
  UnboundLocalError, raised by the cleanup that reads an acquisition time never set
  (`GpuLock.Acquire`).
* A TimeoutError out of storing the artifact passes for a lock timeout: the run commits COMPLETED
  with an unfinalized version (`ServingCycle.CompletedMeansRegistered`).
* A registration that is rolled back after its artifact was stored leaves the directory behind, and
  the immutability check then refuses that number for ever (`Registrations.RefusedExactly`,
  `Registrations.OrphanStalls`, `Registrations.OrphanHappens`).
* A refresh token read before a logout or a replay can still rotate after it, once
  (`RefreshProtocol.AtMostOneLateRotation`, `RefreshProtocol.LateRotationExactly`).
* The MinIO store hashes a payload file named `metadata.json` and verification skips it
  (`ArtifactStores.MinioArtifactStorage.FinalizeThenVerify`).
* The checksum framing is ambiguous: admitting a file name beside safe ones lets two different file sets
  share a preimage exactly when the name can be read as frames that end in itself
  (`ChecksumAmbiguity.AmbiguousExactly`, `ChecksumAmbiguity.FilesAmbiguousExactly`), which takes a
  numeral segment but more than that (`ChecksumAmbiguity.SegmentWithoutHarm`,
  `ChecksumAmbiguity.LeadingSegmentHarmless`).
* A dataset file named `schema.json` or `validation_report.json` is overwritten by its own sidecar
  when it is committed, and its runs are then refused; a re-validation from records replaces the
  file's hash by that of a JSON dump (`PinHistory.IntakeRunTrainsExactly`,
  `PinHistory.CommittedRunTrainsExactly`, `PinHistory.RevalidatedRunTrainsExactly`).
* An eval set can be stored after a passed report it overlaps with, if that report was stored between
  the eval set's check and its storing (`SeparationProtocol.NewerExactly`,
  `SeparationProtocol.WindowHappens`).
* Whether a failing dataset ends as FAIL or NEEDS_REVIEW can depend on the order of its records,
  exactly when nothing leaks and the threshold falls among the counts that reordering can reach
  (`GateOrder.GateDependsOnOrderExactly`).
* Staging unloads production's adapter although it gives the pointer back
  (`ReleaseService.ReleaseService.DeployToStaging`), a commit that fails after a deploy leaves the
  DEPLOYED version without its adapter (`ReleaseService.ReleaseService.MoveAndCommit`), and operations
  on an old copy of a row can take the pointer away (`ReleaseProtocol.StagingKeepsPointerExactly`,
  `ReleaseProtocol.PointerLostExactly`, `PointerLoss.PointerLostHappens`).
* A last CSV record without a line ending is lost when it is a single empty cell
  (`Csv.OpenRecordReadBackExactly`).

## Model

| member | source | states |
|---|---|---|
| ReleaseProtocol.OneDeployedAlways | ml-close-loop-be/app/models/model.py:31-36 | In every run of overlapping deploys, stagings, promotions, rollbacks and other row updates, at most one version of a model is DEPLOYED, in the committed table and in what any transaction sees after any flush |
| ReleaseProtocol.ApprovedIsJustified | ml-close-loop-be/app/services/promotion_service.py:193-254 | Every committed version that is PROMOTED, VALIDATED, DEPLOYED, RETIRED or ARCHIVED has all three signals and a decision that approves it: promoted on evidence that cleared the gate, validated from STAGING, or rolled back to; however stale the copies acted on |
| ReleaseProtocol.IndexBreaksExactly | ml-close-loop-be/app/services/deployment_service.py:305-360 | A flush trips the unique index exactly when a version other than the target and the one found before is DEPLOYED by then, so the loser of a race can only roll back |
| ReleaseProtocol.NoConflictWithoutCommit | ml-close-loop-be/app/services/deployment_service.py:260-335 | From its query for the DEPLOYED version on, a transaction never trips the index, retiring or restoring, unless another transaction commits meanwhile |
| ReleaseProtocol.PointerMoves | ml-close-loop-be/app/services/deployment_service.py:158-182 | After a committed deploy, promotion or rollback exactly its target is DEPLOYED |
| ReleaseProtocol.StagingKeepsPointerExactly | ml-close-loop-be/app/services/promotion_service.py:288-313 | A committed staging leaves every pointer in place if and only if its candidate had not been made DEPLOYED meanwhile and the version it found still is |
| ReleaseProtocol.PointerLostExactly | ml-close-loop-be/app/services/model_service.py:341-361 | A commit leaves a model without its DEPLOYED version if and only if it is no pointer move (or a staging that found nothing to restore), acts on an old copy of the row that became DEPLOYED, and sets its status |
| PointerLoss.PointerLostHappens | ml-close-loop-be/app/services/promotion_service.py:288-313 | For every version there is a run in which its staging began while it was EVALUATED, it was promoted and deployed meanwhile, and the staging's commit leaves it STAGING and its model without a pointer |
| ReleaseProtocol.WholePlan | ml-close-loop-be/app/services/promotion_service.py:303-313 | All updates of a transaction together set the target and the version found DEPLOYED, nothing else; only staging gives the pointer back |
| ReleaseService.EndpointIsProtocolRun | ml-close-loop-be/app/services/deployment_service.py:305-345 | The committed effect of an endpoint is that of its transaction run step by step with nobody else about, so results on overlapping runs hold of serial ones |
| ReleaseService.ReleaseService.LoadAndTest | ml-close-loop-be/app/services/deployment_service.py:284-303 | The deploy passes exactly when the lock is free, the checksum and the base model are right, the adapter loads and the smoke test, if asked for, generates enough; each of the failures has its own if and only if. No row changes, and the adapter set stays as it was unless the smoke test failed |
| ReleaseService.SucceedsExactly | ml-close-loop-be/app/services/deployment_service.py:284-345 | The exact condition of success, of a checksum refusal and of an index conflict, in terms of the lock, the artifact, the load, the smoke test, the rows and the commit: no version of a request with a wrong checksum is ever deployed |
| ReleaseService.ReleaseService.MovePointer | ml-close-loop-be/app/services/deployment_service.py:305-360 | Retire, then deploy: succeeds exactly when no third version is DEPLOYED, moves the pointer and adds one history row; a loser's adapter is unloaded |
| ReleaseService.ReleaseService.DeployLocked | ml-close-loop-be/app/services/deployment_service.py:242-392 | Fails with the first check that fails or with the conflict; every failure before the retirement leaves the session as committed; only the two versions' adapters come or go |
| ReleaseService.ReleaseService.GiveBack | ml-close-loop-be/app/services/promotion_service.py:306-313 | Demoting the candidate first, the pointer is given back without meeting the index |
| ReleaseService.ReleaseService.StageDeploy | ml-close-loop-be/app/services/promotion_service.py:288-313 | Fails like a deploy, index conflict included when its query was overtaken; on success the candidate is STAGING, the version the query found has the pointer back and no other row changes |
| ReleaseService.ReleaseService.MoveAndCommit | ml-close-loop-be/app/api/deployment.py:82-118 | The whole transaction is committed or nothing is, but for the notice of a production smoke failure; also when another deploy overtook the query. Success means that lock, checksum, base model, load and smoke test were all right and the commit went through. The DEPLOYED adapters stay loaded unless the commit itself fails after a DEPLOYED version was unloaded |
| ReleaseService.ReleaseService.DeployModelVersion | ml-close-loop-be/app/api/deployment.py:32-118 | The status gate of the default and production environments, the exact answer, no row or history committed on any failure, and a notice exactly on a production smoke failure |
| ReleaseService.ReleaseService.PromoteProduction | ml-close-loop-be/app/services/promotion_service.py:366-402 | Refused by the staging gate, refused by status, or moved with a PRODUCTION decision; a smoke failure commits its notice alone |
| ReleaseService.ReleaseService.RollbackModel | ml-close-loop-be/app/services/promotion_service.py:405-464 | Allowed from exactly the five rollback statuses, STAGING among them; on success the rows and the decision it adds are spelled out, recorded against the version rolled back from |
| ReleaseService.ReleaseService.DeployToStaging | ml-close-loop-be/app/services/promotion_service.py:316-333 | Staged rows, history and decision, or the exact refusal, conflict of an overtaken query included; afterwards every DEPLOYED version is served exactly when the one given the pointer back kept its adapter |
| ReleaseService.ReleaseService.RegisterModelVersion | ml-close-loop-be/app/services/model_service.py:119-155 | A new REGISTERED row whose number is one more than the greatest of its model, so the registry stays without repeats |
| ReleaseService.ReleaseService.CreateDecision | ml-close-loop-be/app/services/promotion_service.py:193-240 | Only from EVALUATED; promotion needs an empty gate, rejection does not; the evidence is recorded with the decision |
| ReleaseService.ReleaseService.ValidateStagingStep | ml-close-loop-be/app/services/promotion_service.py:336-355 | Exactly from STAGING, with the evidence of the moment |
| ReleaseService.ReleaseService.SubmitEvaluation | ml-close-loop-be/app/services/model_service.py:317-361 | Merges each given field alone and makes a REGISTERED version EVALUATED exactly when all three signals are there |
| ReleaseService.ReleaseService.ArchiveModelVersion | ml-close-loop-be/app/services/model_service.py:399-414 | Archives exactly PROMOTED and RETIRED versions |
| ReleaseService.ReleaseService.UnarchiveModelVersion | ml-close-loop-be/app/services/model_service.py:417-437 | Restores exactly ARCHIVED versions, to one of three statuses |
| ReleaseService.ArchiveRoundTrip | ml-close-loop-be/app/services/model_service.py:392-437 | Unarchiving to the earlier status undoes an archive |
| ReleaseService.StagingIsTransparent | ml-close-loop-be/app/services/deployment_service.py:125-155 | Across a staging the deployment status and the prod alias answer the same for every model |
| ReleaseService.DeployedAtExactly | ml-close-loop-be/app/services/deployment_service.py:136-155 | The deployment time answered is that of the newest history row of the version |
| GpuProtocol.TraceIsBlocks | ml-close-loop-be/app/workers/gpu_orchestrator.py:159-239 | In every interleaving of workers and deploys the control trace is whole blocks, each one process's complete cycle or deploy or cut by SIGKILL, then the lock holder's open block |
| GpuProtocol.OneProcessInside | ml-close-loop-be/app/workers/gpu_lock.py:36-53 | Two processes are never inside the lock |
| GpuProtocol.TrainingIsCovered | ml-close-loop-be/app/workers/training_worker.py:172-200 | Every training step follows a stop and a reading at or above the threshold by the same process, with no restart and no adapter change between |
| GpuProtocol.CycleShape | ml-close-loop-be/app/workers/gpu_orchestrator.py:198-239 | A finished cycle begins with its stop and ends with one start and one health check |
| GpuProtocol.DeployShape | ml-close-loop-be/app/services/deployment_service.py:217-239 | A deploy's block is a load followed by unloads only |
| GpuProtocol.StoppedServingIsRestarted | ml-close-loop-be/app/workers/gpu_orchestrator.py:226-239 | A block that stopped serving and was not killed restarted it |
| GpuLock.Acquire | ml-close-loop-be/app/workers/gpu_lock.py:36-58 | The retry loop acquires exactly when its last attempt finds the lock free, all attempts before having found it held before the deadline; it gives up only after an attempt past the deadline, and then with TimeoutError exactly while the wait metric is off |
| ServingCycle.TrainingWorker.PollVram | ml-close-loop-be/app/workers/gpu_orchestrator.py:203-225 | The poll stops at the first reading at or above the threshold, a signal, or the deadline, after at most ceil(timeout / poll) + 1 readings |
| ServingCycle.TrainingWorker.TrainingBlock | ml-close-loop-be/app/workers/training_worker.py:176-229 | What claim, training and registration leave in the session and in the committed row, for PENDING and STALE copies, for a row that moved on before the claim or while it trained, and for every mix of failures; a training that raises and is committed ends FAILED with its time and its version kept |
| ServingCycle.TrainingWorker.Cycle | ml-close-loop-be/app/workers/gpu_orchestrator.py:159-239 | The exact calls of a cycle and how it is left; how start and health check end shows in the warnings alone, and failing readings warn once |
| ServingCycle.TrainingWorker.RunOnce | ml-close-loop-be/app/workers/training_worker.py:238-280 | The committed row after one turn of the loop, by how the cycle was left, refused claims and others' changes during training included; a training whose outcome is committed leaves COMPLETED or FAILED, never a claimable row |
| ServingCycle.PollUnique | ml-close-loop-be/app/workers/gpu_orchestrator.py:203-225 | The poll's outcome and number of readings are determined by the readings and the clock |
| ServingCycle.PollMeans | ml-close-loop-be/app/workers/gpu_orchestrator.py:203-225 | Every reading but the last was below the threshold, and the last one alone says how the poll ended |
| ServingCycle.FixedReadingNeverRecovers | ml-close-loop-be/app/workers/gpu_orchestrator.py:423-441 | A reader that replays the value of the last stop frees at once or never |
| ServingCycle.OneRestartPerCycle | ml-close-loop-be/app/workers/gpu_orchestrator.py:198-239 | One stop, one start, one health check, at most one training, whatever goes wrong |
| ServingCycle.RowKeptExactly | ml-close-loop-be/app/workers/training_worker.py:176-235 | A queued run, PENDING or STALE, that nobody else touched is left as it was exactly when no claim was answered or its training was rolled back before any progress; it changes untrained exactly when its retries are used up, and is then FAILED |
| ServingCycle.EndingExactly | ml-close-loop-be/app/workers/training_worker.py:200-229 | Field by field, the committed row of a training that was let end: FAILED after an error and COMPLETED after a registration, with the time, the version, the retry counter and what the others have left of the rest |
| ServingCycle.ResultExactly | ml-close-loop-be/app/workers/training_worker.py:172-280 | Which turns hand out a job, stop the loop or crash it |
| ServingCycle.WarningsExactly | ml-close-loop-be/app/workers/gpu_orchestrator.py:203-239 | Which warnings a cycle logs: failed readings once, a start that raised, a health check that raised or was not healthy; none of them twice |
| ServingCycle.RefusedRowExactly | ml-close-loop-be/app/services/training_service.py:162-185 | What a refused claim leaves of the row: the failure of a run out of retries, the counter of a STALE copy, or nothing |
| ServingCycle.MarkedRunIsLeft | ml-close-loop-be/app/services/training_service.py:132-139 | Once the session has loaded that the run was marked STALE while it trained, no answer of training ends it: the turn crashes or is interrupted and the row stays as the others left it |
| ServingCycle.BeatenRowExactly | ml-close-loop-be/app/services/training_service.py:162-185 | A beaten claim leaves the winner's row alone exactly when its copy was PENDING, or counted the same retry, or the row shows that very failure |
| ServingCycle.CompletedMeansRegistered | ml-close-loop-be/app/workers/training_worker.py:200-235 | A commit keeps COMPLETED together with a version, except exactly when an over-budget claim, or the failure of a worker with an old copy, writes FAILED over a run completed since; the version is unfinalized exactly when storing it timed out |
| TrainingRuns.TrainingService.ClaimTrainingRun | ml-close-loop-be/app/services/training_service.py:150-192 | Wins exactly when the loaded copy has retries left and the row is still claimable; the row after the commit, counter included |
| TrainingRuns.TrainingService.NextClaimableRun | ml-close-loop-be/app/services/training_service.py:68-84 | The run selected is PENDING or STALE, of the highest priority of all that wait, and of these the oldest; none is selected exactly when none waits |
| TrainingRuns.NextExactly | ml-close-loop-be/app/services/training_service.py:68-84 | The queue order in terms of rank and creation time |
| TrainingRuns.TrainingService.TouchHeartbeat | ml-close-loop-be/app/services/training_service.py:195-212 | Counts 1 exactly for a RUNNING run, changes nothing but that run's heartbeat, and the run then lapses exactly after now + threshold |
| TrainingRuns.TrainingService.MarkStaleRuns | ml-close-loop-be/app/services/training_service.py:247-289 | A row changes exactly when it is RUNNING without a heartbeat or with one older than the threshold, and then only in its status, to STALE; no lapsed row is left, and the count is the number of changed rows |
| TrainingRuns.TrainingService.FinishTrainingRun | ml-close-loop-be/app/services/training_service.py:324-377 | Checks the loaded copy, writes the row unconditionally |
| TrainingRuns.TrainingService.RetryTrainingRun | ml-close-loop-be/app/services/training_service.py:393-434 | Only a FAILED run is retried, by a new PENDING run whose every field is given; every existing row stays |
| TrainingRuns.TrainingService.ClaimTwice | ml-close-loop-be/app/services/training_service.py:172-192 | Two claims of one row never both win, whatever the two workers had loaded |
| ClaimProtocol.OneWinnerPerFlip | ml-close-loop-be/app/services/training_service.py:150-192 | In every run, with snapshots of any age, two wins of one run are separated by a reclaim |
| ClaimProtocol.EndedNeverRunsAgain | ml-close-loop-be/app/services/training_service.py:27-33 | A run that is COMPLETED or FAILED never leaves these two |
| ClaimProtocol.OverwriteExactly | ml-close-loop-be/app/services/training_service.py:163-170 | A COMPLETED status is overwritten by exactly two steps: an over-budget claim from an old STALE copy, or the failure of a second holder whose copy still shows RUNNING |
| ClaimProtocol.CompletedCanBeOverwritten | ml-close-loop-be/app/services/training_service.py:163-170 | For every retry limit there is a run in which the first way happens, the holder finishing from a copy it loaded before the run went stale |
| ClaimProtocol.SecondHolderOverwrites | ml-close-loop-be/app/services/training_service.py:175-192 | For every retry limit there is a run in which the second way happens: a worker that selected the run PENDING claims it after it went stale, and fails after the first has completed |
| LockedQueue.BoundedRetries | ml-close-loop-be/app/services/training_service.py:163-171 | With selection and claim as one step, retry_count stays within the limit and a run enters RUNNING once plus once per retry |
| LockedQueue.EndingsAbsorb | ml-close-loop-be/app/services/training_service.py:27-33 | COMPLETED and FAILED rows never change again |
| LockedQueue.ClaimsSpendBudget | ml-close-loop-be/app/services/training_service.py:150-192 | A natural-number measure falls on every claim and rises on no step |
| LockedQueue.SweepReclaimsExactly | ml-close-loop-be/app/services/training_service.py:258-275 | A detector pass makes a run STALE exactly when its last heartbeat is older than the threshold |
| LockedQueue.KeepsItsRunExactly | ml-close-loop-be/app/workers/training_worker.py:97-123 | In every history the worker that claimed a run still has it RUNNING if and only if no sweep came later than the threshold after the last heartbeat it had committed, the claim being the first |
| LockedQueue.AliveKeepsItsRun | ml-close-loop-be/app/workers/training_worker.py:97-123 | A worker whose commits carry heartbeats often enough - none later than the threshold after the heartbeat committed before - keeps its run in every history, however the sweeps fall |
| LockedQueue.CrashedRunRecovered | ml-close-loop-be/app/services/training_service.py:247-275 | Once a dead worker's heartbeat is old enough, one sweep makes its run claimable |
| RefreshTokens.AuthService.RotateRefreshToken | ml-close-loop-be/app/services/auth_service.py:190-235 | Granted if and only if the token decodes, is of type refresh, has an id never used, belongs to a known user and its family is not revoked; reuse kills the family, every other refusal changes nothing, and the rows a grant adds |
| RefreshTokens.AuthService.RevokeRefreshFamily | ml-close-loop-be/app/services/auth_service.py:162-176 | Revoking a family is idempotent |
| RefreshTokens.AuthService.RotateTwice | ml-close-loop-be/app/services/auth_service.py:205-228 | A token works once; presented again it takes its family down |
| RefreshProtocol.OneUnusedToken | ml-close-loop-be/app/services/auth_service.py:102-109 | In every run of concurrent requests each family has exactly one unused refresh token |
| RefreshProtocol.RotatesAtMostOnce | ml-close-loop-be/app/services/auth_service.py:143-159 | No token rotates twice, however many requests present it at once |
| RefreshProtocol.OnlyRefreshTokensRotate | ml-close-loop-be/app/services/auth_service.py:205-216 | In every run a rotation that commits had been asked for with a decoded token of type refresh, with that id and family, of a known user |
| RefreshProtocol.AtMostOneLateRotation | ml-close-loop-be/app/services/auth_service.py:205-228 | After a family's revocation at most one rotation of it still commits |
| RefreshProtocol.LateRotationExactly | ml-close-loop-be/app/services/auth_service.py:205-228 | A late rotation is still possible exactly when a request read the family's unused token before the revocation |
| RefreshProtocol.LateRotationHappens | ml-close-loop-be/app/services/auth_service.py:205-228 | For every family and token ids there is a run with a late rotation |
| RefreshProtocol.RevokedForever | ml-close-loop-be/app/services/auth_service.py:162-176 | Once no such request is pending, no token of a revoked family, old or new, ever rotates again |
| RefreshProtocol.AloneIsAuthService | ml-close-loop-be/app/services/auth_service.py:190-235 | A request that runs alone has the effect of the service's one-shot rotation |
| VersionAllocation.ModelService.LatestVersion | ml-close-loop-be/app/services/model_service.py:123-128 | The first row by descending version is the greatest number in the table |
| VersionAllocation.ModelService.AllocateVersion | ml-close-loop-be/app/services/model_service.py:108-168 | Whatever number of versions others commit before and after each read, the loop succeeds at the first undisturbed attempt of thirty, with one more than all there are by then, and adds that row alone to 1..n |
| Registrations.VersionsAreOneToN | ml-close-loop-be/app/services/model_service.py:108-168 | In every run of workers on any number of hosts, registrations allocating at once included, the committed versions of each model are exactly 1..n |
| Registrations.CompletedRunsAreVersions | ml-close-loop-be/app/workers/training_worker.py:200-235 | While no run is claimed that another transaction still has, COMPLETED runs and versions correspond one to one; a versioned run shows something else only after a late over-budget claim |
| Registrations.OneVersionEachExactly | ml-close-loop-be/app/workers/gpu_lock.py:8-24 | In everything that can happen each run has at most one version if and only if all workers share one host |
| Registrations.OneLockIsEnough | ml-close-loop-be/app/workers/gpu_lock.py:28-53 | With one lock for all workers no run is ever claimed that another transaction still has |
| Registrations.RunRegisteredTwice | ml-close-loop-be/app/workers/gpu_lock.py:8-24 | For any two workers of different hosts there is a run in which one training run gets two versions |
| Registrations.NeverWrittenTwice | ml-close-loop-be/app/services/artifact_storage.py:165-190 | No artifact directory is ever written twice, through any rollbacks |
| Registrations.RefusedExactly | ml-close-loop-be/app/services/artifact_storage.py:177-181 | The store refuses a freshly numbered version exactly when a rolled-back registration left its directory behind |
| Registrations.OrphanStalls | ml-close-loop-be/app/services/model_service.py:191-227 | Such a leftover blocks that number and all later ones while the model's runs keep the base-model slug |
| Registrations.OrphanHappens | ml-close-loop-be/app/workers/training_worker.py:258-269 | For every job there is a run that leaves such a directory |
| Registrations.GivingUpMeansBeaten | ml-close-loop-be/app/services/model_service.py:119-168 | A registration that runs out of attempts lost each of them to another committed version or to a busy database |
| Registrations.BeatenEveryTime | ml-close-loop-be/app/services/model_service.py:119-168 | For any two workers of different hosts there is a run in which all thirty attempts of the one fall to other committed versions |
| VersionNames.SlugShape | ml-close-loop-be/app/services/model_service.py:28-34 | A slug is non-empty, free of slashes, doubled and outer dashes |
| VersionNames.SlugFixesExactly | ml-close-loop-be/app/services/model_service.py:28-34 | The strings left alone are exactly the slugs, so slugging is idempotent |
| VersionNames.SlugJoinsWords | ml-close-loop-be/app/services/model_service.py:28-34 | The slug is the text's maximal runs of letters, digits and dots joined by single dashes, and "model" if there are none |
| VersionNames.SameSlugExactly | ml-close-loop-be/app/services/model_service.py:28-34 | Two texts share a slug exactly when they have the same runs |
| VersionNames.SuffixRecovers | ml-close-loop-be/app/services/model_service.py:37-46 | The decimal after the last dash is the version, whatever comes before |
| VersionNames.LoraNamesDistinct | ml-close-loop-be/app/services/serving.py:194-200 | Distinct (model, version) pairs get distinct adapter names |
| VersionNames.ArtifactPathsDistinct | ml-close-loop-be/app/services/artifact_storage.py:177-183 | Distinct (model, version) pairs get distinct artifact directories |
| VersionNames.NameAloneIsAmbiguous | ml-close-loop-be/app/services/model_service.py:37-46 | The three-part name alone does not: a dash can belong to the model id or to the slug |
| Validation.ValidateDatasetVersion | ml-close-loop-be/app/services/validation_service.py:236-343 | The report of the record loops: codes of every record, counts and gate |
| Validation.NormalizedPairOf | ml-close-loop-be/app/services/validation_service.py:171-186 | The first user and assistant text, each without its outer white space, and only if every message is text |
| Validation.UserContentOf | ml-close-loop-be/app/services/validation_service.py:189-193 | The first user text without its outer white space |
| Validation.StripExactly | ml-close-loop-be/app/services/validation_service.py:171-193 | Stripping leaves the one slice that has nothing but white space around it and none at its ends |
| Validation.FirstTextExactly | ml-close-loop-be/app/services/validation_service.py:171-193 | The text taken is that of the first message with the role and a text, between its outer white space |
| Validation.MarkDuplicates | ml-close-loop-be/app/services/validation_service.py:243-255 | The seen-set loop adds H7 exactly to later repeats and counts them |
| Validation.MarkLeakage | ml-close-loop-be/app/services/validation_service.py:257-269 | H8 exactly on records whose user content is in the eval set |
| Validation.CodesExactly | ml-close-loop-be/app/services/validation_service.py:241-269 | Record i carries H7 exactly when an earlier record has the same pair, and H8 exactly when an eval record has its user content; these are all its errors beside its own |
| Validation.SpacesHideNothing | ml-close-loop-be/app/services/validation_service.py:171-269 | White space put around its texts keeps no record from being a duplicate (H7) or a leak (H8) |
| Validation.DialogueRepeatsExactly | ml-close-loop-be/app/services/validation_service.py:171-255 | Of two dialogues the second carries H7 exactly when both texts agree between their outer white space |
| Validation.GateMeaning | ml-close-loop-be/app/services/validation_service.py:317-343 | PASS exactly when no record carries any error; a leak always fails |
| Validation.DuplicatesAreSurplus | ml-close-loop-be/app/services/validation_service.py:243-255 | duplicate_count is the number of defined pairs minus the number of distinct ones |
| Validation.CountsAreRecords | ml-close-loop-be/app/services/validation_service.py:302-343 | The four counts are numbers of records: those with H7, with H8, without and with errors |
| Validation.CountsIgnoreOrder | ml-close-loop-be/app/services/validation_service.py:241-343 | Permuting the records changes neither count nor whether the gate passes |
| GateOrder.GateDependsOnOrderExactly | ml-close-loop-be/app/services/validation_service.py:241-343 | Two orders of the same records get different gates if and only if nothing leaks and the threshold lies above the fewest invalid records and at most at the fewest plus the pairs that occur both with and without an error of the record's own |
| EvalSets.EvalSetService.ValidatedUserContents | ml-close-loop-be/app/services/eval_set_service.py:27-40 | The nested loops collect exactly the user contents of all stored reports |
| EvalSets.EvalSetService.CreateEvalSetVersion | ml-close-loop-be/app/services/eval_set_service.py:43-84 | Refused exactly on an overlap with some report; otherwise the next version, and no other eval set changes |
| SeparationProtocol.OverlapMeansUnchecked | ml-close-loop-be/app/services/validation_service.py:257-324 | In every history, a report that did not fail and shares content with an eval set was stored after that set's check and not validated against that content |
| SeparationProtocol.NewerExactly | ml-close-loop-be/app/services/eval_set_service.py:43-84 | Of an eval set and an overlapping report that did not fail, the eval set is the newer exactly when the report was stored between the set's check and its storing; with no report in that window never |
| SeparationProtocol.OverlapHappens | ml-close-loop-be/app/services/eval_set_service.py:43-84 | Such an overlap does arise |
| SeparationProtocol.WindowHappens | ml-close-loop-be/app/services/eval_set_service.py:43-84 | And so does one through that window, the eval set stored after the report |
| DatasetPins.IntakeService.ComputeChecksum | ml-close-loop-be/app/services/dataset_storage.py:185-190 | Hashing chunk by chunk is hashing the file |
| DatasetPins.IntakeService.CreateDatasetVersion | ml-close-loop-be/app/services/dataset_service.py:47-92 | The dataset's next number, with no stored file and no report |
| DatasetPins.IntakeService.ValidateIntake | ml-close-loop-be/app/api/intake_validate.py:111-145 | A new version row and a report committed with the hash of the JSON dump, then committed again with the file's hash, if the request survives to that |
| DatasetPins.IntakeService.CommitIntake | ml-close-loop-be/app/api/intake_validate.py:228-343 | Each refusal with its cause, VALIDATION_FAILED exactly for a report whose gate failed, and nothing changed by any; otherwise the object, the row and the two sidecars, with everything else as it was |
| DatasetPins.CommitRefusedExactly | ml-close-loop-be/app/api/intake_validate.py:245-298 | An if and only if for every refusal and for a commit that goes through, in terms of the staged file, the report, its gate and hash, the version and the store |
| DatasetPins.IntakeService.CreateTrainingRun | ml-close-loop-be/app/api/training.py:61-98 | Created exactly for a latest report that passed with records, with the pin snapshot spelled out |
| DatasetPins.RunRefusedExactly | ml-close-loop-be/app/api/training.py:61-98 | An if and only if for every refusal of a run and for its creation |
| DatasetPins.IntakeService.RetryTrainingRun | ml-close-loop-be/app/services/training_service.py:393-418 | A retry of a FAILED run carries its configuration unchanged |
| DatasetPins.IntakeService.ResolveAndRun | ml-close-loop-be/app/services/dataset_pinning.py:143-255 | What the trainer is given, and a refusal fails the run |
| DatasetPins.ResolvedExactly | ml-close-loop-be/app/services/dataset_pinning.py:143-255 | A pin resolves exactly to bytes that are under its key and hash like it, and the named dataset is taken exactly without a pin |
| PinHistory.TrainsOnExaminedBytes | ml-close-loop-be/app/services/dataset_pinning.py:218-255 | In every history a pinned run is refused or trains on bytes hashing like the file or the JSON dump that a passed report of its version examined; never on the unpinned dataset |
| PinHistory.CommittedDidNotFail | ml-close-loop-be/app/api/intake_validate.py:253-298 | In every history a version with a stored object has a report that did not fail, and the object lies under its own dataset and number |
| PinHistory.LineageSharesPin | ml-close-loop-be/app/services/training_service.py:407-418 | All retries of a run resolve as the first one does, whatever the store holds |
| PinHistory.NumbersStayDistinct | ml-close-loop-be/app/services/dataset_service.py:32-44 | In every history the versions of a dataset, from intake or not, have distinct numbers |
| PinHistory.CommittedBytesStay | ml-close-loop-be/app/services/dataset_storage.py:194-224 | A committed payload is never replaced by the service unless it is named like a sidecar, so a pin keeps resolving to the same bytes |
| PinHistory.IntakeRunTrainsExactly | ml-close-loop-be/app/api/intake_validate.py:140-145 | After validate, commit and create, the run can train exactly when what lies under the payload's key hashes like what was validated |
| PinHistory.CommittedPinIsChecked | ml-close-loop-be/app/api/intake_validate.py:265-309 | In every history, while the report a version was committed under is its latest, a run's pinned hash is that of the bytes the commit checked and of those the report examined |
| PinHistory.CommittedRunTrainsExactly | ml-close-loop-be/app/services/dataset_pinning.py:218-255 | In every history such a run can train exactly when the upload hashes like the checked bytes, and then on the upload |
| PinHistory.SealedIsParsed | ml-close-loop-be/app/api/intake_validate.py:92-145 | What intake hashes is what it parsed, whatever else happens, if the staged file is left alone between |
| PinHistory.RevalidatedRunTrainsExactly | ml-close-loop-be/app/api/validation.py:32-91 | After a re-validation from records it can train exactly when the object hashes like the JSON dump |
| DatasetKeys.SanitizedIsSafe | ml-close-loop-be/app/services/dataset_storage.py:48-72 | A sanitized name is one safe path component, and safe trimmed names are exactly those left alone |
| DatasetKeys.SanitizedExactly | ml-close-loop-be/app/services/dataset_storage.py:48-72 | A name comes out exactly when it stands trimmed after the last separator of either kind and is neither empty nor dotted, and the file name holds no NUL; every other file name is refused |
| DatasetKeys.KeysDistinct | ml-close-loop-be/app/services/dataset_storage.py:75-84 | Distinct (dataset, version, file) get distinct object keys, even for dataset ids with slashes |
| Csv.ParseCsvRows | ml-close-loop-fe/app/lib/dataset-format.tsx:43-87 | The scanning loop computes the rows of the character-step specification |
| Csv.ParseInvertsRender | ml-close-loop-fe/app/lib/dataset-format.tsx:43-87 | Every rendering with closed records is read back exactly: cells bare, quoted or with quoted and bare stretches mixed, records closed by LF, CRLF or CR in any mixture - section 2 of RFC 4180 and beyond it |
| Csv.ParseInvertsEncode | ml-close-loop-fe/app/lib/dataset-format.tsx:43-87 | Parsing inverts the all-quoted encoding of every table whose rows have a cell |
| Csv.OpenRecordReadBackExactly | ml-close-loop-fe/app/lib/dataset-format.tsx:82-86 | A last record without line ending is read back exactly unless it is one empty cell |
| Csv.RecordUnique | ml-close-loop-fe/app/lib/dataset-format.tsx:23-41 | A header row and a data row determine one record, the last of repeated headers winning |
| Csv.NonBlankOne | ml-close-loop-fe/app/lib/dataset-format.tsx:23-29 | A row is kept exactly when some character of some cell is no white space |
| Csv.CsvToRecords | ml-close-loop-fe/app/lib/dataset-format.tsx:23-41 | One record per row after the first that is not blank, missing cells as empty strings |
| ArtifactChecksum.ComputeChecksumFromBytes | ml-close-loop-be/app/services/artifact_storage.py:80-90 | The hash loop feeds exactly the sorted framing |
| ArtifactChecksum.PreimageIgnoresOrder | ml-close-loop-be/app/services/artifact_storage.py:80-90 | The preimage does not depend on the listing order |
| ArtifactChecksum.PreimageDeterminesFiles | ml-close-loop-be/app/services/artifact_storage.py:80-90 | For paths without a numeral segment, colon-free ones among them, equal preimages mean equal files |
| ArtifactChecksum.ColonFreeIsSafe | ml-close-loop-be/app/services/artifact_storage.py:80-90 | A path without a colon has no numeral segment |
| ArtifactChecksum.ColonPathsCollide | ml-close-loop-be/app/services/artifact_storage.py:80-90 | Two different file sets with a colon in a path and the same preimage |
| ChecksumAmbiguity.AmbiguousExactly | ml-close-loop-be/app/services/artifact_storage.py:80-90 | For any set of legal names that are UTF-8 and include the few greatest ones: admitting one more name lets two different file sets, files that can exist side by side, have one preimage if and only if that name reads as frames that end in itself |
| ChecksumAmbiguity.FilesAmbiguousExactly | ml-close-loop-be/app/services/artifact_storage.py:80-120 | The same for the relative file paths the checksum meets, and for those the local store hashes |
| ChecksumAmbiguity.LeadingSegmentHarmless | ml-close-loop-be/app/services/artifact_storage.py:80-90 | A name that begins with its numeral segment never collides |
| ChecksumAmbiguity.SegmentWithoutHarm | ml-close-loop-be/app/services/artifact_storage.py:80-90 | A numeral segment alone does not make a path ambiguous |
| ChecksumAmbiguity.BothSidesHavePath | ml-close-loop-be/app/services/artifact_storage.py:80-90 | A collision can need the path on both sides |
| ArtifactStores.DirPreimageInjective | ml-close-loop-be/app/services/artifact_storage.py:111-120 | Two directories have the same preimage exactly when they are equal |
| ArtifactStores.LocalArtifactStorage.FinalizeVersion | ml-close-loop-be/app/services/artifact_storage.py:165-190 | Refuses an existing directory, otherwise stores the files and the checksum of the payload |
| ArtifactStores.LocalArtifactStorage.VerifyChecksum | ml-close-loop-be/app/services/artifact_storage.py:240-249 | True exactly when the recomputed checksum is the recorded one |
| ArtifactStores.LocalArtifactStorage.FinalizeThenVerify | ml-close-loop-be/app/services/artifact_storage.py:165-249 | Finalize then verify succeeds for every staged directory |
| ArtifactStores.MinioArtifactStorage.FinalizeVersion | ml-close-loop-be/app/services/artifact_storage.py:297-335 | Refuses a used prefix, otherwise uploads every file and the metadata over all of them |
| ArtifactStores.MinioArtifactStorage.VerifyChecksum | ml-close-loop-be/app/services/artifact_storage.py:408-436 | True exactly when the objects other than metadata files hash to the recorded checksum |
| ArtifactStores.MinioArtifactStorage.FinalizeThenVerify | ml-close-loop-be/app/services/artifact_storage.py:297-436 | Succeeds exactly when no payload file is named metadata.json or two different preimages have one hash |
| ArtifactStores.TamperingDetected | ml-close-loop-be/app/services/artifact_storage.py:240-249 | A changed directory passes exactly when its preimage and the stored one are two different texts with one hash |
| ArtifactStores.SkippedExactly | ml-close-loop-be/app/services/artifact_storage.py:429 | The suffix test on keys skips exactly the payload files named metadata.json |

## Left out

- The database engine, SQLAlchemy and HTTP: only tables, unique keys, row locks, flushes, commits and rollbacks are kept. Reads see what is committed when they run.
- vLLM, MinIO, paramiko, subprocesses, HuggingFace and the host GPU controller are answers chosen step by step.
- SHA-256, bcrypt, JWT signing and UUIDs: nothing is assumed of the hash but that it is a function; fresh identifiers are fresh.
- `ColabProvider`, `GPUVPSProvider` and the seed script write run statuses outside the worker and are not modelled; the no-op serving coordinator and the mock serving backend, which skip the lock and the cycle, are not either.
- `LocalSubprocessProvider` does not resolve the pin; the dataset results are about runs that `UnslothTrainingRunner` executes.
- The evaluation and drift workers load and unload adapters outside the lock. Of the registry they appear as `Evaluate` transactions; `ReleaseService` and `GpuProtocol` leave their loads out.
- SIGKILL releases the lock and promises no restart; a SIGTERM outside the handler's window is taken as SIGKILL.
- Per-record content rules (H0-H6, H9, PII), license strings, length statistics, notifications other than the notice of a failed production deploy, audit rows, telemetry, idempotency keys and permissions.
- Reading JSONL, JSON, CSV and XLSX files into records on the server, and the rest of the web front end. A header named `__proto__` in JavaScript is treated as any other.
- Floating point: the fail ratio and losses are reals.
- Validation.ValidateDatasetVersion: the two marking loops take the normalized values from lists computed beforehand rather than record by record.
- TrainingRuns.TrainingService.ClaimTrainingRun: the claim and the commit of the worker's session are one step; `Registrations` keeps them apart.
- LockedQueue.KeepsItsRunExactly: one host is assumed, so the lock lets one worker select and claim at a time; `ClaimProtocol` and `Registrations` do without. A sweep is not made to wait for the row of a heartbeat not yet committed, so the result promises no more than that the row's lock would give.
- Registrations.CompletedRunsAreVersions: its hypothesis is that no run is claimed while another open transaction has it; `OneVersionEachExactly` says when that is always so.
- Registrations.RefusedExactly: one artifact store is assumed for all hosts.
- Registrations.VersionsAreOneToN: versions are never deleted, and only runs a worker registers get one.
- ReleaseProtocol.OneDeployedAlways: the index makes a flush wait for any open transaction that has changed which row of the model is DEPLOYED; deadlocks that follow end as rollbacks.
- ReleaseService.ReleaseService.CreateDecision: a failing commit of an endpoint that touches no adapter, which leaves everything as it was, is not modelled; nor is it for the other endpoints of this kind.
- ServingCycle.TrainingWorker.TrainingBlock: heartbeats and progress figures of the row while it trains, and what other workers write between the outcome and the commit, are left to `LockedQueue`, `ClaimProtocol` and `Registrations`.
- ServingCycle.TrainingWorker.RunOnce: as TrainingBlock; the sweep at the start of a turn is left to `LockedQueue` too.
- Serving restarts drop every loaded adapter; the residency contracts of `ReleaseService` hold between restarts only.
- `update_dataset_version` and `delete_dataset_version` have no caller in the service and are not modelled.
- ReleaseService.ReleaseService.MoveAndCommit: an adapter whose load raised is taken as not loaded, and an unload that does not get through as leaving it loaded.
- PinHistory.CommittedPinIsChecked: the report's hash must be in place by the commit; one committed between the two commits of its own intake validation, under the hash of the dump, is left out.
- DatasetPins.IntakeService.CommitIntake: a commit to the database that fails after the upload is not modelled.
- DatasetPins.IntakeService.CreateTrainingRun: reports are stored in the order they ran, so the latest is the last one.
- VersionNames.SlugShape: letters and digits are the ASCII ones the pattern names.
- DatasetKeys.SanitizedIsSafe: which characters count as white space is a parameter.
