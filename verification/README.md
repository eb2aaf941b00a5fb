# Verification of the Redis operator's handlers and backup scripts

This project models the parts of the operator whose correctness depends on how several writers interleave, and proves
what holds over all their runs. Nothing here is code of the operator; every module is a model with proofs about it.

## What is modelled

**One RedisBackup resource (`Backup*.dfy`).** `BackupMachine` is a transition system. A `World` holds every stored
version of the resource, the CronJobs of the namespace, the one-shot Job, pods, secrets, and the values written to the
Redis keys, together with how far the running Reconcile and the running CycleSync have got. One event is one API call of
a handler, or one action of somebody else: the user edits the spec, a master moves, a cron run writes a record, a TTL
removes the Job, somebody deletes a CronJob, the process ends. A call may be refused, may be applied without an answer
arriving, and a read may be stale; a status write carries the version it was computed from. The stage functions
(`Authorise`, `Locate`, `Find`, `Create`, `Inspect`, `Drop`, `Sample`, `Publish`, `Record`, `Look`, `List`,
`DropTarget`) are the specification. `BackupOperator.Operator` writes the two handlers down as methods over mutable
fields, with the loops and early returns of the Go code, and each method is proved to leave the state that the stage
functions give. The theorems are about all runs of the machine:

* `BackupAgreement`: the CronJob, the recorded information and the spec.
* `BackupRebuild`: when an uninterrupted handler creates or deletes.
* `BackupCauses`: why anything is created or deleted in interleaved runs.
* `BackupCases`: what single handlers do, and the runs after which an obvious claim is false, with exact conditions.
* `BackupOutcomes`: an undisturbed Reconcile in every case, field by field, and what failing calls and lookups out of date
  make of it.
* `BackupFrozen`: what the handlers know, and keep knowing, in a cluster that is left alone.
* `BackupConvergence`: a rank, fair interleavings, and the exact condition for convergence.
* `BackupRestart`: the same from any state the handlers may be in when the cluster is left alone.
* `BackupHistory`: `Status.Conditions` against the records written.

**The backup and recover scripts (`Files`, `PodBackup`, `Cluster*`, `NodeConf`).** Directories and the bucket are maps
from names to files. Every command's outcome is an input, including partial archives, partial uploads and deletes that
fail. The Python list that is both `backup_file_list` and `backup_data["filePath"]` is one heap object here too.

**RedisClone status (`CloneStatus`, `InfoParser`), failover (`MergePatch`, `Failover`), configuration lines
(`ConfigLines`), deep copies (`DeepCopy`).** Two handlers under optimistic concurrency and the INFO parser they share; a
flag lowered by a merge patch (section 2 of RFC 7386); the line splitter and the loop over it; and slices as arrays on
the heap.

## Claims that are false, and what holds instead

* "A CronJob always matches the spec after a Reconcile." A create whose status write is lost, followed by an edit back
  to the recorded information, leaves a wrong CronJob for good: `InterruptedCreateIsNotRepaired` builds that run from
  every suitable state, and `WrongCronJobIsKeptExactlyAfterReturn` gives the exact condition.
* "The handlers always converge." They do, whatever other CronJobs there are and whichever CycleSync finds first, if and
  only if the CronJob is not `Stuck` (`ConvergesExactlyUnlessStuck`). With the agreement and no interrupted create, there
  are two ways to be stuck (`AgreementPreventsSticking`). The CronJob carries the label of another cluster, whose name is
  not part of the recorded information: `RenamedClusterIsStuck`. Or it is on an old claim while another CronJob of the
  cluster is on the master's: CycleSync looks only at the first one listed, so with two backups of one cluster it need
  never see this one (`SecondBackupSticks`, `OtherCronJobHidesOwn`). Without the agreement, an interrupted create
  (`InterruptedCreateSticks`) and a Reconcile that acts on an old version (`StaleCreateSticks`) lead there too.
* "The recorded information is that of a CronJob." A lookup that still sees a deleted CronJob records it although there is
  none (`StaleHitGoesOn`).
* "CycleSync deletes only when the master has moved." A failed listing of the pods makes it delete any CronJob with a
  claim (`CycleSyncDeletes`).
* "The history holds no record twice." It does when the resource is moved to another cluster and back
  (`MovedHistoryRepeats`).
* "A raised flag causes one failover." A read from a stale cache causes another one (`StaleReadAttemptsAgain`).
* "A single backup runs at most once." It runs once per removal of its Job and once more (`OneJobPerRemoval`,
  `RemovedJobIsMadeAgain`).
* "On v1beta1 the recorded information describes the CronJob." Only the claim triggers a rebuild there
  (`BetaRecordsWithoutRebuilding`).
* "Clearing the schedule removes the CronJob." A Reconcile of a spec without a schedule never touches CronJobs (last
  clauses of `ReconcileTouchesOnlyWhatItMust`).
* "A Reconcile always comes to an end." A text under the key that is no list of records, or an empty one, ends the
  process (`MalformedRecordEndsProcess`).
* "A cluster backup always writes a report." `ReportIsWrittenExactlyIf` says when it does.
* "A failed cluster backup leaves nothing in S3." Only if the deletes work; `TakebackLeaves` says what stays otherwise. And
  the older backup files that it uploads with its archives stay in any case (`FailedUploadBucket`).

## Model

| member | source | states |
|---|---|---|
| BackupTypes.SelectIsDecidedByFirstMaster | controllers/redisbackup_controller.go:113-132 | The selection loop of both handlers: the first pod labelled master decides, and only if it is Running and has a claim; pods before and after it do not matter |
| BackupMachine.Exec | controllers/redisbackup_controller.go:80-408 | Every run, whatever its events, leaves all stored versions of the resource as they are, and a running Reconcile works on one of them |
| BackupMachine.StepsRunOut | controllers/redisbackup_controller.go:80-316 | Whatever the answers, a Reconcile has returned after at most seven calls |
| BackupMachine.ReconcileRunIsARun | controllers/redisbackup_controller.go:80-316 | An uninterrupted Reconcile is one of the machine's runs |
| BackupMachine.SyncRunIsARun | controllers/redisbackup_controller.go:318-408 | An uninterrupted CycleSync is one of the machine's runs |
| ApiServer.Store | controllers/redisbackup_controller.go:296-311 | A status write never takes a stored version back; it lands only on the latest one |
| BackupOperator.Operator.UpdateStatus | controllers/redisbackup_controller.go:307 | A write from a stale version is rejected and the caller told; an accepted one adds one version with the same spec |
| BackupOperator.Operator.RecordInfo | controllers/redisbackup_controller.go:305-312 | The last write of a periodic Reconcile, as the machine's Record stage: the information of the version worked on, and the create is no longer unrecorded |
| BackupOperator.Operator.ReplaceConditions | controllers/redisbackup_controller.go:180-194 | A single backup's records replace the list, an unreadable text by an empty one |
| BackupOperator.Operator.ReconcileJob | controllers/redisbackup_controller.go:144-201 | The whole single-backup branch does what the machine's uninterrupted calls do, for every script of answers |
| BackupOperator.Operator.SampleJob | controllers/redisbackup_controller.go:176-200 | The branch in which the Job exists, likewise |
| BackupOperator.Operator.AppendRecord | controllers/redisbackup_controller.go:295-301 | The append is stored from the version read, and the handler goes on with the version it stored |
| BackupOperator.Operator.PublishAndRecord | controllers/redisbackup_controller.go:284-312 | From the sampled text to the end: an empty list ends the process, a new file is appended, the information is recorded |
| BackupOperator.Operator.PublishNews | controllers/redisbackup_controller.go:291-312 | The append happens exactly if the history does not end with that file, and a failed append ends the handler before the information is recorded |
| BackupOperator.Operator.SampleAndRecord | controllers/redisbackup_controller.go:283-312 | The found branch after the rebuild decision does what the machine's calls do |
| BackupOperator.Operator.ReconcileFound | controllers/redisbackup_controller.go:244-303 | Rebuild on another claim (v1beta1, where a CronJob gone in between ends the process) or on other information (v1), otherwise sample and record |
| BackupOperator.Operator.CreateAndRecord | controllers/redisbackup_controller.go:224-239 | Create, then the status write as a second call; a failing create ends the handler |
| BackupOperator.Operator.ReconcileCronJob | controllers/redisbackup_controller.go:202-313 | The whole periodic branch does what the machine's uninterrupted calls do |
| BackupOperator.Operator.ReconcileCluster | controllers/redisbackup_controller.go:102-314 | The loop over the pods with its break and returns computes the selection, and the rest does what the machine's calls do |
| BackupOperator.Operator.Reconcile | controllers/redisbackup_controller.go:80-316 | Reconcile leaves exactly the state of the machine's uninterrupted run, for every version read and every script of answers |
| BackupOperator.Operator.SyncCronJobs | controllers/redisbackup_controller.go:375-407 | The second half of CycleSync: only the first listed CronJob is looked at, and deleted if its claim differs |
| BackupOperator.Operator.CycleSync | controllers/redisbackup_controller.go:318-408 | CycleSync leaves exactly the state of the machine's uninterrupted run; a failed pod listing goes on with an empty claim |
| BackupAgreement.ExecKeepsConsistent | controllers/redisbackup_controller.go:222-313 | The agreement, with what a Reconcile under way knows, is kept by every run (v1) |
| BackupAgreement.AgreementHoldsInEveryRun | controllers/redisbackup_controller.go:224-239 | In every run from a new resource (v1): a CronJob that exists and whose create has its status write has the secret, the URL and the schedule of Status.LastBackupInfo |
| BackupRebuild.StepsKeepTraced | controllers/redisbackup_controller.go:102-313 | At each of its calls an uninterrupted Reconcile has changed nothing yet, or only what the selection and the comparison allow |
| BackupRebuild.ReconcileTouchesOnlyWhatItMust | controllers/redisbackup_controller.go:113-132 | For any answers: the CronJob is deleted only if outdated, created only if absent and for the master's claim; without a usable master nothing at all is created, deleted or written; a spec without schedule leaves CronJobs alone |
| BackupRebuild.CycleSyncTouchesOnlyWhatItMust | controllers/redisbackup_controller.go:353-405 | For any answers CycleSync creates and writes nothing and deletes at most one CronJob, of the label and with another claim than the selected one; with the pods listed and no usable master it deletes none |
| BackupCauses.DeletesAreExplained | controllers/redisbackup_controller.go:245-281 | In every run, with anything interleaved: a CronJob that disappears was deleted by somebody else, or by a Reconcile whose version asks for a CronJob and (v1) is not the recorded one and which had selected a claim and then decided to rebuild, or by a CycleSync that had looked for a claim and then seen another one in this CronJob |
| BackupCauses.CreatesAreExplained | controllers/redisbackup_controller.go:224-239 | In every run the operator makes no CronJob but its own, where there is none, for the version it works on and a claim it had selected on that cluster's master |
| BackupCauses.WritesAreExplained | controllers/redisbackup_controller.go:113-132 | In every run a new version of the resource is an edit by the user, or a status stored over the latest version, with its spec, by a Reconcile that had selected a claim on the master of that spec's cluster |
| BackupCauses.JobsAreExplained | controllers/redisbackup_controller.go:144-171 | In every run the operator makes the Job where there is none, for the version it works on and a claim it had selected on that cluster's master |
| BackupCases.FreshReconcileCreates | controllers/redisbackup_controller.go:224-239 | With every call accepted and no CronJob: it is created for the spec and the master's claim, and recorded |
| BackupCases.FreshReconcileDrops | controllers/redisbackup_controller.go:265-281 | v1: a CronJob whose recorded information is not the spec's is deleted and nothing else changes |
| BackupCases.FreshReconcileKeeps | controllers/redisbackup_controller.go:283-312 | Otherwise it is kept: the record in Redis joins the history if its file is new, the information is recorded, and nothing else in the cluster changes |
| BackupCases.MalformedRecordEndsProcess | controllers/redisbackup_controller.go:284-295 | Exactly a text that is no list of records, or an empty list, ends the process, and then nothing has changed |
| BackupCases.WrongCronJobIsKeptExactlyAfterReturn | controllers/redisbackup_controller.go:265-281 | v1, whatever is in Redis: a Reconcile leaves a CronJob of other information if and only if the spec equals the recorded information while the CronJob does not; only an unrecorded create leads there; otherwise the CronJob is gone |
| BackupCases.InterruptedCreateIsNotRepaired | controllers/redisbackup_controller.go:234-312 | The run that leads there: create, refused status write, edit back to the recorded information, and the next Reconcile keeps the wrong CronJob |
| BackupCases.BetaRecordsWithoutRebuilding | controllers/redisbackup_controller.go:246-263 | v1beta1: a CronJob on the master's claim stays while the spec's information is recorded, so the two agree if and only if they did before |
| BackupCases.CycleSyncDeletes | controllers/redisbackup_controller.go:339-405 | Exactly when CycleSync deletes the first listed CronJob: another claim than a usable master's, or, if the pods cannot be listed, any claim; nothing else changes in either case |
| BackupCases.CycleSyncFindsNone | controllers/redisbackup_controller.go:383-394 | Without a CronJob of the label CycleSync returns and nothing has changed |
| BackupCases.CycleSyncErrorEndsProcess | controllers/redisbackup_controller.go:381-405 | A listing of the CronJobs or a delete that fails ends the process, Reconcile included, with nothing changed; a delete whose answer is lost ends it too, but is carried out |
| BackupCases.OneJobPerRemoval | utils/cronjob.go:132-154 | In every run from a new resource: the creates of the Job that the API server carries out, counted along the run, are its removals, plus one if a Job is there at the end |
| BackupCases.RemovedJobIsMadeAgain | controllers/redisbackup_controller.go:144-171 | After the TTL has removed the Job the next Reconcile makes it again, for the spec and the master's claim |
| BackupOutcomes.StopsWithoutMaster | controllers/redisbackup_controller.go:93-132 | An undisturbed Reconcile without the secret fails, and without a running master with a claim returns; in both cases nothing at all has changed |
| BackupOutcomes.PeriodicCreates | controllers/redisbackup_controller.go:224-239 | No CronJob: it is made with the label, schedule, URL, secret of the spec and the claim of the master, the three recorded fields are those of the spec, and nothing else changes |
| BackupOutcomes.PeriodicDrops | controllers/redisbackup_controller.go:245-281 | An out-of-date CronJob, on v1beta1 by its claim and on v1 by any of the three recorded fields, is deleted, and nothing else changes |
| BackupOutcomes.PeriodicKeeps | controllers/redisbackup_controller.go:283-312 | Otherwise the first record of the last value written joins the history unless its file is the last one there, the three fields are recorded, and nothing else changes; a text that is no list, or an empty list, ends the process with nothing changed |
| BackupOutcomes.KeepsExactlyUpToDate | controllers/redisbackup_controller.go:245-281 | On either API the CronJob is still there afterwards if and only if it was up to date, and no other CronJob is touched |
| BackupOutcomes.SingleCreates | controllers/redisbackup_controller.go:144-171 | A single backup without its Job: it is made with the label, URL, secret of the spec and the claim of the master, and nothing else changes |
| BackupOutcomes.SingleReplaces | controllers/redisbackup_controller.go:176-200 | With the Job there the history is replaced by the list under the key of the resource, by nothing if that text is no list, and stays if the key is absent; the recorded information and everything else stay |
| BackupOutcomes.SingleTwice | controllers/redisbackup_controller.go:176-200 | A second such Reconcile stores nothing |
| BackupOutcomes.ThreeReconcilesSettle | controllers/redisbackup_controller.go:144-313 | From every state with a secret, a master and a readable record, three undisturbed Reconciles settle a resource of either kind on either API: the workload is there and up to date, and a fourth one changes nothing |
| BackupOutcomes.RefusedCallIsTheLast | controllers/redisbackup_controller.go:93-313 | At any stage, after any answers: a call that the server refuses changes nothing and is the last one; Reconcile returns an error, except for the listing of the pods |
| BackupOutcomes.LostWriteIsTheLast | controllers/redisbackup_controller.go:164-312 | A write whose answer is lost is carried out as an accepted one, and is the last call too |
| BackupOutcomes.FailedReadIsAbsence | controllers/redisbackup_controller.go:176-284 | A failed read of Redis is taken for an absent key: a single backup ends, a periodic one goes on to record the information |
| BackupOutcomes.OldVersionStoresNothing | controllers/redisbackup_controller.go:296-311 | Whatever the answers, a Reconcile of any but the latest version stores no status |
| BackupOutcomes.StaleMissFails | controllers/redisbackup_controller.go:157-239 | If the lookup does not see a workload that is there, the create fails and nothing has changed |
| BackupOutcomes.StaleHitGoesOn | controllers/redisbackup_controller.go:245-312 | If the lookup still sees a CronJob that is gone: v1beta1 ends the process, v1 fails if it would delete it, and otherwise records the information of a CronJob that does not exist |
| BackupFrozen.TurnsAreEvents | controllers/redisbackup_controller.go:80-408 | A turn of either handler is one event of the machine, whichever CronJob CycleSync finds first |
| BackupFrozen.KnownStays | controllers/redisbackup_controller.go:222-405 | In a cluster left alone, a handler that has started since then knows only what is true, and what it knows stays true whatever the other one does |
| BackupConvergence.TurnDescends | controllers/redisbackup_controller.go:222-313 | Left alone, every call of either handler keeps the rank or lowers it, some handler's next call lowers it, and at rank zero the resource is not written |
| BackupConvergence.FairRunsConverge | controllers/redisbackup_controller.go:222-313 | With any other CronJobs of the cluster and whichever CycleSync finds first: every fair interleaving from a state that is not stuck reaches a point from which on the CronJob is the one the spec and the master ask for, its information is recorded, the record is in the history, and the resource does not change |
| BackupConvergence.ConvergesExactlyUnlessStuck | controllers/redisbackup_controller.go:353-405 | From a rest the handlers converge in every fair behaviour, whichever CronJob CycleSync finds first, if and only if the CronJob is not stuck |
| BackupConvergence.AgreementPreventsSticking | controllers/redisbackup_controller.go:137-141 | With the agreement and no unrecorded create, stuck means exactly: recorded information equal to the spec's, and either the label of another cluster, or an old claim while another CronJob of the cluster is on the master's |
| BackupConvergence.RenamedClusterIsStuck | controllers/redisbackup_controller.go:137-141 | From every converged rest, changing only the cluster's name to one that has all a backup needs makes the CronJob stuck, with the agreement intact |
| BackupConvergence.SecondBackupSticks | controllers/redisbackup_controller.go:390-405 | With two backups of one cluster: from a converged rest, after a move of the master and the renewal of the other backup's CronJob, the own CronJob is stuck, with the agreement intact |
| BackupConvergence.OtherCronJobHidesOwn | controllers/redisbackup_controller.go:395-405 | If CycleSync finds another CronJob of the cluster on the master's claim first, both handlers run to their end and delete nothing |
| BackupConvergence.InterruptedCreateSticks | controllers/redisbackup_controller.go:234-312 | The run of InterruptedCreateIsNotRepaired ends with a stuck CronJob, before and after the Reconcile that keeps it |
| BackupRestart.FairRunsSettle | controllers/redisbackup_controller.go:80-408 | From any state of the handlers, however stale: every fair behaviour comes to a turn from which on both know only what is true; from there it converges unless the CronJob is stuck at every later turn; it does converge if the CronJob is not stuck then, and does not if CycleSync cannot see it |
| BackupRestart.StaleCreateSticks | controllers/redisbackup_controller.go:222-239 | From every rest without a CronJob and with the information recorded, a run with every call accepted: edit, a Reconcile that looks for the CronJob in vain, edit back, and its next call makes the CronJob for the other spec, which is stuck |
| BackupHistory.EventsMove | controllers/redisbackup_controller.go:283-303 | Every event changes versions, written records and the sampled value in one of six ways |
| BackupHistory.HistoryRefinesTheWrites | controllers/redisbackup_controller.go:283-303 | From a new periodic resource, whatever records the shared key holds already, in every run: Status.Conditions is an order-preserving subsequence of the records written, no two neighbours share a file, and with distinct files no record appears twice |
| BackupHistory.MovedHistoryRepeats | controllers/redisbackup_controller.go:291-295 | It fails across clusters: from every settled state, moving the resource to another cluster and back, with a Reconcile after each edit and no write, appends the record found first a second time |
| BackupHistory.NothingIsLost | controllers/redisbackup_controller.go:283-303 | In every run, with anything interleaved: if between any two writes to the key one Reconcile samples it and goes on to its end, and no write reuses the file before it, the history is the whole sequence of records from the one found at the start, but for the last if that has not been sampled; once it has, all of it |
| BackupHistory.SampledRunsAreSeen | controllers/redisbackup_controller.go:291-312 | Such a run has each record in the history before the next one overwrites it, and a record whose sampling Reconcile has returned is in the history until the next write |
| BackupHistory.KeepingReconcileSees | controllers/redisbackup_controller.go:283-303 | One uninterrupted Reconcile that keeps the CronJob is such a sampling |
| BackupHistory.KeepingReconcileRecords | controllers/redisbackup_controller.go:283-312 | One uninterrupted Reconcile that finds and keeps the CronJob takes the record in Redis through all phases: it is the sampling that NothingIsLost asks for |
| BackupHistory.BackupsAreRecorded | controllers/redisbackup_controller.go:291-302 | Any number of backups of changing files, each followed by a whole Reconcile that finds the CronJob: every record joins the history, in order and once |
| BackupHistory.BackupsAreARun | python/redis_backup.py:72-86 | That sequence of backups and Reconciles is a run of the machine |
| BackupHistory.BackupsAreSampled | python/redis_backup.py:72-86 | And it meets what NothingIsLost asks for, at every write |
| Files.PutAt | python/redis_backup.py:34-37 | An upload with a glob stores exactly the matching files that were sent, each under the URL and its name, and leaves every other object |
| PodBackup.Script.Backup | python/redis_backup.py:26-69 | Always one record under one path; it says Succeed exactly if the upload went through; with a good archive the object then holds exactly the files of /data with a dot in their name that are not hidden; every file named as a backup is uploaded and then removed but for those rm fails on, and no other file is touched |
| PodBackup.Script.RedisConn | python/redis_backup.py:72-81 | The key is overwritten, only the key of a single backup expires, and a failing connection changes nothing |
| PodBackup.Script.Run | python/redis_backup.py:84-86 | Afterwards the key holds one well-formed record of this run whose path names the archive if both archive and upload went well; other keys are untouched |
| ClusterBackup.Script.Compensate | python/redis_cluster_backup.py:69-74 | The loop of deletes removes exactly the listed objects whose delete works |
| ClusterBackup.Script.Upload | python/redis_cluster_backup.py:60-84 | The second loop with takeback and report, against its specification function |
| ClusterBackup.Script.Backup | python/redis_cluster_backup.py:24-86 | The script with its shared list, against its specification function: disk, bucket, outcome and at most one report |
| ClusterBackupLaws.NamesAreInjective | python/redis_cluster_backup.py:49-56 | Archive names and paths of one run differ between directories |
| ClusterBackupLaws.FindEnd | python/redis_cluster_backup.py:40-84 | Every run ends at the count, at one archive, at one upload, or completes |
| ClusterBackupLaws.UploadedSoFar | python/redis_cluster_backup.py:61-79 | While uploads go on, exactly the archives of the directories done are in the bucket, and the other directories hold theirs |
| ClusterBackupLaws.CompleteUploads | python/redis_cluster_backup.py:49-84 | A completed run has stored for every directory, under URL, base name and directory name, an archive of exactly the files its volume held at the start that are not hidden |
| ClusterBackupLaws.TakebackLeaves | python/redis_cluster_backup.py:67-76 | After a failed upload an archive of the run is in the bucket if and only if it had been sent and its delete fails |
| ClusterBackupLaws.AllOrNothing | python/redis_cluster_backup.py:41-84 | With fresh names and working deletes: Succeed means that every volume has its archive in the bucket with exactly its files that are not hidden, any other end means that none has, for any listing, failing step and leftover archives |
| ClusterBackupLaws.CompleteBucket | python/redis_cluster_backup.py:61-79 | After Succeed, every object under the URL: it is the archive or the older backup file of the last listed directory that has one of its name, and if none has, what it was before |
| ClusterBackupLaws.FailedUploadBucket | python/redis_cluster_backup.py:67-76 | After a failed upload, every object under the URL: gone if it is this run's and its delete works, else what the failing upload has sent, else as the uploads before it have left it; so older backup files stay |
| ClusterBackupLaws.OnlyOwnObjectsAreRemoved | python/redis_cluster_backup.py:69-74 | An object whose path is none of this run's is never removed, with no assumption on names |
| ClusterBackupLaws.ReportIsFaithful | python/redis_cluster_backup.py:26-84 | Succeed lists every path in listing order with the sum of the sizes; Failed has size 0 and, through the shared list, exactly the archives made; an abort writes no report |
| ClusterBackupLaws.ReportIsWrittenExactlyIf | python/redis_cluster_backup.py:40-58 | A report is written if and only if the count is a number and it is wrong, or some archive is the first to fail, or every directory could be entered, archived and sized |
| ClusterBackupLaws.MiscountTouchesNothing | python/redis_cluster_backup.py:40-44 | With another number of directories than primaries, or a number that cannot be read, nothing is touched; only in the first case is there a report |
| ClusterBackupLaws.WhatIsLeftOnTheVolumes | python/redis_cluster_backup.py:47-79 | After Succeed every directory holds what it held, and of the files named as backups, its archive among them, only those that rm failed to remove; after a failed upload the same of those before it, and the others hold their archive besides what they held; otherwise the bucket is untouched |
| ClusterBackupLaws.FirstPhaseFailureLeaves | python/redis_cluster_backup.py:47-58 | If making an archive ends the run: the directories before it hold their archives, it holds what it held and what tar has left, every other one and the bucket are as they were |
| NodeConf.RewriteReplacesTheSecondField | python/redis_cluster_recover.py:41 | Only the text between the first and the second space is replaced |
| NodeConf.RewriteCoversEveryLine | python/redis_cluster_recover.py:41 | Every line with a space is of that form, every other line stays |
| NodeConf.RewriteLineTwice | python/redis_cluster_recover.py:41 | Rewriting a line twice is rewriting it once |
| NodeConf.RewriteTwice | python/redis_cluster_recover.py:41 | The same for whole files |
| ClusterRecover.IndexOf | python/redis_cluster_recover.py:28-33 | list.index: the first position of the URL |
| ClusterRecover.Script.Recover | python/redis_cluster_recover.py:12-50 | The loop over the URLs, against its specification function |
| ClusterRecover.RecoveredTwice | python/redis_cluster_recover.py:39-46 | Unpacking the same archive into a directory again changes nothing |
| ClusterRecover.RecoveryPlacesFirstOccurrences | python/redis_cluster_recover.py:22-46 | After a successful recovery data-j holds, exactly if URL j is a first occurrence, every file of that archive over what it held, and in node.conf the second field of every line is 127.0.0.1:6379@16379 while the rest stays; every other directory is untouched; only the fetched file itself may be left over, and not if rm works |
| ClusterRecover.FailureLeavesRecoveredPrefix | python/redis_cluster_recover.py:34-50 | A failed recovery leaves the URLs before the failing one recovered in that sense; of the rest only its directory may have changed: a failed fetch adds at most the fetched file, a failed unpacking leaves the files that arrived, every other file, and a node.conf rewritten all the same |
| ClusterRecover.RecoverableSucceeds | python/redis_cluster_recover.py:22-46 | If every URL is an archive and every volume is there without a file of the fetched name, the recovery goes through; for repeated URLs the fetched files must be removable |
| ClusterRecover.LeftoverStopsRepeat | python/redis_cluster_recover.py:29-46 | A recovery that succeeds has removed the fetched file of every URL that comes again |
| ClusterRecover.LeftoverOfLastFetch | python/redis_cluster_recover.py:34-46 | data-j is left with the fetched file exactly if rm fails at the last URL so far that equals URL j; it is the object fetched, or the file of that name in the archive |
| ClusterRoundTrip.BackupThenRecover | python/redis_cluster_recover.py:22-46 | Recovering from the comma-joined paths of a Succeed report puts every file of the k-th listed volume that is not hidden into data-k over what was there, with the second field of every line of node.conf replaced, and leaves the fetched file over only if rm fails |
| ClusterRoundTrip.RecoveredIntoEmpty | python/redis_cluster_recover.py:39-46 | Into an empty volume exactly the files that are not hidden come back, equal but for the lines of node.conf |
| InfoParser.Parse | controllers/redisclone_controller.go:129-135 | The parsing loop computes the table of the lines |
| InfoParser.EntryMeansOneColon | controllers/redisclone_controller.go:131-134 | A line counts as an entry if and only if it is key, colon, value with no further colon |
| InfoParser.LookupFindsLastEntry | controllers/redisclone_controller.go:127-138 | For any text a key's value is that of the last line that is an entry of the key, else the empty string |
| InfoParser.PrintThenParse | controllers/redisclone_controller.go:206-217 | Printing pairs without colons and line breaks and parsing them back gives the last value of each key |
| InfoParser.ReturnsStayInValues | controllers/redisclone_controller.go:208-217 | With CRLF lines every value keeps its CR |
| CloneStatus.Controller.ReconcileClone | controllers/redisclone_controller.go:75-150 | Reconcile stores a condition started anew, unless the pods cannot be listed or its version is stale |
| CloneStatus.Controller.SyncCloneInfo | controllers/redisclone_controller.go:152-235 | CloneInfoSync stores the refreshed condition under the same conditions |
| CloneStatus.UninterruptedHandler | controllers/redisclone_controller.go:75-235 | In a run, a handler that nothing comes between stores what its method stores, from any version it has read; only a refused write or a failed listing of the pods stores nothing |
| CloneStatus.RunsAreSerializable | controllers/redisclone_controller.go:141-149 | Any interleaving of any number of handlers and edits stores the versions of a serial execution of the successful ones in write order, so no update is lost |
| CloneStatus.SnapshotIsStable | controllers/redisclone_controller.go:171-179 | Once StartTime is set, no refresh and no edit changes it or the fields taken from the spec |
| CloneStatus.HandlersDescribe | controllers/redisclone_controller.go:91-179 | A Reconcile, and a refresh of a clone without a start time, take each of these fields from the spec and the time from the clock; any other refresh keeps all of them |
| CloneStatus.ReconcileDescribesUntilEdit | controllers/redisclone_controller.go:91-101 | After a successful Reconcile source, destination, type and replicas are each the field of the spec of that name, and the address is IP, colon, port, whatever handlers come next, until the next edit |
| CloneStatus.RunsDescribeUntilEdit | controllers/redisclone_controller.go:91-235 | The same over every interleaving: from the last successful Reconcile on, until an edit succeeds |
| CloneStatus.RunsKeepSnapshot | controllers/redisclone_controller.go:152-235 | The stability over every interleaving in which no Reconcile succeeds |
| CloneStatus.FailedProbeKeepsOffset | controllers/redisclone_controller.go:91-222 | A failed probe keeps the last offset and sets lag to -1 and status to down; a Reconcile's starts with neither offset nor lag and with status down |
| CloneStatus.ProbeReportsLastEntries | controllers/redisclone_controller.go:127-138 | After a successful probe each of the three fields is the value in the last line of the INFO text that is an entry of its key, and empty if no line is, for either handler |
| MergePatch.ApplyToNonObject | controllers/redisoperate_controller.go:92 | A patch without nulls replaces whatever is no object (section 2 of RFC 7386) |
| MergePatch.ApplyDiff | controllers/redisoperate_controller.go:90-92 | The patch computed between two objects turns the first into the second |
| MergePatch.ApplyDiffElsewhere | controllers/redisoperate_controller.go:90-92 | Applied to a third object it leaves every member alone in which the two do not differ |
| Failover.DecodeEncode | api/v1alpha1/redisoperate_types.go:27-34 | Fields left out when zero are read back as zero |
| Failover.LoweringPatchIsNull | controllers/redisoperate_controller.go:90-92 | The patch consists of a null for the flag |
| Failover.PatchLowersOnlyTheFlag | controllers/redisoperate_controller.go:90-92 | Whatever was edited since the read, the patch lowers the flag and keeps the rest of the stored resource |
| Failover.Controller.Reconcile | controllers/redisoperate_controller.go:54-103 | One attempt exactly if the flag is 1 and a sentinel is listed; the flag drops unless the patch is refused; an empty list ends the process |
| Failover.UninterruptedHandler | controllers/redisoperate_controller.go:54-103 | In a run, a handler that reads the latest version and is not interrupted asks once exactly if the flag is 1 and there is a sentinel, and lowers the flag alone exactly if the patch is not refused |
| Failover.RunsBalance | controllers/redisoperate_controller.go:78-100 | In every run, reads of any version included, raises and attempts are balanced against withdrawals, landed and lost patches; patches that find the flag down are at most the withdrawals and the attempts made too late |
| Failover.FinishAppliesPatch | controllers/redisoperate_controller.go:90-92 | A patch that lands gives the latest version with the patch computed from the version read applied |
| Failover.OneAttemptPerRaise | controllers/redisoperate_controller.go:78-100 | In every run, once no handler is under way: the attempts are the raises that are not up any more plus the lost patches, if no raise is withdrawn and no attempt is made on a stale read after the drop; otherwise they differ by at most one for each of these |
| Failover.OneAttemptUntilDrop | controllers/redisoperate_controller.go:78-100 | From any raised flag with no handler under way, while the user leaves the flag alone: every attempt but one has lost its patch, the flag is down exactly if that one has landed, and only attempts on stale reads after that come on top |
| Failover.NoAttemptWithoutFlag | controllers/redisoperate_controller.go:78 | While the flag is down and nobody raises it no attempt is made but on a stale read, and none at all if reads are fresh |
| Failover.StaleReadAttemptsAgain | controllers/redisoperate_controller.go:58-100 | The stale read is real: one raise, an attempt whose patch lands, and a second attempt |
| ConfigLines.SplittingIsInverse | utils/redis/redisclient.go:327-333 | An error exactly if the line has no space; otherwise parameter, space, value give the line back and the parameter has no space |
| ConfigLines.SplittingIsUnique | utils/redis/redisclient.go:327-333 | Any space-free parameter and any value are recovered from their line |
| ConfigLines.StopAt | utils/redis/redisclient.go:301-309 | The first line that is malformed or rejected |
| ConfigLines.LastLineWins | utils/redis/redisclient.go:301-309 | A parameter has the value of the last line applied that sets it, or what it had before |
| ConfigLines.Server.SetCustomRedisConfig | utils/redis/redisclient.go:292-311 | The settings are those of the lines before the first malformed or rejected one; an error exactly if there is one |
| DeepCopy.CopySlice | api/v1alpha1/zz_generated.deepcopy.go:244-248 | A fresh array with equal elements; nil stays nil |
| DeepCopy.CopyBackup | api/v1alpha1/zz_generated.deepcopy.go:168-174 | An equal value in fresh arrays |
| DeepCopy.CopyItems | api/v1alpha1/zz_generated.deepcopy.go:200-204 | Equal values item by item, no two of which share an array even if the originals do |
| DeepCopy.BackupList.DeepCopyInto | api/v1alpha1/zz_generated.deepcopy.go:195-206 | The copy has an equal value in storage of its own and the original is unchanged |
| DeepCopy.WriteCondition | api/v1alpha1/zz_generated.deepcopy.go:250-254 | A write to a condition changes that one, no list that shares no storage with this one, and no item that does not share the array, whatever items share among themselves |
| DeepCopy.WriteJobStatus | api/v1alpha1/zz_generated.deepcopy.go:244-248 | The same for a write to an element of the job status |
| DeepCopy.CopyThenWrite | api/v1alpha1/zz_generated.deepcopy.go:195-206 | A write to a copy changes one item of it and nothing of the original |
| DeepCopy.CopyThenWriteOriginal | api/v1alpha1/zz_generated.deepcopy.go:195-206 | A write to the original leaves the copy with the value that was copied, even if items of the original share arrays |
| Text.JoinSplit | utils/redis/redisclient.go:328-332 | Joining undoes splitting |
| Text.SplitJoin | python/redis_cluster_recover.py:22 | Splitting undoes joining of separator-free parts |

## Left out

RedisBackup:

- One resource is modelled. Other resources, other handlers' deletes and users are events of the environment, which may
  do anything to CronJobs of other names and delete ours; that somebody else creates a CronJob under our name, and that
  the resource is deleted and made again, are not modelled.
- Reads of the resource and of the Job or CronJob may be stale; pods, secrets, the CronJob listing and the Redis keys are
  read as they are at the time of the call.
- A read error of the resource other than NotFound: Reconcile goes on with an empty object (lines 84-91), whose secret
  "-redis-auth" cannot be found, so it has no effect.
- The first volume of a pod is taken to be a claim. ExpireDays, JobStatus, node selector, tolerations, the container
  environment and owner references are not modelled.
- An empty claim name of a running master is treated like no master, as the code does, but the two are one case here.
- Which API version serves CronJobs (getCronJobVersion) is a constant of the World; CycleSync lists the v1 type.
- The decoded part of a text that is only partly valid JSON: a text is absent, not a list of records, or a list.
- BackupHistory.HistoryRefinesTheWrites: like BackupHistory.NothingIsLost only for runs that stay periodic and on one
  cluster; after a change of cluster the list mixes the records of several keys, and a single backup replaces it.
- BackupConvergence.FairRunsConverge: like BackupRestart.FairRunsSettle it assumes that the handlers keep being fired and
  that every call is accepted.

Scripts:

- The contents of archives beyond names and files: no nested directories, permissions or compression. `du` and `ls` are
  inputs of a run. The backup URL ends in a slash, as s3cmd needs for several files.
- `reports` are the values redis_conn is called with; that it swallows connection errors is modelled in PodBackup only.
- /data/data-k is the k-th volume; s3cmd get refuses to overwrite a file, which is its default.
- The cluster scripts' records are not connected to the controller: their path is a list and their size a number there.

Others:

- A failover's own result is logged only, so it is not an input. In runs an empty sentinel list is a step without effect.
- SetCustomSentinelConfig is the same loop with another command. Whether the server accepts a line is an input.
- Connection handling, passwords and the clock of the clone handlers: the INFO text, the number of pods and the time are
  inputs.
- Deep copies of the other types repeat the same pattern; object metadata is one opaque value.
- Manager start-up, informers, schemes, RBAC, CRD manifests and the files that are commented out entirely.
