/** The CronJob, the recorded backup information and the spec: what every run keeps. */
module BackupAgreement {
  import opened BackupTypes
  import opened BackupMachine
  import opened ApiServer

  /** A version whose spec is the one its CronJob was recorded for. */
  predicate UpToDate(backup: RedisBackup)
  {
    backup.spec.Info() == backup.status.lastBackupInfo
  }

  /** What Reconcile knows at its later stages (v1 API). */
  ghost predicate ThreadKnows(w: World)
    requires w.InRange()
  {
    match w.rec
    case Checked(at) => w.versions[at].spec.Periodic() ==> UpToDate(w.versions[at])
    case Sampled(at, _) => w.versions[at].spec.Periodic() ==> UpToDate(w.versions[at])
    case Recording(at, created) =>
      if created then w.HasCronJob() ==> w.Own().Info() == w.versions[at].spec.Info()
      else UpToDate(w.versions[at])
    case _ => true
  }

  /** The CronJob was built from the recorded information, unless its create still waits for
      its status write. */
  ghost predicate Agrees(w: World)
    requires w.versions != []
  {
    w.HasCronJob() && !w.orphan ==> w.Own().Info() == w.Latest().status.lastBackupInfo
  }

  ghost predicate Consistent(w: World)
  {
    && !w.beta && w.versions != [] && w.InRange()
    && ThreadKnows(w) && Agrees(w)
  }

  lemma ReadsKeepConsistent(w: World, at: nat, claim: string, answer: Answer)
    requires Consistent(w) && at < |w.versions|
    ensures Consistent(Authorise(w, at, answer.api))
    ensures Consistent(Locate(w, at, answer.api))
    ensures Consistent(Find(w, at, claim, answer))
  {
  }

  lemma CreateKeepsConsistent(w: World, at: nat, claim: string, api: Api)
    requires Consistent(w) && at < |w.versions|
    ensures Consistent(Create(w, at, claim, api))
  {
  }

  lemma InspectKeepsConsistent(w: World, at: nat, claim: string, api: Api)
    requires Consistent(w) && at < |w.versions|
    ensures Consistent(Inspect(w, at, claim, api))
  {
  }

  lemma DropKeepsConsistent(w: World, api: Api)
    requires Consistent(w)
    ensures Consistent(Drop(w, api))
  {
  }

  lemma SampleKeepsConsistent(w: World, at: nat, api: Api)
    requires Consistent(w) && w.rec == Checked(at)
    ensures Consistent(Sample(w, at, api))
  {
  }

  lemma AppendKeepsConsistent(w: World, at: nat, record: Condition, api: Api)
    requires Consistent(w) && at < |w.versions| && UpToDate(w.versions[at])
    ensures Consistent(Append(w, at, record, api))
  {
  }

  lemma OverwriteKeepsConsistent(w: World, at: nat, status: Status, api: Api)
    requires Consistent(w) && at < |w.versions|
    requires status.lastBackupInfo == w.versions[at].status.lastBackupInfo
    ensures Consistent(Overwrite(w, at, status, api, Idle(Done)))
  {
  }

  lemma PublishKeepsConsistent(w: World, at: nat, payload: Payload, api: Api)
    requires Consistent(w) && w.rec == Sampled(at, payload)
    ensures Consistent(Publish(w, at, payload, api))
  {
    var status := w.versions[at].status;
    var records := if payload.Records? then payload.list else [];
    if !w.versions[at].spec.Periodic() {
      OverwriteKeepsConsistent(w, at, status.(conditions := records), api);
    } else if records != [] && IsNews(status.conditions, records[0]) {
      AppendKeepsConsistent(w, at, records[0], api);
    }
  }

  lemma RecordKeepsConsistent(w: World, at: nat, created: bool, api: Api)
    requires Consistent(w) && w.rec == Recording(at, created)
    ensures Consistent(Record(w, at, created, api))
  {
  }

  lemma ReconcileKeepsConsistent(w: World, answer: Answer)
    requires Consistent(w)
    ensures Consistent(StepReconcile(w, answer))
  {
    match w.rec
    case Idle(_) =>
    case Fetched(at) => ReadsKeepConsistent(w, at, "", answer);
    case Authorised(at) => ReadsKeepConsistent(w, at, "", answer);
    case Located(at, claim) => ReadsKeepConsistent(w, at, claim, answer);
    case Missing(at, claim) => CreateKeepsConsistent(w, at, claim, answer.api);
    case Present(at, claim) => InspectKeepsConsistent(w, at, claim, answer.api);
    case Rebuild(at) => DropKeepsConsistent(w, answer.api);
    case Checked(at) => SampleKeepsConsistent(w, at, answer.api);
    case Sampled(at, payload) => PublishKeepsConsistent(w, at, payload, answer.api);
    case Recording(at, created) => RecordKeepsConsistent(w, at, created, answer.api);
  }

  lemma LooksKeepConsistent(w: World, cluster: string, claim: string, api: Api, pick: string)
    requires Consistent(w)
    ensures Consistent(Look(w, cluster, api))
    ensures Consistent(List(w, cluster, claim, api, pick))
  {
  }

  lemma DropTargetKeepsConsistent(w: World, target: string, api: Api)
    requires Consistent(w)
    ensures Consistent(DropTarget(w, target, api))
  {
  }

  lemma SyncKeepsConsistent(w: World, api: Api, pick: string)
    requires Consistent(w)
    ensures Consistent(StepSync(w, api, pick))
  {
    match w.sync
    case Resting(_) =>
    case Looking(cluster) => LooksKeepConsistent(w, cluster, "", api, pick);
    case Listing(cluster, claim) => LooksKeepConsistent(w, cluster, claim, api, pick);
    case Dropping(target) => DropTargetKeepsConsistent(w, target, api);
  }

  lemma StepKeepsConsistent(w: World, e: Event)
    requires Consistent(w)
    ensures Consistent(Step(w, e))
  {
    match e
    case ReconcileStep(answer) => ReconcileKeepsConsistent(w, answer);
    case SyncStep(api, pick) => SyncKeepsConsistent(w, api, pick);
    case _ =>
  }

  lemma {:induction false} ExecKeepsConsistent(w: World, run: seq<Event>)
    requires Consistent(w)
    ensures Consistent(Exec(w, run))
    decreases run
  {
    if run != [] {
      StepKeepsConsistent(w, run[0]);
      ExecKeepsConsistent(Step(w, run[0]), run[1..]);
    }
  }

  /** Agreement (v1): after any interleaving of the two handlers' calls with user edits, failovers,
      deletions, failing or unacknowledged calls, stale reads and process exits, a CronJob that
      exists was built from Status.LastBackupInfo, unless its create has no status write yet. */
  lemma AgreementHoldsInEveryRun(start: World, run: seq<Event>)
    requires Initial(start) && !start.beta
    ensures var w := Exec(start, run);
      w.name in w.cronJobs && !w.orphan ==>
        var own, info := w.cronJobs[w.name], w.Latest().status.lastBackupInfo;
        own.secretName == info.secretName && own.url == info.url && own.schedule == info.schedule
  {
    ExecKeepsConsistent(start, run);
  }
}
