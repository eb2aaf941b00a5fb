/** When the handlers create and delete, and the cases in which a reader would expect otherwise. */
module BackupRebuild {
  import opened BackupTypes
  import opened BackupMachine
  import opened ApiServer
  import opened BackupAgreement

  // ---------------------------------------------------------------- one uninterrupted Reconcile

  function Master(w: World, at: nat): Selection
    requires at < |w.versions|
  {
    Select(w.PodsOf(w.versions[at].spec.clusterName))
  }

  /** Why a Reconcile of version `at` may delete the CronJob: on v1beta1 its claim is not the
      master's, on v1 the spec is not the one recorded. */
  predicate Outdated(w: World, at: nat)
    requires at < |w.versions|
  {
    && w.versions[at].spec.Periodic() && w.HasCronJob()
    && Master(w, at).Claim?
    && if w.beta then w.Own().claim != Master(w, at).name else !UpToDate(w.versions[at])
  }

  predicate Created(before: World, at: nat, after: World)
    requires at < |before.versions|
  {
    && before.versions[at].spec.Periodic() && !before.HasCronJob() && Master(before, at).Claim?
    && after.cronJobs == before.cronJobs[before.name := MakeCronJob(before.versions[at].spec, Master(before, at).name)]
  }

  predicate Dropped(before: World, at: nat, after: World)
    requires at < |before.versions|
  {
    Outdated(before, at) && after.cronJobs == before.cronJobs - {before.name}
  }

  predicate Untouched(before: World, after: World)
  {
    after.cronJobs == before.cronJobs && after.job == before.job && after.versions == before.versions
  }

  /** What a Reconcile of version `at` may have done. */
  predicate Allowed(before: World, at: nat, now: World)
    requires at < |before.versions|
  {
    && (now.cronJobs == before.cronJobs || Created(before, at, now) || Dropped(before, at, now))
    && (!Master(before, at).Claim? ==> Untouched(before, now))
    && (before.versions[at].spec.Periodic() ==> now.job == before.job)
  }

  /** Where an uninterrupted Reconcile of version `at` can be. */
  predicate Traced(before: World, at: nat, now: World)
    requires at < |before.versions|
  {
    && now.name == before.name && now.beta == before.beta && now.pods == before.pods
    && before.versions <= now.versions && now.InRange()
    && match now.rec
       case Idle(_) => Allowed(before, at, now)
       case Fetched(v) => v == at && Untouched(before, now)
       case Authorised(v) => v == at && Untouched(before, now)
       case Located(v, claim) => v == at && Untouched(before, now) && Master(before, at) == Claim(claim)
       case Missing(v, claim) => v == at && Untouched(before, now) && Master(before, at) == Claim(claim)
       case Present(v, claim) => v == at && Untouched(before, now) && Master(before, at) == Claim(claim)
       case Rebuild(v) => v == at && Untouched(before, now) && (before.HasCronJob() ==> Outdated(before, at))
       case Checked(v) => v == at && Untouched(before, now) && Master(before, at).Claim?
       case Sampled(v, _) => v == at && Untouched(before, now) && Master(before, at).Claim?
       case Recording(_, _) => Allowed(before, at, now) && Master(before, at).Claim?
  }

  lemma ReadsKeepTraced(before: World, at: nat, now: World, answer: Answer)
    requires at < |before.versions| && Traced(before, at, now)
    requires now.rec.Fetched? || now.rec.Authorised? || now.rec.Located?
    ensures Traced(before, at, StepReconcile(now, answer))
  {
    assert now.versions[at] == before.versions[at];
  }

  lemma InspectKeepsTraced(before: World, at: nat, now: World, api: Api)
    requires at < |before.versions| && Traced(before, at, now) && now.rec.Present?
    ensures Traced(before, at, Inspect(now, now.rec.at, now.rec.claim, api))
  {
  }

  lemma CreateKeepsTraced(before: World, at: nat, now: World, api: Api)
    requires at < |before.versions| && Traced(before, at, now) && now.rec.Missing?
    ensures Traced(before, at, Create(now, now.rec.at, now.rec.claim, api))
  {
  }

  lemma DropKeepsTraced(before: World, at: nat, now: World, api: Api)
    requires at < |before.versions| && Traced(before, at, now) && now.rec.Rebuild?
    ensures Traced(before, at, Drop(now, api))
  {
  }

  lemma SampleKeepsTraced(before: World, at: nat, now: World, api: Api)
    requires at < |before.versions| && Traced(before, at, now) && now.rec.Checked?
    ensures Traced(before, at, Sample(now, now.rec.at, api))
  {
  }

  lemma RecordKeepsTraced(before: World, at: nat, now: World, api: Api)
    requires at < |before.versions| && Traced(before, at, now) && now.rec.Recording?
    ensures Traced(before, at, Record(now, now.rec.at, now.rec.created, api))
  {
    var after := Record(now, now.rec.at, now.rec.created, api);
    assert now.versions <= after.versions && after.rec.Idle?;
    assert after.cronJobs == now.cronJobs && after.job == now.job;
  }

  lemma OverwriteKeepsTraced(before: World, at: nat, now: World, status: Status, api: Api)
    requires at < |before.versions| && Traced(before, at, now) && now.rec.Sampled?
    ensures Traced(before, at, Overwrite(now, at, status, api, Idle(Done)))
  {
  }

  lemma AppendKeepsTraced(before: World, at: nat, now: World, record: Condition, api: Api)
    requires at < |before.versions| && Traced(before, at, now) && now.rec.Sampled?
    ensures Traced(before, at, Append(now, at, record, api))
  {
    var after := Append(now, at, record, api);
    assert now.versions <= after.versions && (after.rec.Idle? || after.rec.Recording?);
    assert after.cronJobs == now.cronJobs && after.job == now.job;
  }

  lemma PublishKeepsTraced(before: World, at: nat, now: World, api: Api)
    requires at < |before.versions| && Traced(before, at, now) && now.rec.Sampled?
    ensures Traced(before, at, Publish(now, now.rec.at, now.rec.payload, api))
  {
    var payload := now.rec.payload;
    var records := if payload.Records? then payload.list else [];
    OverwriteKeepsTraced(before, at, now, now.versions[at].status.(conditions := records), api);
    if records != [] {
      AppendKeepsTraced(before, at, now, records[0], api);
    }
  }

  lemma StepKeepsTraced(before: World, at: nat, now: World, answer: Answer)
    requires at < |before.versions| && Traced(before, at, now)
    ensures Traced(before, at, StepReconcile(now, answer))
  {
    match now.rec
    case Idle(_) =>
    case Fetched(_) => ReadsKeepTraced(before, at, now, answer);
    case Authorised(_) => ReadsKeepTraced(before, at, now, answer);
    case Located(_, _) => ReadsKeepTraced(before, at, now, answer);
    case Missing(_, _) => CreateKeepsTraced(before, at, now, answer.api);
    case Present(_, _) => InspectKeepsTraced(before, at, now, answer.api);
    case Rebuild(_) => DropKeepsTraced(before, at, now, answer.api);
    case Checked(_) => SampleKeepsTraced(before, at, now, answer.api);
    case Sampled(_, _) => PublishKeepsTraced(before, at, now, answer.api);
    case Recording(_, _) => RecordKeepsTraced(before, at, now, answer.api);
  }

  lemma {:induction false} StepsKeepTraced(before: World, at: nat, now: World, script: seq<Answer>)
    requires at < |before.versions| && Traced(before, at, now) && now.versions != []
    ensures Traced(before, at, Steps(now, script))
    decreases script
  {
    if script != [] {
      StepKeepsTraced(before, at, now, script[0]);
      StepsKeepTraced(before, at, StepReconcile(now, script[0]), script[1..]);
    }
  }

  /** Rebuild soundness, for any answers of the API server and any version read. */
  lemma ReconcileTouchesOnlyWhatItMust(w: World, at: nat, script: seq<Answer>)
    requires w.versions != [] && w.rec.Idle? && at < |w.versions|
    ensures var after := ReconcileRun(w, at, script);
      && (w.HasCronJob() && !after.HasCronJob() ==> Outdated(w, at))
      && (after.HasCronJob() && (!w.HasCronJob() || after.Own() != w.Own()) ==>
            !w.HasCronJob() && Master(w, at).Claim? &&
              after.Own() == MakeCronJob(w.versions[at].spec, Master(w, at).name))
      && after.cronJobs - {w.name} == w.cronJobs - {w.name}
      && (!Master(w, at).Claim? ==> Untouched(w, after))
      && (!w.versions[at].spec.Periodic() ==> after.cronJobs == w.cronJobs)
      && (w.versions[at].spec.Periodic() ==> after.job == w.job)
  {
    StepsKeepTraced(w, at, StartReconcile(w, at), script);
  }

  // ---------------------------------------------------------------- one uninterrupted CycleSync

  /** Why a CycleSync of version `at` may delete a CronJob of the label: its claim is not the
      master's or, if the pods could not be listed, it has a claim. */
  ghost predicate Misplaced(w: World, at: nat, listed: bool, target: string)
    requires at < |w.versions|
  {
    && Labelled(w, target, w.versions[at].spec.clusterName)
    && if listed then Master(w, at).Claim? && w.cronJobs[target].claim != Master(w, at).name
       else w.cronJobs[target].claim != ""
  }

  ghost predicate SyncDropped(before: World, at: nat, listed: bool, target: string, now: World)
    requires at < |before.versions|
  {
    Misplaced(before, at, listed, target) && now.cronJobs == before.cronJobs - {target}
  }

  /** Where it can be once it has asked for the pods. */
  ghost predicate SyncTraced(before: World, at: nat, listed: bool, now: World)
    requires at < |before.versions|
  {
    && now.versions == before.versions && now.job == before.job
    && match now.sync
       case Resting(_) =>
         now.cronJobs == before.cronJobs || exists target :: SyncDropped(before, at, listed, target, now)
       case Looking(_) => false
       case Listing(cluster, claim) =>
         && now.cronJobs == before.cronJobs && cluster == before.versions[at].spec.clusterName
         && if listed then Master(before, at) == Claim(claim) else claim == ""
       case Dropping(target) => now.cronJobs == before.cronJobs && Misplaced(before, at, listed, target)
  }

  lemma DropTargetKeepsTraced(before: World, at: nat, listed: bool, now: World, api: Api)
    requires at < |before.versions| && SyncTraced(before, at, listed, now) && now.sync.Dropping?
    ensures SyncTraced(before, at, listed, DropTarget(now, now.sync.target, api))
  {
    var target, after := now.sync.target, DropTarget(now, now.sync.target, api);
    assert after.cronJobs == before.cronJobs || SyncDropped(before, at, listed, target, after);
  }

  lemma ListKeepsTraced(before: World, at: nat, listed: bool, now: World, api: Api, pick: string)
    requires at < |before.versions| && SyncTraced(before, at, listed, now) && now.sync.Listing?
    ensures SyncTraced(before, at, listed, List(now, now.sync.cluster, now.sync.claim, api, pick))
  {
    assert Labelled(now, pick, now.sync.cluster) <==> Labelled(before, pick, now.sync.cluster);
  }

  lemma {:induction false} SyncStepsKeepTraced(before: World, at: nat, listed: bool, now: World, apis: seq<Api>,
    pick: string)
    requires at < |before.versions| && SyncTraced(before, at, listed, now) && now.versions != [] && now.InRange()
    ensures SyncTraced(before, at, listed, SyncSteps(now, apis, pick))
    decreases apis
  {
    if apis != [] {
      match now.sync {
        case Resting(_) =>
        case Listing(_, _) => ListKeepsTraced(before, at, listed, now, apis[0], pick);
        case Dropping(_) => DropTargetKeepsTraced(before, at, listed, now, apis[0]);
      }
      SyncStepsKeepTraced(before, at, listed, StepSync(now, apis[0], pick), apis[1..], pick);
    }
  }

  /** The same for CycleSync, for any answers: it makes and writes nothing, and deletes at most one
      CronJob, of the label and misplaced; so with the pods listed and no usable master, none. */
  lemma CycleSyncTouchesOnlyWhatItMust(w: World, at: nat, apis: seq<Api>, pick: string)
    requires w.versions != [] && w.InRange() && w.sync.Resting? && at < |w.versions| && apis != []
    ensures var after, listed := SyncRun(w, at, apis, pick), apis[0] == Accepted;
      && after.versions == w.versions && after.job == w.job
      && (after.cronJobs == w.cronJobs || exists target :: SyncDropped(w, at, listed, target, after))
      && (listed && !Master(w, at).Claim? ==> after.cronJobs == w.cronJobs)
  {
    var looking := StartSync(w, at);
    var asked := Look(looking, w.versions[at].spec.clusterName, apis[0]);
    assert StepSync(looking, apis[0], pick) == asked;
    SyncStepsKeepTraced(w, at, apis[0] == Accepted, asked, apis[1..], pick);
    assert SyncRun(w, at, apis, pick) == SyncSteps(asked, apis[1..], pick);
  }
}
