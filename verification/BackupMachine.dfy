/** The RedisBackup control loop, call by call.

    A World is everything the two handlers of controllers/redisbackup_controller.go share: the
    stored versions of one RedisBackup resource, the CronJobs of its namespace, its one-shot Job,
    the Redis pods and secrets, the Redis keys the backup scripts write, and how far the running
    Reconcile and the running CycleSync have got. One event is one API call of a handler, or one
    action of somebody else; so any two calls of a handler may have anything between them. */
module BackupMachine {
  import opened Wrappers
  import opened BackupTypes
  import opened ApiServer

  datatype Outcome = Done | Failed | Crashed

  /** How far Reconcile has got; `at` is the version of the resource it works on. */
  datatype Thread =
    | Idle(last: Outcome)
    | Fetched(at: nat)
    | Authorised(at: nat)
    | Located(at: nat, claim: string)
    | Missing(at: nat, claim: string)
    | Present(at: nat, claim: string)
    | Rebuild(at: nat)
    | Checked(at: nat)
    | Sampled(at: nat, payload: Payload)
    | Recording(at: nat, created: bool)

  /** How far CycleSync has got. */
  datatype Sync =
    | Resting(last: Outcome)
    | Looking(cluster: string)
    | Listing(cluster: string, claim: string)
    | Dropping(target: string)

  datatype World = World(
    name: string,                       // the resource, its CronJob and its Job share one name
    beta: bool,                         // the API server serves CronJobs as batch/v1beta1
    versions: seq<RedisBackup>,         // every stored version of the resource, oldest first
    cronJobs: map<string, CronJob>,
    job: Option<Job>,
    pods: map<string, seq<Pod>>,        // the Redis pods of each cluster
    secrets: set<string>,               // the clusters whose password secret exists
    written: map<string, seq<Payload>>, // all values written to a cluster's key "backupCronjob"
    jobKey: map<string, Payload>,       // the value under the resource's own key, by cluster
    rec: Thread,
    sync: Sync,
    orphan: bool)                       // the CronJob's create has no status write yet
  {
    function PodsOf(cluster: string): seq<Pod>
    {
      if cluster in pods then pods[cluster] else []
    }

    function WrittenTo(cluster: string): seq<Payload>
    {
      if cluster in written then written[cluster] else []
    }

    /** What a GET of the key "backupCronjob" returns: the last value written. */
    function Register(cluster: string): Payload
    {
      var all := WrittenTo(cluster);
      if all == [] then Nothing else all[|all| - 1]
    }

    function OwnKey(cluster: string): Payload
    {
      if cluster in jobKey then jobKey[cluster] else Nothing
    }

    function Latest(): RedisBackup
      requires versions != []
    {
      versions[|versions| - 1]
    }

    predicate HasCronJob()
    {
      name in cronJobs
    }

    function Own(): CronJob
      requires HasCronJob()
    {
      cronJobs[name]
    }

    /** The thread's version is one that was stored. */
    predicate InRange()
    {
      rec.Idle? || rec.at < |versions|
    }
  }

  /** What every step keeps, so that the next one makes sense: the stored versions stay as they
      are, and a running Reconcile works on one of them. */
  predicate Extends(before: World, after: World)
  {
    && after.name == before.name && after.beta == before.beta
    && before.versions <= after.versions
    && after.InRange()
  }

  /** What no call of a handler changes. */
  predicate SameSurroundings(before: World, after: World)
  {
    after.pods == before.pods && after.secrets == before.secrets && after.written == before.written &&
      after.jobKey == before.jobKey
  }

  /** Nor does a call that only reads, or that writes the resource only, change these. */
  predicate SameObjects(before: World, after: World)
  {
    after.cronJobs == before.cronJobs && after.job == before.job
  }

  /** A process exit: whatever the handlers held in memory is gone. */
  function Crash(w: World): World
  {
    w.(rec := Idle(Crashed), sync := Resting(Crashed))
  }

  predicate Writable(w: World, at: nat, api: Api)
  {
    at + 1 == |w.versions| && api != Refused
  }

  /** What a caller who got an answer does next, as opposed to one who did not. */
  function Told(api: Api, next: Thread): Thread
  {
    if api == Accepted then next else Idle(Failed)
  }

  // ---------------------------------------------------------------- Reconcile, one call at a time

  function StartReconcile(w: World, at: nat): (after: World)
    ensures w.InRange() ==> Extends(w, after)
    ensures SameSurroundings(w, after) && SameObjects(w, after) && after.versions == w.versions
  {
    if w.rec.Idle? && at < |w.versions| then w.(rec := Fetched(at)) else w
  }

  function Create(w: World, at: nat, claim: string, api: Api): (after: World)
    requires at < |w.versions|
    ensures Extends(w, after)
    ensures SameSurroundings(w, after) && after.versions == w.versions
    ensures after.sync == w.sync && (after.rec.Idle? || after.rec == Recording(at, true))
  {
    var spec := w.versions[at].spec;
    if spec.Periodic() then
      if api == Refused || w.HasCronJob() then w.(rec := Idle(Failed))
      else w.(cronJobs := w.cronJobs[w.name := MakeCronJob(spec, claim)], orphan := true,
              rec := Told(api, Recording(at, true)))
    else
      if api == Refused || w.job.Some? then w.(rec := Idle(Failed))
      else w.(job := Some(MakeJob(spec, claim)), rec := Told(api, Idle(Done)))
  }

  /** The rebuild decision. On v1 it compares the spec with the recorded information and makes
      no call; on v1beta1 it reads the CronJob again and compares the claims. */
  function Inspect(w: World, at: nat, claim: string, api: Api): (after: World)
    requires at < |w.versions|
    ensures Extends(w, after)
    ensures SameSurroundings(w, after) && SameObjects(w, after) && after.versions == w.versions
    ensures (after.sync == w.sync || after.sync.Resting?) &&
      (after.rec.Idle? || after.rec == Checked(at) || after.rec == Rebuild(at))
  {
    var backup := w.versions[at];
    if !backup.spec.Periodic() then w.(rec := Checked(at))
    else if w.beta then
      if api != Accepted then w.(rec := Idle(Failed))
      else if !w.HasCronJob() then Crash(w)
      else if w.Own().claim != claim then w.(rec := Rebuild(at))
      else w.(rec := Checked(at))
    else if backup.spec.Info() != backup.status.lastBackupInfo then w.(rec := Rebuild(at))
    else w.(rec := Checked(at))
  }

  function Drop(w: World, api: Api): (after: World)
    ensures Extends(w, after)
    ensures SameSurroundings(w, after) && after.job == w.job && after.versions == w.versions
    ensures after.sync == w.sync && after.rec.Idle?
  {
    if api == Refused || !w.HasCronJob() then w.(rec := Idle(Failed))
    else w.(cronJobs := w.cronJobs - {w.name}, orphan := false, rec := Told(api, Idle(Done)))
  }

  /** A failed read of Redis is taken for an absent key. */
  function Sample(w: World, at: nat, api: Api): (after: World)
    requires at < |w.versions|
    ensures Extends(w, after)
    ensures SameSurroundings(w, after) && SameObjects(w, after) && after.versions == w.versions
    ensures after.sync == w.sync &&
      (after.rec.Idle? || after.rec == Recording(at, false) || (after.rec.Sampled? && after.rec.at == at))
  {
    var spec := w.versions[at].spec;
    var payload := if api != Accepted then Nothing
                   else if spec.Periodic() then w.Register(spec.clusterName)
                   else w.OwnKey(spec.clusterName);
    if payload != Nothing then w.(rec := Sampled(at, payload))
    else if spec.Periodic() then w.(rec := Recording(at, false))
    else w.(rec := Idle(Done))
  }

  function Overwrite(w: World, at: nat, status: Status, api: Api, next: Thread): (after: World)
    requires at < |w.versions|
    requires next.Idle? || next.at <= at
    ensures Extends(w, after)
    ensures SameSurroundings(w, after) && SameObjects(w, after)
    ensures after.sync == w.sync && (after.rec.Idle? || after.rec == next)
  {
    if !Writable(w, at, api) then w.(rec := Idle(Failed))
    else w.(versions := Store(w.versions, at, RedisBackup(w.versions[at].spec, status)), rec := Told(api, next))
  }

  /** Appending always stores a new version, and the handler goes on with that one. */
  function Append(w: World, at: nat, record: Condition, api: Api): (after: World)
    requires at < |w.versions|
    ensures Extends(w, after)
    ensures SameSurroundings(w, after) && SameObjects(w, after)
    ensures after.sync == w.sync && (after.rec.Idle? || (after.rec.Recording? && !after.rec.created))
  {
    var status := w.versions[at].status;
    if !Writable(w, at, api) then w.(rec := Idle(Failed))
    else
      var next := RedisBackup(w.versions[at].spec, status.(conditions := status.conditions + [record]));
      w.(versions := w.versions + [next], rec := Told(api, Recording(|w.versions|, false)))
  }

  /** The history does not end with this record's file yet. */
  predicate IsNews(history: seq<Condition>, record: Condition)
  {
    history == [] || record.filePath != history[|history| - 1].filePath
  }

  /** A periodic backup appends the first record unless the history already ends with its file;
      a single backup replaces the list. Indexing an empty list ends the process. */
  function Publish(w: World, at: nat, payload: Payload, api: Api): (after: World)
    requires at < |w.versions|
    ensures Extends(w, after)
    ensures SameSurroundings(w, after) && SameObjects(w, after)
    ensures (after.sync == w.sync || after.sync.Resting?) &&
      (after.rec.Idle? || (after.rec.Recording? && !after.rec.created))
  {
    var backup := w.versions[at];
    var records := if payload.Records? then payload.list else [];
    if !backup.spec.Periodic() then
      Overwrite(w, at, backup.status.(conditions := records), api, Idle(Done))
    else if records == [] then Crash(w)
    else if IsNews(backup.status.conditions, records[0]) then Append(w, at, records[0], api)
    else w.(rec := Recording(at, false))
  }

  function Record(w: World, at: nat, created: bool, api: Api): (after: World)
    requires at < |w.versions|
    ensures Extends(w, after)
    ensures SameSurroundings(w, after) && SameObjects(w, after)
    ensures after.sync == w.sync && after.rec.Idle?
  {
    var backup := w.versions[at];
    if !Writable(w, at, api) then w.(rec := Idle(Failed))
    else
      var next := RedisBackup(backup.spec, backup.status.(lastBackupInfo := backup.spec.Info()));
      w.(versions := Store(w.versions, at, next), orphan := w.orphan && !created, rec := Told(api, Idle(Done)))
  }

  /** The answers of the API server to one call: how it ended, and whether a GET found its object.
      The cache a GET reads may be stale, so `seen` need not tell the truth. */
  datatype Answer = Answer(api: Api, seen: bool)

  function Authorise(w: World, at: nat, api: Api): (after: World)
    requires at < |w.versions|
    ensures Extends(w, after)
    ensures SameSurroundings(w, after) && SameObjects(w, after) && after.versions == w.versions
    ensures after.sync == w.sync && (after.rec.Idle? || after.rec == Authorised(at))
  {
    if api == Accepted && w.versions[at].spec.clusterName in w.secrets
    then w.(rec := Authorised(at)) else w.(rec := Idle(Failed))
  }

  function Locate(w: World, at: nat, api: Api): (after: World)
    requires at < |w.versions|
    ensures Extends(w, after)
    ensures SameSurroundings(w, after) && SameObjects(w, after) && after.versions == w.versions
    ensures after.sync == w.sync && (after.rec.Idle? || (after.rec.Located? && after.rec.at == at))
  {
    var selection := if api == Accepted then Select(w.PodsOf(w.versions[at].spec.clusterName)) else NoMaster;
    w.(rec := if selection.Claim? then Located(at, selection.name) else Idle(Done))
  }

  function Find(w: World, at: nat, claim: string, answer: Answer): (after: World)
    requires at < |w.versions|
    ensures Extends(w, after)
    ensures SameSurroundings(w, after) && SameObjects(w, after) && after.versions == w.versions
    ensures after.sync == w.sync &&
      (after.rec.Idle? || after.rec == Present(at, claim) || after.rec == Missing(at, claim))
  {
    w.(rec := if answer.api != Accepted then Idle(Failed)
              else if answer.seen then Present(at, claim)
              else Missing(at, claim))
  }

  /** The stages that may come after one. */
  predicate Follows(before: Thread, after: Thread)
  {
    after.Idle? ||
    match before
    case Idle(_) => false
    case Fetched(at) => after == Authorised(at)
    case Authorised(at) => after.Located? && after.at == at
    case Located(at, claim) => after == Present(at, claim) || after == Missing(at, claim)
    case Missing(at, _) => after == Recording(at, true)
    case Present(at, _) => after == Checked(at) || after == Rebuild(at)
    case Rebuild(_) => false
    case Checked(at) => after == Recording(at, false) || (after.Sampled? && after.at == at)
    case Sampled(_, _) => after.Recording? && !after.created
    case Recording(_, _) => false
  }

  function StepReconcile(w: World, answer: Answer): (after: World)
    requires w.InRange()
    ensures Extends(w, after)
    ensures SameSurroundings(w, after)
    ensures Follows(w.rec, after.rec)
    ensures after.sync == w.sync || after.sync.Resting?
  {
    var api := answer.api;
    match w.rec
    case Idle(_) => w
    case Fetched(at) => Authorise(w, at, api)
    case Authorised(at) => Locate(w, at, api)
    case Located(at, claim) => Find(w, at, claim, answer)
    case Missing(at, claim) => Create(w, at, claim, api)
    case Present(at, claim) => Inspect(w, at, claim, api)
    case Rebuild(at) => Drop(w, api)
    case Checked(at) => Sample(w, at, api)
    case Sampled(at, payload) => Publish(w, at, payload, api)
    case Recording(at, created) => Record(w, at, created, api)
  }

  // ---------------------------------------------------------------- CycleSync, one call at a time

  function StartSync(w: World, at: nat): (after: World)
    ensures w.InRange() ==> Extends(w, after)
    ensures after.rec == w.rec
    ensures SameSurroundings(w, after) && SameObjects(w, after) && after.versions == w.versions
  {
    if w.sync.Resting? && at < |w.versions| then w.(sync := Looking(w.versions[at].spec.clusterName)) else w
  }

  ghost predicate Labelled(w: World, target: string, cluster: string)
  {
    target in w.cronJobs && w.cronJobs[target].clusterLabel == cluster
  }

  ghost predicate NoneLabelled(w: World, cluster: string)
  {
    forall target | target in w.cronJobs :: !Labelled(w, target, cluster)
  }

  /** A failed listing of the pods does not stop CycleSync: it goes on with no claim. */
  function Look(w: World, cluster: string, api: Api): (after: World)
    ensures w.InRange() ==> Extends(w, after)
    ensures after.rec == w.rec
    ensures SameSurroundings(w, after) && SameObjects(w, after) && after.versions == w.versions
  {
    var selection := if api == Accepted then Select(w.PodsOf(cluster)) else Claim("");
    w.(sync := if selection.Claim? then Listing(cluster, selection.name) else Resting(Done))
  }

  ghost function List(w: World, cluster: string, claim: string, api: Api, pick: string): (after: World)
    ensures w.InRange() ==> Extends(w, after)
    ensures after.rec == w.rec || after.rec == Idle(Crashed)
    ensures SameSurroundings(w, after) && SameObjects(w, after) && after.versions == w.versions
  {
    if api != Accepted then Crash(w)
    else if NoneLabelled(w, cluster) then w.(sync := Resting(Done))
    else if !Labelled(w, pick, cluster) then w
    else if w.cronJobs[pick].claim != claim then w.(sync := Dropping(pick))
    else w.(sync := Resting(Done))
  }

  function DropTarget(w: World, target: string, api: Api): (after: World)
    ensures w.InRange() ==> Extends(w, after)
    ensures after.rec == w.rec || after.rec == Idle(Crashed)
    ensures SameSurroundings(w, after) && after.job == w.job && after.versions == w.versions
    ensures after.cronJobs == w.cronJobs || (target in w.cronJobs && after.cronJobs == w.cronJobs - {target})
  {
    if api == Refused || target !in w.cronJobs then Crash(w)
    else
      var dropped :=
        w.(cronJobs := w.cronJobs - {target}, orphan := w.orphan && target != w.name, sync := Resting(Done));
      if api == Lost then Crash(dropped) else dropped
  }

  /** `pick` is the first CronJob of the label's listing. An error of CycleSync ends the process
      (main.go:164). */
  ghost function StepSync(w: World, api: Api, pick: string): (after: World)
    ensures w.InRange() ==> Extends(w, after)
    ensures after.rec == w.rec || after.rec == Idle(Crashed)
    ensures SameSurroundings(w, after) && after.job == w.job && after.versions == w.versions
  {
    match w.sync
    case Resting(_) => w
    case Looking(cluster) => Look(w, cluster, api)
    case Listing(cluster, claim) => List(w, cluster, claim, api, pick)
    case Dropping(target) => DropTarget(w, target, api)
  }

  // ---------------------------------------------------------------- everybody else

  datatype Event =
    | EditSpec(spec: Spec)                            // the user
    | SetPods(cluster: string, list: seq<Pod>)        // restarts and failovers
    | SetSecret(cluster: string, present: bool)
    | CronRun(cluster: string, payload: Payload)      // a CronJob's pod writes "backupCronjob"
    | JobRun(cluster: string, payload: Payload)       // the Job's pod writes its key, or the key expires
    | SetForeign(target: string, foreign: CronJob)    // somebody creates another CronJob
    | DeleteCronJob(target: string)                   // somebody deletes any CronJob, ours included
    | JobRemoved                                      // the TTL controller or a user
    | Exit                                            // the operator's process ends
    | ReconcileStart(at: nat)
    | ReconcileStep(answer: Answer)
    | SyncStart(at: nat)
    | SyncStep(api: Api, pick: string)

  function Edit(w: World, spec: Spec): (after: World)
    requires w.versions != [] && w.InRange()
    ensures Extends(w, after)
  {
    if spec == w.Latest().spec then w
    else w.(versions := w.versions + [RedisBackup(spec, w.Latest().status)])
  }

  function RemoveJob(w: World): (after: World)
    ensures w.InRange() ==> Extends(w, after)
  {
    w.(job := None)
  }

  function Erase(w: World, target: string): (after: World)
    ensures w.InRange() ==> Extends(w, after)
  {
    w.(cronJobs := w.cronJobs - {target}, orphan := w.orphan && target != w.name)
  }

  /** What an event of somebody else does to the cluster. */
  function Environment(w: World, e: Event): (after: World)
    requires !e.EditSpec? && !e.JobRemoved? && !e.DeleteCronJob?
    ensures w.InRange() ==> Extends(w, after)
  {
    match e
    case SetPods(cluster, list) => w.(pods := w.pods[cluster := list])
    case SetSecret(cluster, present) =>
      w.(secrets := if present then w.secrets + {cluster} else w.secrets - {cluster})
    case CronRun(cluster, payload) => w.(written := w.written[cluster := w.WrittenTo(cluster) + [payload]])
    case JobRun(cluster, payload) => w.(jobKey := w.jobKey[cluster := payload])
    case SetForeign(target, foreign) =>
      if target == w.name then w else w.(cronJobs := w.cronJobs[target := foreign])
    case _ => w
  }

  ghost function Step(w: World, e: Event): (after: World)
    requires w.versions != [] && w.InRange()
    ensures Extends(w, after)
  {
    match e
    case EditSpec(spec) => Edit(w, spec)
    case DeleteCronJob(target) => Erase(w, target)
    case JobRemoved => RemoveJob(w)
    case Exit => Crash(w)
    case ReconcileStart(at) => StartReconcile(w, at)
    case ReconcileStep(answer) => StepReconcile(w, answer)
    case SyncStart(at) => StartSync(w, at)
    case SyncStep(api, pick) => StepSync(w, api, pick)
    case _ => Environment(w, e)
  }

  /** The world after a run, one event after the other. */
  ghost function Exec(w: World, run: seq<Event>): (after: World)
    requires w.versions != [] && w.InRange()
    ensures Extends(w, after)
    decreases run
  {
    if run == [] then w
    else Exec(Step(w, run[0]), run[1..])
  }

  lemma {:induction false} ExecAppend(w: World, first: seq<Event>, second: seq<Event>)
    requires w.versions != [] && w.InRange()
    ensures Exec(w, first + second) == Exec(Exec(w, first), second)
    decreases first
  {
    if first == [] {
      assert first + second == second;
    } else {
      assert (first + second)[1..] == first[1..] + second;
      ExecAppend(Step(w, first[0]), first[1..], second);
    }
  }

  /** Nothing has happened yet: the resource has just been created. */
  ghost predicate Initial(w: World)
  {
    && |w.versions| == 1
    && w.versions[0].status == Status(NO_INFO, [])
    && !w.HasCronJob() && w.job == None
    && w.rec.Idle? && w.sync.Resting?
    && !w.orphan
  }

  // ---------------------------------------------------------------- whole handlers, uninterrupted

  /** A Reconcile makes at most seven calls after it has read the resource. */
  const CALLS := 7

  function Steps(w: World, script: seq<Answer>): (after: World)
    requires w.versions != [] && w.InRange()
    ensures Extends(w, after)
    decreases script
  {
    if script == [] then w else Steps(StepReconcile(w, script[0]), script[1..])
  }

  function ReconcileRun(w: World, at: nat, script: seq<Answer>): World
    requires w.versions != [] && w.InRange()
  {
    Steps(StartReconcile(w, at), script)
  }

  /** The same as events of a run. */
  function Calls(script: seq<Answer>): seq<Event>
  {
    if script == [] then [] else [ReconcileStep(script[0])] + Calls(script[1..])
  }

  lemma {:induction false} StepsAreEvents(w: World, script: seq<Answer>)
    requires w.versions != [] && w.InRange()
    ensures Exec(w, Calls(script)) == Steps(w, script)
    decreases script
  {
    if script != [] {
      assert Calls(script)[1..] == Calls(script[1..]);
      StepsAreEvents(StepReconcile(w, script[0]), script[1..]);
    }
  }

  /** An uninterrupted Reconcile is one of the runs of the machine. */
  lemma ReconcileRunIsARun(w: World, at: nat, script: seq<Answer>)
    requires w.versions != [] && w.InRange()
    ensures Exec(w, [ReconcileStart(at)] + Calls(script)) == ReconcileRun(w, at, script)
  {
    var run := [ReconcileStart(at)] + Calls(script);
    assert run[1..] == Calls(script);
    StepsAreEvents(StartReconcile(w, at), script);
  }

  lemma {:induction false} IdleSteps(w: World, script: seq<Answer>)
    requires w.versions != [] && w.rec.Idle?
    ensures Steps(w, script) == w
  {
    if script != [] {
      IdleSteps(w, script[1..]);
    }
  }

  /** The calls a Reconcile has left at most. */
  function CallsLeft(rec: Thread): nat
  {
    match rec
    case Idle(_) => 0
    case Fetched(_) => 7
    case Authorised(_) => 6
    case Located(_, _) => 5
    case Missing(_, _) => 4
    case Present(_, _) => 4
    case Rebuild(_) => 3
    case Checked(_) => 3
    case Sampled(_, _) => 2
    case Recording(_, _) => 1
  }

  /** Whatever the answers, a Reconcile is at its end after these calls. */
  lemma {:induction false} StepsRunOut(w: World, script: seq<Answer>)
    requires w.versions != [] && w.InRange() && CallsLeft(w.rec) <= |script|
    ensures Steps(w, script).rec.Idle?
    decreases script
  {
    if script != [] {
      assert Follows(w.rec, StepReconcile(w, script[0]).rec);
      StepsRunOut(StepReconcile(w, script[0]), script[1..]);
    }
  }

  ghost function SyncSteps(w: World, apis: seq<Api>, pick: string): (after: World)
    requires w.versions != [] && w.InRange()
    ensures Extends(w, after)
    decreases apis
  {
    if apis == [] then w else SyncSteps(StepSync(w, apis[0], pick), apis[1..], pick)
  }

  /** A CycleSync makes at most three calls after it has read the resource. */
  ghost function SyncRun(w: World, at: nat, apis: seq<Api>, pick: string): World
    requires w.versions != [] && w.InRange()
  {
    SyncSteps(StartSync(w, at), apis, pick)
  }

  function SyncCalls(apis: seq<Api>, pick: string): seq<Event>
  {
    if apis == [] then [] else [SyncStep(apis[0], pick)] + SyncCalls(apis[1..], pick)
  }

  lemma {:induction false} SyncStepsAreEvents(w: World, apis: seq<Api>, pick: string)
    requires w.versions != [] && w.InRange()
    ensures Exec(w, SyncCalls(apis, pick)) == SyncSteps(w, apis, pick)
    decreases apis
  {
    if apis != [] {
      assert SyncCalls(apis, pick)[1..] == SyncCalls(apis[1..], pick);
      SyncStepsAreEvents(StepSync(w, apis[0], pick), apis[1..], pick);
    }
  }

  lemma SyncRunIsARun(w: World, at: nat, apis: seq<Api>, pick: string)
    requires w.versions != [] && w.InRange()
    ensures Exec(w, [SyncStart(at)] + SyncCalls(apis, pick)) == SyncRun(w, at, apis, pick)
  {
    var run := [SyncStart(at)] + SyncCalls(apis, pick);
    assert run[1..] == SyncCalls(apis, pick);
    SyncStepsAreEvents(StartSync(w, at), apis, pick);
  }

  lemma {:induction false} RestingSteps(w: World, apis: seq<Api>, pick: string)
    requires w.versions != [] && w.InRange() && w.sync.Resting?
    ensures SyncSteps(w, apis, pick) == w
  {
    if apis != [] {
      RestingSteps(w, apis[1..], pick);
    }
  }
}
