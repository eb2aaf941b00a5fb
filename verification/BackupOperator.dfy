/** The two handlers of controllers/redisbackup_controller.go as methods over the cluster's state.
    Each is proved to do exactly what the machine does when nothing interrupts it; the machine's
    runs (BackupAgreement, BackupConvergence, BackupHistory) then cover the interruptions. */
module BackupOperator {
  import opened Wrappers
  import opened BackupTypes
  import opened BackupMachine
  import opened ApiServer

  lemma StepsFrom(w: World, script: seq<Answer>, i: nat)
    requires w.versions != [] && w.InRange() && i < |script|
    ensures Steps(w, script[i..]) == Steps(StepReconcile(w, script[i]), script[i + 1..])
  {
    assert script[i..][1..] == script[i + 1..];
  }

  /** The last call of a handler: the answers left over are never used. */
  lemma StepsEnd(w: World, script: seq<Answer>, i: nat)
    requires w.versions != [] && w.InRange() && i < |script|
    requires StepReconcile(w, script[i]).rec.Idle?
    ensures Steps(w, script[i..]) == StepReconcile(w, script[i])
  {
    StepsFrom(w, script, i);
    IdleSteps(StepReconcile(w, script[i]), script[i + 1..]);
  }

  lemma RecordingEnds(w: World, script: seq<Answer>)
    requires w.versions != [] && w.InRange() && w.rec.Recording? && script != []
    ensures Steps(w, script) == Record(w, w.rec.at, w.rec.created, script[0].api)
  {
    assert script[0..] == script;
    StepsEnd(w, script, 0);
  }

  lemma PublishingEnds(w: World, script: seq<Answer>)
    requires w.versions != [] && w.InRange() && w.rec.Sampled? && script != []
    requires Publish(w, w.rec.at, w.rec.payload, script[0].api).rec.Idle?
    ensures Steps(w, script) == Publish(w, w.rec.at, w.rec.payload, script[0].api)
  {
    assert script[0..] == script;
    StepsEnd(w, script, 0);
  }

  lemma RebuildEnds(w: World, script: seq<Answer>)
    requires w.versions != [] && w.InRange() && w.rec.Rebuild? && script != []
    ensures Steps(w, script) == Drop(w, script[0].api)
  {
    assert script[0..] == script;
    StepsEnd(w, script, 0);
  }

  lemma SteppedOnce(w: World, script: seq<Answer>)
    requires w.versions != [] && w.InRange() && script != []
    ensures Steps(w, script) == Steps(StepReconcile(w, script[0]), script[1..])
  {
  }

  lemma SamplesFirst(w: World, at: nat, script: seq<Answer>)
    requires w.versions != [] && w.InRange() && w.rec == Checked(at) && script != []
    ensures Steps(w, script) == Steps(Sample(w, at, script[0].api), script[1..])
  {
    assert StepReconcile(w, script[0]) == Sample(w, at, script[0].api);
  }

  lemma SamplesPayload(w: World, at: nat, payload: Payload, script: seq<Answer>)
    requires at < |w.versions| && w.rec == Checked(at) && script != [] && w.versions[at].spec.Periodic()
    requires payload == if script[0].api != Accepted then Nothing else w.Register(w.versions[at].spec.clusterName)
    ensures Steps(w, script)
      == Steps(w.(rec := if payload != Nothing then Sampled(at, payload) else Recording(at, false)), script[1..])
  {
    SamplesFirst(w, at, script);
  }

  class Operator {
    const name: string
    const beta: bool
    var versions: seq<RedisBackup>
    var cronJobs: map<string, CronJob>
    var job: Option<Job>
    var pods: map<string, seq<Pod>>
    var secrets: set<string>
    var written: map<string, seq<Payload>>
    var jobKey: map<string, Payload>
    ghost var orphan: bool

    /** The state as a World in which the handlers have got this far. */
    ghost function Snapshot(rec: Thread, sync: Sync): World
      reads this
    {
      World(name, beta, versions, cronJobs, job, pods, secrets, written, jobKey,
            rec, sync, orphan)
    }

    /** The state is that of `end`, in which Reconcile has returned with this outcome. */
    ghost predicate Ended(end: World, outcome: Outcome)
      reads this
    {
      end.rec == Idle(outcome) && Snapshot(end.rec, end.sync) == end
    }

    /** r.Status().Update: whether the caller is told that its write went through. */
    method UpdateStatus(at: nat, status: Status, api: Api) returns (told: bool)
      requires at < |versions|
      modifies this`versions
      ensures var before := old(versions);
        versions == if at + 1 == |before| && api != Refused
                    then Store(before, at, RedisBackup(before[at].spec, status)) else before
      ensures told <==> at + 1 == |old(versions)| && api == Accepted
    {
      var current := at + 1 == |versions|;
      if current && api != Refused && versions[at].status != status {
        versions := versions + [RedisBackup(versions[at].spec, status)];
      }
      told := current && api == Accepted;
    }

    /** The last write of a periodic Reconcile (lines 305-313). */
    method RecordInfo(at: nat, created: bool, api: Api) returns (outcome: Outcome)
      requires at < |versions|
      modifies this
      ensures Ended(Record(old(Snapshot(Recording(at, created), Resting(Done))), at, created, api), outcome)
    {
      ghost var current := at + 1 == |versions|;
      var backup := versions[at];
      var told := UpdateStatus(at, backup.status.(lastBackupInfo := backup.spec.Info()), api);
      if current && api != Refused {
        orphan := orphan && !created;
      }
      outcome := if told then Done else Failed;
    }

    /** r.Client.Create of the workload (lines 157-171 and 225-239). */
    method CreateWorkload(at: nat, claim: string, api: Api) returns (outcome: Outcome)
      requires at < |versions|
      modifies this
      ensures var end := Create(old(Snapshot(Missing(at, claim), Resting(Done))), at, claim, api);
        && Snapshot(end.rec, end.sync) == end
        && end.rec == if outcome == Failed then Idle(Failed)
                      else if versions[at].spec.Periodic() then Recording(at, true)
                      else Idle(outcome)
    {
      var spec := versions[at].spec;
      if api == Refused || (if spec.Periodic() then name in cronJobs else job.Some?) {
        return Failed;
      }
      if spec.Periodic() {
        cronJobs := cronJobs[name := MakeCronJob(spec, claim)];
        orphan := true;
      } else {
        job := Some(MakeJob(spec, claim));
      }
      outcome := if api == Accepted then Done else Failed;
    }

    /** The record of a single backup replaces the list (lines 180-194). */
    method ReplaceConditions(at: nat, payload: Payload, api: Api) returns (outcome: Outcome)
      requires at < |versions| && !versions[at].spec.Periodic()
      modifies this
      ensures Ended(Publish(old(Snapshot(Sampled(at, payload), Resting(Done))), at, payload, api), outcome)
    {
      var records := if payload.Records? then payload.list else [];
      var told := UpdateStatus(at, versions[at].status.(conditions := records), api);
      outcome := if told then Done else Failed;
    }

    /** The single backup (lines 144-201), from the GET of the Job on. */
    method ReconcileJob(at: nat, claim: string, script: seq<Answer>) returns (outcome: Outcome)
      requires at < |versions| && !versions[at].spec.Periodic() && |script| == 5
      modifies this
      ensures Ended(Steps(old(Snapshot(Located(at, claim), Resting(Done))), script), outcome)
    {
      ghost var w0 := Snapshot(Located(at, claim), Resting(Done));
      assert script[0..] == script;
      StepsFrom(w0, script, 0);
      ghost var w1 := StepReconcile(w0, script[0]);
      if script[0].api != Accepted {
        IdleSteps(w1, script[1..]);
        return Failed;
      }
      if !script[0].seen {
        assert StepReconcile(w1, script[1]) == Create(w1, at, claim, script[1].api);
        StepsEnd(w1, script, 1);
        outcome := CreateWorkload(at, claim, script[1].api);
        return;
      }
      StepsFrom(w1, script, 1);
      assert StepReconcile(w1, script[1]) == Snapshot(Checked(at), Resting(Done));
      outcome := SampleJob(at, script[2..]);
    }

    method SampleJob(at: nat, script: seq<Answer>) returns (outcome: Outcome)
      requires at < |versions| && !versions[at].spec.Periodic() && |script| == 3
      modifies this
      ensures Ended(Steps(old(Snapshot(Checked(at), Resting(Done))), script), outcome)
    {
      ghost var w0 := Snapshot(Checked(at), Resting(Done));
      SamplesFirst(w0, at, script);
      ghost var w1 := Sample(w0, at, script[0].api);
      var payload := ReadKey(versions[at].spec, script[0].api);
      if payload == Nothing {
        IdleSteps(w1, script[1..]);
        outcome := Done;
      } else {
        assert w1 == Snapshot(Sampled(at, payload), Resting(Done));
        PublishingEnds(w1, script[1..]);
        outcome := ReplaceConditions(at, payload, script[1].api);
      }
    }

    /** RedisConn: the value under the key of this kind of backup, nothing if the read fails. */
    method ReadKey(spec: Spec, api: Api) returns (payload: Payload)
      ensures payload == var w := Snapshot(Idle(Done), Resting(Done));
        if api != Accepted then Nothing
        else if spec.Periodic() then w.Register(spec.clusterName) else w.OwnKey(spec.clusterName)
    {
      if api != Accepted {
        payload := Nothing;
      } else if spec.Periodic() {
        var all := if spec.clusterName in written then written[spec.clusterName] else [];
        payload := if all == [] then Nothing else all[|all| - 1];
      } else {
        payload := if spec.clusterName in jobKey then jobKey[spec.clusterName] else Nothing;
      }
    }

    /** The append of the newest record (lines 295-301). */
    method AppendRecord(at: nat, record: Condition, api: Api) returns (told: bool)
      requires at < |versions|
      modifies this
      ensures var end := Append(old(Snapshot(Idle(Done), Resting(Done))), at, record, api);
        && Snapshot(end.rec, end.sync) == end
        && end.rec == if told then Recording(|versions| - 1, false) else Idle(Failed)
    {
      var status := versions[at].status;
      told := UpdateStatus(at, status.(conditions := status.conditions + [record]), api);
    }

    /** Lines 284-313: the record has been read. */
    method PublishAndRecord(at: nat, payload: Payload, script: seq<Answer>) returns (outcome: Outcome)
      requires at < |versions| && versions[at].spec.Periodic() && |script| == 2
      modifies this
      ensures Ended(Steps(old(Snapshot(Sampled(at, payload), Resting(Done))), script), outcome)
    {
      ghost var w0 := Snapshot(Sampled(at, payload), Resting(Done));
      SteppedOnce(w0, script);
      ghost var w1 := Publish(w0, at, payload, script[0].api);
      assert StepReconcile(w0, script[0]) == w1;
      var records := if payload.Records? then payload.list else [];
      if records == [] {
        IdleSteps(w1, script[1..]);
        return Crashed;
      }
      outcome := PublishNews(at, records[0], script, w1);
    }

    method PublishNews(at: nat, record: Condition, script: seq<Answer>, ghost next: World) returns (outcome: Outcome)
      requires at < |versions| && |script| == 2
      requires next == if IsNews(versions[at].status.conditions, record)
                       then Append(Snapshot(Idle(Done), Resting(Done)), at, record, script[0].api)
                       else Snapshot(Recording(at, false), Resting(Done))
      modifies this
      ensures Ended(Steps(next, script[1..]), outcome)
    {
      var now := at;
      if IsNews(versions[at].status.conditions, record) {
        var told := AppendRecord(at, record, script[0].api);
        if !told {
          IdleSteps(next, script[1..]);
          return Failed;
        }
        now := |versions| - 1;
      }
      assert next == Snapshot(Recording(now, false), Resting(Done));
      RecordingEnds(next, script[1..]);
      outcome := RecordInfo(now, false, script[1].api);
    }

    /** The found branch of a periodic backup after the rebuild decision (lines 283-313). */
    method SampleAndRecord(at: nat, script: seq<Answer>) returns (outcome: Outcome)
      requires at < |versions| && versions[at].spec.Periodic() && |script| == 3
      modifies this
      ensures Ended(Steps(old(Snapshot(Checked(at), Resting(Done))), script), outcome)
    {
      ghost var w0 := Snapshot(Checked(at), Resting(Done));
      var payload := ReadKey(versions[at].spec, script[0].api);
      SamplesPayload(w0, at, payload, script);
      outcome := RecordSampled(at, payload, script[1..]);
    }

    /** What is left when the key has been read (lines 284-313). */
    method RecordSampled(at: nat, payload: Payload, script: seq<Answer>) returns (outcome: Outcome)
      requires at < |versions| && versions[at].spec.Periodic() && |script| == 2
      modifies this
      ensures var rec := if payload != Nothing then Sampled(at, payload) else Recording(at, false);
        Ended(Steps(old(Snapshot(rec, Resting(Done))), script), outcome)
    {
      if payload != Nothing {
        outcome := PublishAndRecord(at, payload, script);
      } else {
        RecordingEnds(Snapshot(Recording(at, false), Resting(Done)), script);
        outcome := RecordInfo(at, false, script[0].api);
      }
    }

    /** r.Client.Delete of the own CronJob (lines 257-262 and 274-279). */
    method DropOwn(api: Api, ghost at: nat) returns (outcome: Outcome)
      requires at < |versions|
      modifies this
      ensures Ended(Drop(old(Snapshot(Rebuild(at), Resting(Done))), api), outcome)
    {
      if api == Refused || name !in cronJobs {
        return Failed;
      }
      cronJobs := cronJobs - {name};
      orphan := false;
      outcome := if api == Accepted then Done else Failed;
    }

    /** The periodic backup (lines 202-313), from the GET of the CronJob on. */
    method ReconcileCronJob(at: nat, claim: string, script: seq<Answer>) returns (outcome: Outcome)
      requires at < |versions| && versions[at].spec.Periodic() && |script| == 5
      modifies this
      ensures Ended(Steps(old(Snapshot(Located(at, claim), Resting(Done))), script), outcome)
    {
      ghost var w0 := Snapshot(Located(at, claim), Resting(Done));
      assert script[0..] == script;
      StepsFrom(w0, script, 0);
      ghost var w1 := StepReconcile(w0, script[0]);
      if script[0].api != Accepted {
        IdleSteps(w1, script[1..]);
        return Failed;
      }
      if !script[0].seen {
        outcome := CreateAndRecord(at, claim, script[1..]);
        return;
      }
      outcome := ReconcileFound(at, claim, script[1..]);
    }

    /** The found branch (lines 244-303): rebuild, or sample and record. */
    method ReconcileFound(at: nat, claim: string, script: seq<Answer>) returns (outcome: Outcome)
      requires at < |versions| && versions[at].spec.Periodic() && |script| == 4
      modifies this
      ensures Ended(Steps(old(Snapshot(Present(at, claim), Resting(Done))), script), outcome)
    {
      ghost var w0 := Snapshot(Present(at, claim), Resting(Done));
      SteppedOnce(w0, script);
      ghost var w1 := Inspect(w0, at, claim, script[0].api);
      assert StepReconcile(w0, script[0]) == w1;
      var backup := versions[at];
      if beta && (script[0].api != Accepted || name !in cronJobs) {
        IdleSteps(w1, script[1..]);
        return if script[0].api != Accepted then Failed else Crashed;
      }
      var outdated := if beta then cronJobs[name].claim != claim
                      else backup.spec.Info() != backup.status.lastBackupInfo;
      if outdated {
        assert w1 == Snapshot(Rebuild(at), Resting(Done));
        RebuildEnds(w1, script[1..]);
        outcome := DropOwn(script[1].api, at);
      } else {
        assert w1 == Snapshot(Checked(at), Resting(Done));
        outcome := SampleAndRecord(at, script[1..]);
      }
    }

    /** The CronJob does not exist yet (lines 224-239 and 305-313). */
    method CreateAndRecord(at: nat, claim: string, script: seq<Answer>) returns (outcome: Outcome)
      requires at < |versions| && versions[at].spec.Periodic() && |script| == 4
      modifies this
      ensures Ended(Steps(old(Snapshot(Missing(at, claim), Resting(Done))), script), outcome)
    {
      ghost var w0 := Snapshot(Missing(at, claim), Resting(Done));
      assert script[0..] == script;
      StepsFrom(w0, script, 0);
      ghost var w1 := Create(w0, at, claim, script[0].api);
      outcome := CreateWorkload(at, claim, script[0].api);
      if outcome == Failed {
        IdleSteps(w1, script[1..]);
      } else {
        StepsEnd(w1, script, 1);
        outcome := RecordInfo(at, true, script[1].api);
      }
    }

    /** Reconcile (lines 80-316). It leaves the cluster as the machine's uninterrupted run does. */
    method Reconcile(at: nat, script: seq<Answer>) returns (outcome: Outcome)
      requires at < |versions| && |script| == CALLS
      modifies this
      ensures Ended(ReconcileRun(old(Snapshot(Idle(Done), Resting(Done))), at, script), outcome)
    {
      ghost var w0 := Snapshot(Fetched(at), Resting(Done));
      assert StartReconcile(Snapshot(Idle(Done), Resting(Done)), at) == w0;
      assert script[0..] == script;
      StepsFrom(w0, script, 0);
      ghost var w1 := StepReconcile(w0, script[0]);
      var spec := versions[at].spec;
      if script[0].api != Accepted || spec.clusterName !in secrets {
        IdleSteps(w1, script[1..]);
        return Failed;
      }
      outcome := ReconcileCluster(at, script[1..]);
    }

    /** Reconcile from the listing of the pods on (lines 102-314). */
    method ReconcileCluster(at: nat, script: seq<Answer>) returns (outcome: Outcome)
      requires at < |versions| && |script| == 6
      modifies this
      ensures Ended(Steps(old(Snapshot(Authorised(at), Resting(Done))), script), outcome)
    {
      ghost var w0 := Snapshot(Authorised(at), Resting(Done));
      assert script[0..] == script;
      StepsFrom(w0, script, 0);
      ghost var w1 := Locate(w0, at, script[0].api);
      if script[0].api != Accepted {
        IdleSteps(w1, script[1..]);
        return Done;
      }
      var spec := versions[at].spec;
      var list := if spec.clusterName in pods then pods[spec.clusterName] else [];
      var backupPvc := "";
      var k := 0;
      while k < |list|
        invariant k <= |list| && backupPvc == ""
        invariant forall j | 0 <= j < k :: list[j].role != "master"
      {
        if list[k].role == "master" {
          SelectIsDecidedByFirstMaster(list, k);
          if list[k].phase == "Running" {
            backupPvc := list[k].claim;
            break;
          } else {
            IdleSteps(w1, script[1..]);
            return Done;
          }
        }
        k := k + 1;
      }
      if k == |list| {
        SelectIsDecidedByFirstMaster(list, k);
      }
      if backupPvc == "" {
        IdleSteps(w1, script[1..]);
        return Done;
      }
      if spec.Periodic() {
        outcome := ReconcileCronJob(at, backupPvc, script[1..]);
      } else {
        outcome := ReconcileJob(at, backupPvc, script[1..]);
      }
    }

    /** CycleSync (lines 318-408). `first` is the head of the label's CronJob listing, if any. An
        error makes the caller end the process, so it is reported as Crashed. */
    method CycleSync(at: nat, apis: seq<Api>, first: Option<string>) returns (outcome: Outcome)
      requires at < |versions| && |apis| == 3
      requires first.Some? ==> Labelled(Snapshot(Idle(Done), Resting(Done)), first.value, versions[at].spec.clusterName)
      requires first.None? ==> NoneLabelled(Snapshot(Idle(Done), Resting(Done)), versions[at].spec.clusterName)
      modifies this
      ensures var end :=
        SyncRun(old(Snapshot(Idle(Done), Resting(Done))), at, apis, if first.Some? then first.value else "");
        end.sync == Resting(outcome) && Snapshot(end.rec, end.sync) == end
    {
      ghost var pick := if first.Some? then first.value else "";
      var cluster := versions[at].spec.clusterName;
      ghost var w0 := Snapshot(Idle(Done), Looking(cluster));
      assert StartSync(Snapshot(Idle(Done), Resting(Done)), at) == w0;
      ghost var w1 := StepSync(w0, apis[0], pick);
      assert SyncRun(Snapshot(Idle(Done), Resting(Done)), at, apis, pick) == SyncSteps(w1, apis[1..], pick);
      var backupPvc := "";
      if apis[0] == Accepted {
        var list := if cluster in pods then pods[cluster] else [];
        if |list| == 0 {
          RestingSteps(w1, apis[1..], pick);
          return Done;
        }
        var k := 0;
        while k < |list|
          invariant k <= |list| && backupPvc == ""
          invariant forall j | 0 <= j < k :: list[j].role != "master"
        {
          if list[k].role == "master" {
            SelectIsDecidedByFirstMaster(list, k);
            if list[k].phase == "Running" {
              backupPvc := list[k].claim;
              break;
            } else {
              RestingSteps(w1, apis[1..], pick);
              return Done;
            }
          }
          k := k + 1;
        }
        if k == |list| {
          SelectIsDecidedByFirstMaster(list, k);
        }
        if backupPvc == "" {
          RestingSteps(w1, apis[1..], pick);
          return Done;
        }
      }
      outcome := SyncCronJobs(cluster, backupPvc, apis[1..], first);
    }

    /** The second half of CycleSync: list the label's CronJobs, compare the first one (lines 375-406). */
    method SyncCronJobs(cluster: string, claim: string, apis: seq<Api>, first: Option<string>)
      returns (outcome: Outcome)
      requires versions != [] && |apis| == 2
      requires first.Some? ==> Labelled(Snapshot(Idle(Done), Resting(Done)), first.value, cluster)
      requires first.None? ==> NoneLabelled(Snapshot(Idle(Done), Resting(Done)), cluster)
      modifies this
      ensures var end :=
        SyncSteps(old(Snapshot(Idle(Done), Listing(cluster, claim))), apis, if first.Some? then first.value else "");
        end.sync == Resting(outcome) && Snapshot(end.rec, end.sync) == end
    {
      ghost var pick := if first.Some? then first.value else "";
      ghost var w0 := Snapshot(Idle(Done), Listing(cluster, claim));
      ghost var w1 := StepSync(w0, apis[0], pick);
      assert SyncSteps(w0, apis, pick) == SyncSteps(w1, apis[1..], pick);
      if apis[0] != Accepted {
        RestingSteps(w1, apis[1..], pick);
        return Crashed;
      }
      if first.None? {
        RestingSteps(w1, apis[1..], pick);
        return Done;
      }
      if cronJobs[first.value].claim == claim {
        RestingSteps(w1, apis[1..], pick);
        return Done;
      }
      ghost var w2 := StepSync(w1, apis[1], pick);
      assert SyncSteps(w1, apis[1..], pick) == w2 by {
        assert apis[1..][1..] == [];
      }
      if apis[1] == Refused {
        return Crashed;
      }
      cronJobs := cronJobs - {first.value};
      orphan := orphan && first.value != name;
      outcome := if apis[1] == Accepted then Done else Crashed;
    }
  }
}
