/** What one Reconcile does that nothing interferes with, in every state of the cluster, said in the
    fields of the objects alone; and what becomes of it when a call fails or a lookup is out of date. */
module BackupOutcomes {
  import opened Wrappers
  import opened BackupTypes
  import opened BackupMachine
  import opened ApiServer
  import opened BackupAgreement
  import opened BackupCases

  /** A Reconcile of the latest version: every call is accepted, and its lookup tells the truth. */
  function Undisturbed(w: World): (after: World)
    requires w.versions != [] && w.rec.Idle?
    ensures after.versions != [] && after.rec.Idle?
  {
    var there := if w.Latest().spec.schedule == "" then w.job.Some? else w.name in w.cronJobs;
    SmoothLength(there, CALLS);
    StepsRunOut(w.(rec := Fetched(|w.versions| - 1)), Smooth(there, CALLS));
    ReconcileRun(w, |w.versions| - 1, Smooth(there, CALLS))
  }

  lemma {:induction false} SmoothLength(seen: bool, calls: nat)
    ensures |Smooth(seen, calls)| == calls
  {
    if calls > 0 {
      SmoothLength(seen, calls - 1);
    }
  }

  /** The first pod labelled master runs, and this is its claim. */
  ghost predicate MasterOn(pods: seq<Pod>, claim: string)
  {
    claim != "" && exists i | 0 <= i < |pods| ::
      pods[i] == Pod("master", "Running", claim) && forall j | 0 <= j < i :: pods[j].role != "master"
  }

  lemma SelectFindsMaster(pods: seq<Pod>, claim: string)
    ensures Select(pods) == Claim(claim) <==> MasterOn(pods, claim)
  {
    var i := FirstMaster(pods);
    SelectIsDecidedByFirstMaster(pods, i);
    if MasterOn(pods, claim) {
      var k :| 0 <= k < |pods| && pods[k] == Pod("master", "Running", claim) &&
        forall j | 0 <= j < k :: pods[j].role != "master";
      SelectIsDecidedByFirstMaster(pods, k);
    }
  }

  lemma FirstMaster(pods: seq<Pod>) returns (i: nat)
    ensures i <= |pods| && (forall j | 0 <= j < i :: pods[j].role != "master")
    ensures i < |pods| ==> pods[i].role == "master"
  {
    i := 0;
    while i < |pods| && pods[i].role != "master"
      invariant i <= |pods| && forall j | 0 <= j < i :: pods[j].role != "master"
    {
      i := i + 1;
    }
  }

  /** The cluster of the spec has its secret, and a master to back up. */
  ghost predicate Usable(w: World, claim: string)
  {
    && w.versions != [] && w.rec.Idle?
    && var cluster := w.Latest().spec.clusterName;
    cluster in w.secrets && cluster in w.pods && MasterOn(w.pods[cluster], claim)
  }

  lemma UsableIsSelected(w: World, claim: string)
    requires w.versions != [] && w.rec.Idle? && w.Latest().spec.clusterName in w.secrets
    ensures Usable(w, claim) <==> Select(w.PodsOf(w.Latest().spec.clusterName)) == Claim(claim)
  {
    SelectFindsMaster(w.PodsOf(w.Latest().spec.clusterName), claim);
  }

  // ---------------------------------------------------------------- nothing to do

  /** Without the secret Reconcile fails, and without a usable master it returns; either way it has
      changed nothing. */
  lemma StopsWithoutMaster(w: World)
    requires w.versions != [] && w.rec.Idle? && forall claim :: !Usable(w, claim)
    ensures Undisturbed(w) == w.(rec := Idle(if w.Latest().spec.clusterName in w.secrets then Done else Failed))
  {
    var there := if w.Latest().spec.schedule == "" then w.job.Some? else w.name in w.cronJobs;
    NoUseEnds(w, |w.versions| - 1, there);
  }

  lemma NoUseEnds(w: World, at: nat, there: bool)
    requires at + 1 == |w.versions| && w.rec.Idle? && forall claim :: !Usable(w, claim)
    ensures ReconcileRun(w, at, Smooth(there, 7))
         == w.(rec := Idle(if w.Latest().spec.clusterName in w.secrets then Done else Failed))
  {
    if w.Latest().spec.clusterName in w.secrets {
      var selection := Select(w.PodsOf(w.Latest().spec.clusterName));
      if selection.Claim? {
        UsableIsSelected(w, selection.name);
      }
      ReachAuthorised(w, at, there, 6);
      NoMasterEnds(w, at, there, 5);
    } else {
      NoSecretEnds(w, at, there, 6);
    }
  }

  lemma NoSecretEnds(w: World, at: nat, seen: bool, rest: nat)
    requires at + 1 == |w.versions| && w.Latest().spec.clusterName !in w.secrets
    ensures Steps(w.(rec := Fetched(at)), Smooth(seen, rest + 1)) == w.(rec := Idle(Failed))
  {
    var fetched := w.(rec := Fetched(at));
    assert StepReconcile(fetched, Answer(Accepted, seen)) == w.(rec := Idle(Failed));
    SmoothStep(fetched, seen, rest + 1);
    IdleSteps(w.(rec := Idle(Failed)), Smooth(seen, rest));
  }

  lemma NoMasterEnds(w: World, at: nat, seen: bool, rest: nat)
    requires at + 1 == |w.versions| && !Select(w.PodsOf(w.Latest().spec.clusterName)).Claim?
    ensures Steps(w.(rec := Authorised(at)), Smooth(seen, rest + 1)) == w.(rec := Idle(Done))
  {
    var authorised := w.(rec := Authorised(at));
    assert StepReconcile(authorised, Answer(Accepted, seen)) == w.(rec := Idle(Done));
    SmoothStep(authorised, seen, rest + 1);
    IdleSteps(w.(rec := Idle(Done)), Smooth(seen, rest));
  }

  // ---------------------------------------------------------------- a periodic backup

  /** Of the resource only the status has been written, by at most one version for each status. */
  predicate Wrote(before: World, after: World, status: Status)
    requires before.versions != []
  {
    && before.versions <= after.versions
    && after.versions != [] && after.Latest() == RedisBackup(before.Latest().spec, status)
    && (status == before.Latest().status ==> after.versions == before.versions)
  }

  /** The CronJob has been made for the spec and this claim, and its information is recorded. */
  predicate Made(before: World, claim: string, after: World)
    requires before.versions != []
  {
    var spec := before.Latest().spec;
    && after == before.(cronJobs := before.cronJobs[before.name := CronJob(
                          spec.clusterName, spec.schedule, spec.url, spec.secretName, claim)],
                        versions := after.versions, orphan := false, rec := Idle(Done))
    && Wrote(before, after, Status(LastBackupInfo(spec.secretName, spec.url, spec.schedule),
                                   before.Latest().status.conditions))
  }

  /** No CronJob yet: it is made for the spec and the master's claim, and recorded. */
  lemma PeriodicCreates(w: World, claim: string)
    requires Usable(w, claim) && w.Latest().spec.schedule != "" && w.name !in w.cronJobs
    ensures Made(w, claim, Undisturbed(w))
  {
    UsableIsSelected(w, claim);
    CreatesHere(w, |w.versions| - 1, claim);
  }

  lemma CreatesHere(w: World, at: nat, claim: string)
    requires at + 1 == |w.versions| && w.rec.Idle? && w.Latest().spec.clusterName in w.secrets
    requires Select(w.PodsOf(w.Latest().spec.clusterName)) == Claim(claim)
    requires w.Latest().spec.schedule != "" && w.name !in w.cronJobs
    ensures Made(w, claim, ReconcileRun(w, at, Smooth(false, CALLS)))
  {
    ReachLookup(w, at, claim, false, 4);
    CreateThenRecord(w, at, claim);
  }

  lemma CreateThenRecord(w: World, at: nat, claim: string)
    requires at + 1 == |w.versions| && w.Latest().spec.schedule != "" && w.name !in w.cronJobs
    ensures Made(w, claim, Steps(w.(rec := Missing(at, claim)), Smooth(false, 4)))
  {
    var missing := w.(rec := Missing(at, claim));
    CreateFirst(missing, at, claim, 3);
    RecordLast(Create(missing, at, claim, Accepted), at, true, false, 2);
  }

  /** The CronJob is out of date: on v1beta1 by its claim, on v1 by the recorded information. */
  predicate OutOfDate(w: World, claim: string)
    requires w.versions != [] && w.name in w.cronJobs
  {
    var spec, info := w.Latest().spec, w.Latest().status.lastBackupInfo;
    if w.beta then w.cronJobs[w.name].claim != claim
    else spec.secretName != info.secretName || spec.url != info.url || spec.schedule != info.schedule
  }

  lemma PeriodicDrops(w: World, claim: string)
    requires Usable(w, claim) && w.Latest().spec.schedule != "" && w.name in w.cronJobs && OutOfDate(w, claim)
    ensures Undisturbed(w) == w.(cronJobs := w.cronJobs - {w.name}, orphan := false, rec := Idle(Done))
  {
    UsableIsSelected(w, claim);
    ReachLookup(w, |w.versions| - 1, claim, true, 4);
    FoundThenDropped(w, |w.versions| - 1, claim);
  }

  lemma FoundThenDropped(w: World, at: nat, claim: string)
    requires at + 1 == |w.versions| && w.Latest().spec.schedule != "" && w.name in w.cronJobs && OutOfDate(w, claim)
    ensures Steps(w.(rec := Present(at, claim)), Smooth(true, 4))
         == w.(cronJobs := w.cronJobs - {w.name}, orphan := false, rec := Idle(Done))
  {
    var present, rebuild := w.(rec := Present(at, claim)), w.(rec := Rebuild(at));
    assert Inspect(present, at, claim, Accepted) == rebuild;
    SmoothStep(present, true, 4);
    DropSettles(rebuild, at, 3);
  }

  /** What the text under the key adds to the history: the first record, unless its file is that of
      the last one. */
  predicate Extended(before: seq<Condition>, payload: Payload, after: seq<Condition>)
  {
    if payload.Records? && payload.list != [] &&
       (before == [] || before[|before| - 1].filePath != payload.list[0].filePath)
    then after == before + [payload.list[0]]
    else after == before
  }

  /** A text that is there but is no list of records, or an empty list. */
  predicate Unreadable(payload: Payload)
  {
    payload.Garbled? || (payload.Records? && payload.list == [])
  }

  /** The value written last under the key that the backups of a cluster share. */
  predicate IsLastWritten(w: World, cluster: string, payload: Payload)
  {
    if cluster in w.written && w.written[cluster] != [] then payload == w.written[cluster][|w.written[cluster]| - 1]
    else payload == Nothing
  }

  /** Only the status has been written: the record has joined the history, and the spec's information
      is recorded. */
  predicate Kept(before: World, payload: Payload, after: World)
    requires before.versions != []
  {
    var spec := before.Latest().spec;
    && after == before.(versions := after.versions, rec := Idle(Done)) && after.versions != []
    && Wrote(before, after, after.Latest().status)
    && after.Latest().status.lastBackupInfo == LastBackupInfo(spec.secretName, spec.url, spec.schedule)
    && Extended(before.Latest().status.conditions, payload, after.Latest().status.conditions)
  }

  /** Otherwise it is kept: the record joins the history, the information is recorded, and nothing
      else changes; but an unreadable text ends the process. */
  lemma PeriodicKeeps(w: World, claim: string, payload: Payload)
    requires Usable(w, claim) && w.Latest().spec.schedule != "" && w.name in w.cronJobs && !OutOfDate(w, claim)
    requires IsLastWritten(w, w.Latest().spec.clusterName, payload)
    ensures var after := Undisturbed(w);
      if Unreadable(payload) then after == w.(rec := Idle(Crashed), sync := Resting(Crashed))
      else Kept(w, payload, after)
  {
    UsableIsSelected(w, claim);
    assert Keeps(w);
    KeepsAndWrites(w, payload);
  }

  lemma KeepsAndWrites(w: World, payload: Payload)
    requires Ready(w) && Keeps(w) && IsLastWritten(w, w.Latest().spec.clusterName, payload)
    ensures var after := FreshReconcile(w);
      if Unreadable(payload) then after == w.(rec := Idle(Crashed), sync := Resting(Crashed))
      else Kept(w, payload, after)
  {
    assert payload == w.Register(w.Latest().spec.clusterName);
    if Unreadable(payload) {
      MalformedReconcile(w, |w.versions| - 1, payload);
    } else {
      KeepsHere(w, |w.versions| - 1, payload);
    }
  }

  lemma KeepsHere(w: World, at: nat, payload: Payload)
    requires Ready(w) && Keeps(w) && IsLastWritten(w, w.Latest().spec.clusterName, payload)
    requires at + 1 == |w.versions| && !Unreadable(payload)
    ensures Kept(w, payload, ReconcileRun(w, at, Smooth(true, CALLS)))
  {
    ReachSample(w, at, 2);
    SampleWrites(w, at, payload);
  }

  lemma SampleWrites(w: World, at: nat, payload: Payload)
    requires at + 1 == |w.versions| && w.Latest().spec.schedule != ""
    requires IsLastWritten(w, w.Latest().spec.clusterName, payload) && !Unreadable(payload)
    ensures Kept(w, payload, Steps(Sample(w.(rec := Checked(at)), at, Accepted), Smooth(true, 2)))
  {
    var sampled := Sample(w.(rec := Checked(at)), at, Accepted);
    assert payload == w.Register(w.Latest().spec.clusterName);
    if payload == Nothing {
      assert sampled == w.(rec := Recording(at, false));
      RecordWrites(sampled, 1);
    } else {
      assert sampled == w.(rec := Sampled(at, payload));
      PublishWrites(sampled, at, payload);
    }
  }

  lemma RecordWrites(w: World, rest: nat)
    requires w.versions != [] && w.rec == Recording(|w.versions| - 1, false)
    ensures var spec, after := w.Latest().spec, Steps(w, Smooth(true, rest + 1));
      && after == w.(versions := after.versions, rec := Idle(Done))
      && Wrote(w, after, Status(LastBackupInfo(spec.secretName, spec.url, spec.schedule), w.Latest().status.conditions))
  {
    RecordLast(w, |w.versions| - 1, false, true, rest);
  }

  lemma PublishWrites(w: World, at: nat, payload: Payload)
    requires at + 1 == |w.versions| && w.rec == Sampled(at, payload) && w.Latest().spec.schedule != ""
    requires payload.Records? && payload.list != []
    ensures Kept(w, payload, Steps(w, Smooth(true, 2)))
  {
    var published := Publish(w, at, payload, Accepted);
    PublishFirst(w, at, payload, 1);
    PublishSettles(w, at, payload);
    PublishGrows(w, at, payload);
    RecordWrites(published, 0);
    RecordedIsKept(w, payload, published, Steps(published, Smooth(true, 1)));
  }

  lemma PublishGrows(w: World, at: nat, payload: Payload)
    requires at + 1 == |w.versions| && w.rec == Sampled(at, payload) && w.Latest().spec.schedule != ""
    requires payload.Records? && payload.list != []
    ensures var published := Publish(w, at, payload, Accepted);
      && w.versions <= published.versions && published.versions != []
      && (published.versions == w.versions || published.Latest().status.conditions != w.Latest().status.conditions)
  {
    if IsNews(w.Latest().status.conditions, payload.list[0]) {
      AppendSettles(w, at, payload.list[0]);
    }
  }

  lemma RecordedIsKept(w: World, payload: Payload, published: World, after: World)
    requires w.versions != [] && payload.Records? && payload.list != []
    requires w.versions <= published.versions && published.versions != []
    requires published == w.(versions := published.versions, rec := published.rec)
    requires published.Latest().spec == w.Latest().spec
    requires published.Latest().status.conditions == Joined(w.Latest().status.conditions, payload)
    requires published.versions == w.versions || published.Latest().status.conditions != w.Latest().status.conditions
    requires var spec := w.Latest().spec;
      && after == published.(versions := after.versions, rec := Idle(Done))
      && Wrote(published, after, Status(LastBackupInfo(spec.secretName, spec.url, spec.schedule),
                                        published.Latest().status.conditions))
    ensures Kept(w, payload, after)
  {
  }

  /** A Reconcile keeps the CronJob exactly if it is not out of date. */
  lemma KeepsExactlyUpToDate(w: World, claim: string)
    requires Usable(w, claim) && w.Latest().spec.schedule != "" && w.name in w.cronJobs
    ensures w.name in Undisturbed(w).cronJobs <==> !OutOfDate(w, claim)
    ensures forall target | target != w.name ::
      (target in Undisturbed(w).cronJobs <==> target in w.cronJobs)
      && (target in w.cronJobs ==> Undisturbed(w).cronJobs[target] == w.cronJobs[target])
  {
    if OutOfDate(w, claim) {
      PeriodicDrops(w, claim);
    } else {
      var cluster := w.Latest().spec.clusterName;
      PeriodicKeeps(w, claim, w.Register(cluster));
    }
  }

  // ---------------------------------------------------------------- a single backup

  /** No Job yet: it is made for the spec and the master's claim. */
  lemma SingleCreates(w: World, claim: string)
    requires Usable(w, claim) && w.Latest().spec.schedule == "" && w.job.None?
    ensures var spec := w.Latest().spec;
      Undisturbed(w) == w.(job := Some(Job(spec.clusterName, spec.url, spec.secretName, claim)), rec := Idle(Done))
  {
    UsableIsSelected(w, claim);
    ReachLookup(w, |w.versions| - 1, claim, false, 4);
    CreateEnds(w, |w.versions| - 1, claim);
  }

  /** A create that is the last call: of a Job, or of what is there already. */
  lemma CreateEnds(w: World, at: nat, claim: string)
    requires at + 1 == |w.versions| && (w.Latest().spec.schedule == "" || w.name in w.cronJobs)
    ensures var spec, after := w.Latest().spec, Steps(w.(rec := Missing(at, claim)), Smooth(false, 4));
      after == if spec.schedule == "" && w.job.None?
               then w.(job := Some(Job(spec.clusterName, spec.url, spec.secretName, claim)), rec := Idle(Done))
               else w.(rec := Idle(Failed))
  {
    var missing := w.(rec := Missing(at, claim));
    CreateFirst(missing, at, claim, 3);
    IdleSteps(Create(missing, at, claim, Accepted), Smooth(false, 3));
  }

  /** The value under the resource's own key. */
  predicate IsUnderOwnKey(w: World, cluster: string, payload: Payload)
  {
    if cluster in w.jobKey then payload == w.jobKey[cluster] else payload == Nothing
  }

  /** Only the status has been written, and of that only the history. */
  predicate Replaced(before: World, payload: Payload, after: World)
    requires before.versions != []
  {
    var history := match payload
                   case Nothing => before.Latest().status.conditions
                   case Garbled => []
                   case Records(list) => list;
    && after == before.(versions := after.versions, rec := Idle(Done))
    && Wrote(before, after, Status(before.Latest().status.lastBackupInfo, history))
  }

  /** The Job is there: the list under the resource's own key replaces the history, a text that is
      no list empties it, and an absent key leaves it; nothing else changes. */
  lemma SingleReplaces(w: World, claim: string, payload: Payload)
    requires Usable(w, claim) && w.Latest().spec.schedule == "" && w.job.Some?
    requires IsUnderOwnKey(w, w.Latest().spec.clusterName, payload)
    ensures Replaced(w, payload, Undisturbed(w))
  {
    UsableIsSelected(w, claim);
    ReplacesHere(w, |w.versions| - 1, claim, payload);
  }

  lemma ReplacesHere(w: World, at: nat, claim: string, payload: Payload)
    requires at + 1 == |w.versions| && w.rec.Idle? && w.Latest().spec.clusterName in w.secrets
    requires Select(w.PodsOf(w.Latest().spec.clusterName)) == Claim(claim)
    requires w.Latest().spec.schedule == "" && IsUnderOwnKey(w, w.Latest().spec.clusterName, payload)
    ensures Replaced(w, payload, ReconcileRun(w, at, Smooth(true, CALLS)))
  {
    ReachLookup(w, at, claim, true, 4);
    FoundIsSampled(w, at, claim);
    SingleEnds(w, at, payload);
  }

  lemma FoundIsSampled(w: World, at: nat, claim: string)
    requires at + 1 == |w.versions| && w.Latest().spec.schedule == ""
    ensures Steps(w.(rec := Present(at, claim)), Smooth(true, 4))
         == Steps(Sample(w.(rec := Checked(at)), at, Accepted), Smooth(true, 2))
  {
    var present, checked := w.(rec := Present(at, claim)), w.(rec := Checked(at));
    assert Inspect(present, at, claim, Accepted) == checked;
    SmoothStep(present, true, 4);
    SampleFirst(checked, at, 3);
  }

  lemma SingleEnds(w: World, at: nat, payload: Payload)
    requires at + 1 == |w.versions| && w.Latest().spec.schedule == ""
    requires IsUnderOwnKey(w, w.Latest().spec.clusterName, payload)
    ensures Replaced(w, payload, Steps(Sample(w.(rec := Checked(at)), at, Accepted), Smooth(true, 2)))
  {
    var sampled := Sample(w.(rec := Checked(at)), at, Accepted);
    if payload == Nothing {
      IdleSteps(sampled, Smooth(true, 2));
    } else {
      assert sampled == w.(rec := Sampled(at, payload));
      PublishReplaces(sampled, at, payload);
    }
  }

  lemma PublishReplaces(w: World, at: nat, payload: Payload)
    requires at + 1 == |w.versions| && w.rec == Sampled(at, payload) && w.Latest().spec.schedule == ""
    ensures var after := Steps(w, Smooth(true, 2));
      && after == w.(versions := after.versions, rec := Idle(Done))
      && Wrote(w, after, w.Latest().status.(conditions := if payload.Records? then payload.list else []))
  {
    PublishFirst(w, at, payload, 1);
    IdleSteps(Publish(w, at, payload, Accepted), Smooth(true, 1));
  }

  // ---------------------------------------------------------------- one after the other

  /** A Reconcile that has replaced the history of a single backup finds nothing to do the next time. */
  lemma SingleTwice(w: World, claim: string)
    requires Usable(w, claim) && w.Latest().spec.schedule == "" && w.job.Some?
    ensures Undisturbed(Undisturbed(w)) == Undisturbed(w) && Undisturbed(w).job == w.job
    ensures Usable(Undisturbed(w), claim) && Undisturbed(w).Latest().spec == w.Latest().spec
  {
    var cluster, after := w.Latest().spec.clusterName, Undisturbed(w);
    SingleReplaces(w, claim, w.OwnKey(cluster));
    SingleReplaces(after, claim, after.OwnKey(cluster));
  }

  /** Nor does one that has kept the CronJob and could read the record. */
  lemma KeptTwice(w: World, claim: string)
    requires Usable(w, claim) && w.Latest().spec.schedule != "" && w.name in w.cronJobs && !OutOfDate(w, claim)
    requires !Unreadable(w.Register(w.Latest().spec.clusterName))
    ensures Undisturbed(Undisturbed(w)) == Undisturbed(w)
    ensures Usable(Undisturbed(w), claim) && Undisturbed(w).Latest().spec == w.Latest().spec
    ensures Undisturbed(w).name in Undisturbed(w).cronJobs && !OutOfDate(Undisturbed(w), claim)
  {
    var cluster, after := w.Latest().spec.clusterName, Undisturbed(w);
    PeriodicKeeps(w, claim, w.Register(cluster));
    PeriodicKeeps(after, claim, after.Register(cluster));
  }

  /** Left to themselves, three Reconciles in a row settle every resource, on either API: a fourth
      one changes nothing any more. */
  lemma ThreeReconcilesSettle(w: World, claim: string)
    requires Usable(w, claim)
    requires w.Latest().spec.schedule != "" ==> !Unreadable(w.Register(w.Latest().spec.clusterName))
    ensures var third := Undisturbed(Undisturbed(Undisturbed(w)));
      && Undisturbed(third) == third
      && if w.Latest().spec.schedule == "" then third.job.Some?
         else third.name in third.cronJobs && !OutOfDate(third, claim)
  {
    var first := Undisturbed(w);
    if w.Latest().spec.schedule == "" {
      if w.job.None? {
        SingleCreates(w, claim);
        SingleTwice(first, claim);
      } else {
        SingleTwice(w, claim);
      }
    } else if w.name !in w.cronJobs {
      CreatedThenKept(w, claim);
    } else if OutOfDate(w, claim) {
      PeriodicDrops(w, claim);
      CreatedThenKept(first, claim);
    } else {
      KeptTwice(w, claim);
    }
  }

  lemma CreatedThenKept(w: World, claim: string)
    requires Usable(w, claim) && w.Latest().spec.schedule != "" && w.name !in w.cronJobs
    requires !Unreadable(w.Register(w.Latest().spec.clusterName))
    ensures var second := Undisturbed(Undisturbed(w));
      && Undisturbed(second) == second && second.name in second.cronJobs && Usable(second, claim)
      && !OutOfDate(second, claim)
  {
    PeriodicCreates(w, claim);
    KeptTwice(Undisturbed(w), claim);
  }

  // ---------------------------------------------------------------- calls that fail

  lemma {:induction false} StepsAppend(w: World, first: seq<Answer>, second: seq<Answer>)
    requires w.versions != [] && w.InRange()
    ensures Steps(w, first + second) == Steps(Steps(w, first), second)
    decreases first
  {
    if first == [] {
      assert first + second == second;
    } else {
      assert (first + second)[1..] == first[1..] + second;
      StepsAppend(StepReconcile(w, first[0]), first[1..], second);
    }
  }

  /** Reconcile is under way, and its next step is a call of the API server: not the comparison with
      the recorded information (v1), a record that is no news, or the read of Redis. */
  predicate CallsServer(w: World)
    requires w.InRange()
  {
    match w.rec
    case Idle(_) => false
    case Present(at, _) => w.beta && w.versions[at].spec.schedule != ""
    case Checked(_) => false
    case Sampled(at, payload) =>
      var history := w.versions[at].status.conditions;
      w.versions[at].spec.schedule == "" || !Extended(history, payload, history)
    case _ => true
  }

  /** That call would change something. */
  predicate Writes(w: World)
    requires w.InRange()
  {
    CallsServer(w) && (w.rec.Missing? || w.rec.Rebuild? || w.rec.Sampled? || w.rec.Recording?)
  }

  /** Whatever has happened before it, a call that the server refuses is the last one of a Reconcile
      and changes nothing; Reconcile returns an error, except for the listing of the pods. */
  lemma RefusedCallIsTheLast(w: World, before: seq<Answer>, answer: Answer, rest: seq<Answer>)
    requires w.versions != [] && w.InRange() && answer.api == Refused
    requires CallsServer(Steps(w, before))
    ensures var reached := Steps(w, before);
      Steps(w, before + ([answer] + rest)) == reached.(rec := Idle(if reached.rec.Authorised? then Done else Failed))
  {
    var reached := Steps(w, before);
    StepsAppend(w, before, [answer] + rest);
    RefusedCallStops(reached, answer);
    FirstStep(reached, answer, rest);
    IdleSteps(StepReconcile(reached, answer), rest);
  }

  lemma RefusedCallStops(w: World, answer: Answer)
    requires w.versions != [] && w.InRange() && CallsServer(w) && answer.api == Refused
    ensures StepReconcile(w, answer) == w.(rec := Idle(if w.rec.Authorised? then Done else Failed))
  {
  }

  /** A write whose answer is lost has been carried out just as an accepted one, but it is the last
      call of its Reconcile too. */
  lemma LostWriteIsTheLast(w: World, before: seq<Answer>, seen: bool, rest: seq<Answer>)
    requires w.versions != [] && w.InRange() && Writes(Steps(w, before))
    ensures Steps(w, before + ([Answer(Lost, seen)] + rest))
         == Steps(w, before + [Answer(Accepted, seen)]).(rec := Idle(Failed))
  {
    var lost, accepted := Answer(Lost, seen), Answer(Accepted, seen);
    StepsAppend(w, before, [lost] + rest);
    StepsAppend(w, before, [accepted]);
    LostWriteStops(Steps(w, before), lost, accepted, rest);
  }

  lemma LostWriteStops(w: World, lost: Answer, accepted: Answer, rest: seq<Answer>)
    requires w.versions != [] && w.InRange() && Writes(w)
    requires lost.api == Lost && accepted == lost.(api := Accepted)
    ensures Steps(w, [lost] + rest) == Steps(w, [accepted]).(rec := Idle(Failed))
  {
    LostWriteIsCarriedOut(w, lost.seen);
    FirstStep(w, lost, rest);
    assert [accepted] + [] == [accepted];
    FirstStep(w, accepted, []);
    IdleSteps(StepReconcile(w, lost), rest);
  }

  lemma LostWriteIsCarriedOut(w: World, seen: bool)
    requires w.versions != [] && w.InRange() && Writes(w)
    ensures StepReconcile(w, Answer(Lost, seen)) == StepReconcile(w, Answer(Accepted, seen)).(rec := Idle(Failed))
  {
    match w.rec
    case Missing(at, claim) => LostCreate(w, at, claim);
    case Sampled(at, payload) => LostPublish(w, at, payload);
    case Recording(at, created) => LostRecord(w, at, created);
    case _ =>
  }

  lemma LostCreate(w: World, at: nat, claim: string)
    requires at < |w.versions|
    ensures Create(w, at, claim, Lost) == Create(w, at, claim, Accepted).(rec := Idle(Failed))
  {
  }

  lemma LostPublish(w: World, at: nat, payload: Payload)
    requires at < |w.versions| && w.rec == Sampled(at, payload) && CallsServer(w)
    ensures Publish(w, at, payload, Lost) == Publish(w, at, payload, Accepted).(rec := Idle(Failed))
  {
  }

  lemma LostRecord(w: World, at: nat, created: bool)
    requires at < |w.versions|
    ensures Record(w, at, created, Lost) == Record(w, at, created, Accepted).(rec := Idle(Failed))
  {
  }

  /** A read of Redis that fails is taken for an absent key. */
  lemma FailedReadIsAbsence(w: World, before: seq<Answer>, answer: Answer, rest: seq<Answer>)
    requires w.versions != [] && w.InRange() && answer.api != Accepted && Steps(w, before).rec.Checked?
    ensures var reached := Steps(w, before); var at := reached.rec.at;
      Steps(w, before + ([answer] + rest)) ==
        Steps(reached.(rec := if reached.versions[at].spec.schedule == "" then Idle(Done) else Recording(at, false)),
          rest)
  {
    StepsAppend(w, before, [answer] + rest);
    FirstStep(Steps(w, before), answer, rest);
  }

  /** A Reconcile of an old version stores nothing, whatever the answers. */
  lemma {:induction false} OldVersionStoresNothing(w: World, at: nat, script: seq<Answer>)
    requires w.rec.Idle? && at + 1 < |w.versions|
    ensures ReconcileRun(w, at, script).versions == w.versions
  {
    OldStepsStoreNothing(StartReconcile(w, at), at, script);
  }

  lemma {:induction false} OldStepsStoreNothing(w: World, at: nat, script: seq<Answer>)
    requires at + 1 < |w.versions| && (w.rec.Idle? || w.rec.at == at)
    ensures Steps(w, script).versions == w.versions
    decreases script
  {
    if script != [] {
      OldStepStoresNothing(w, at, script[0]);
      OldStepsStoreNothing(StepReconcile(w, script[0]), at, script[1..]);
    }
  }

  lemma OldStepStoresNothing(w: World, at: nat, answer: Answer)
    requires at + 1 < |w.versions| && (w.rec.Idle? || w.rec.at == at)
    ensures StepReconcile(w, answer).versions == w.versions
    ensures StepReconcile(w, answer).rec.Idle? || StepReconcile(w, answer).rec.at == at
  {
    match w.rec
    case Sampled(at, payload) => OldPublishStoresNothing(w, at, payload, answer.api);
    case Recording(at, created) => OldRecordStoresNothing(w, at, created, answer.api);
    case _ =>
  }

  lemma OldPublishStoresNothing(w: World, at: nat, payload: Payload, api: Api)
    requires at + 1 < |w.versions| && w.rec == Sampled(at, payload)
    ensures Publish(w, at, payload, api).versions == w.versions
    ensures Publish(w, at, payload, api).rec.Idle? || Publish(w, at, payload, api).rec.at == at
  {
    var status := w.versions[at].status;
    if w.versions[at].spec.schedule == "" {
      OldOverwriteFails(w, at, status.(conditions := if payload.Records? then payload.list else []), api);
    } else if payload.Records? && payload.list != [] {
      OldAppendFails(w, at, payload.list[0], api);
    }
  }

  lemma OldOverwriteFails(w: World, at: nat, status: Status, api: Api)
    requires at + 1 < |w.versions|
    ensures Overwrite(w, at, status, api, Idle(Done)) == w.(rec := Idle(Failed))
  {
  }

  lemma OldAppendFails(w: World, at: nat, record: Condition, api: Api)
    requires at + 1 < |w.versions|
    ensures Append(w, at, record, api) == w.(rec := Idle(Failed))
  {
  }

  lemma OldRecordStoresNothing(w: World, at: nat, created: bool, api: Api)
    requires at + 1 < |w.versions|
    ensures Record(w, at, created, api).versions == w.versions
  {
  }

  // ---------------------------------------------------------------- lookups out of date

  /** A lookup that does not see the workload: the create finds it there, and Reconcile fails
      without having changed anything. */
  lemma StaleMissFails(w: World, claim: string)
    requires Usable(w, claim)
    requires if w.Latest().spec.schedule == "" then w.job.Some? else w.name in w.cronJobs
    ensures ReconcileRun(w, |w.versions| - 1, Smooth(false, CALLS)) == w.(rec := Idle(Failed))
  {
    UsableIsSelected(w, claim);
    ReachLookup(w, |w.versions| - 1, claim, false, 4);
    CreateEnds(w, |w.versions| - 1, claim);
  }

  predicate GoneOutcome(w: World, payload: Payload, after: World)
    requires w.versions != []
  {
    var spec, info := w.Latest().spec, w.Latest().status.lastBackupInfo;
    if w.beta then after == w.(rec := Idle(Crashed), sync := Resting(Crashed))
    else if spec.secretName != info.secretName || spec.url != info.url || spec.schedule != info.schedule
    then after == w.(rec := Idle(Failed))
    else Kept(w, payload, after)
  }

  /** A lookup that still sees a CronJob that is gone. On v1beta1 the second GET finds nothing, and
      the process ends. On v1 the delete of one that is out of date fails, but for one that is not
      Reconcile goes on as if it were there: the information is recorded of a CronJob that is not. */
  lemma StaleHitGoesOn(w: World, claim: string, payload: Payload)
    requires Usable(w, claim) && w.Latest().spec.schedule != "" && w.name !in w.cronJobs
    requires IsLastWritten(w, w.Latest().spec.clusterName, payload) && !Unreadable(payload)
    ensures GoneOutcome(w, payload, ReconcileRun(w, |w.versions| - 1, Smooth(true, CALLS)))
  {
    UsableIsSelected(w, claim);
    GoneFrom(w, |w.versions| - 1, claim, payload);
  }

  lemma GoneFrom(w: World, at: nat, claim: string, payload: Payload)
    requires at + 1 == |w.versions| && w.rec.Idle? && w.Latest().spec.clusterName in w.secrets
    requires Select(w.PodsOf(w.Latest().spec.clusterName)) == Claim(claim)
    requires w.Latest().spec.schedule != "" && w.name !in w.cronJobs
    requires IsLastWritten(w, w.Latest().spec.clusterName, payload) && !Unreadable(payload)
    ensures GoneOutcome(w, payload, ReconcileRun(w, at, Smooth(true, CALLS)))
  {
    ReachLookup(w, at, claim, true, 4);
    GoneAfterLookup(w, at, claim, payload);
  }

  lemma GoneAfterLookup(w: World, at: nat, claim: string, payload: Payload)
    requires at + 1 == |w.versions| && w.Latest().spec.schedule != "" && w.name !in w.cronJobs
    requires IsLastWritten(w, w.Latest().spec.clusterName, payload) && !Unreadable(payload)
    ensures GoneOutcome(w, payload, Steps(w.(rec := Present(at, claim)), Smooth(true, 4)))
  {
    var present := w.(rec := Present(at, claim));
    SmoothStep(present, true, 4);
    if w.beta {
      IdleSteps(Crash(w), Smooth(true, 3));
    } else if UpToDate(w.Latest()) {
      assert Inspect(present, at, claim, Accepted) == w.(rec := Checked(at));
      SampleFirst(w.(rec := Checked(at)), at, 3);
      SampleWrites(w, at, payload);
    } else {
      GoneCannotBeDropped(w, at);
    }
  }

  lemma GoneCannotBeDropped(w: World, at: nat)
    requires at < |w.versions| && w.name !in w.cronJobs
    ensures Steps(w.(rec := Rebuild(at)), Smooth(true, 3)) == w.(rec := Idle(Failed))
  {
    var rebuild := w.(rec := Rebuild(at));
    SmoothStep(rebuild, true, 3);
    IdleSteps(w.(rec := Idle(Failed)), Smooth(true, 2));
  }
}
