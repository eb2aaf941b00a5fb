/** Handlers that run to their end without interruption: what they do on fresh reads, and the
    sequences of events after which the cluster is not what the spec asks for. */
module BackupCases {
  import opened Wrappers
  import opened BackupTypes
  import opened BackupMachine
  import opened ApiServer
  import opened BackupAgreement
  import opened BackupRebuild

  /** Every call is accepted. */
  function Smooth(seen: bool, calls: nat): seq<Answer>
  {
    if calls == 0 then [] else [Answer(Accepted, seen)] + Smooth(seen, calls - 1)
  }

  /** No handler runs, and the latest spec is periodic with a usable master and its secret. */
  predicate Ready(w: World)
  {
    && w.versions != [] && w.rec.Idle?
    && w.Latest().spec.Periodic()
    && w.Latest().spec.clusterName in w.secrets
    && Select(w.PodsOf(w.Latest().spec.clusterName)).Claim?
  }

  function MasterClaim(w: World): string
    requires Ready(w)
  {
    Select(w.PodsOf(w.Latest().spec.clusterName)).name
  }

  /** A Reconcile of the latest version that looks up the CronJob truthfully. */
  function FreshReconcile(w: World): World
    requires Ready(w)
  {
    ReconcileRun(w, |w.versions| - 1, Smooth(w.HasCronJob(), CALLS))
  }

  lemma SmoothStep(w: World, seen: bool, calls: nat)
    requires w.versions != [] && w.InRange() && calls > 0
    ensures Steps(w, Smooth(seen, calls)) == Steps(StepReconcile(w, Answer(Accepted, seen)), Smooth(seen, calls - 1))
  {
    assert Smooth(seen, calls)[1..] == Smooth(seen, calls - 1);
  }

  lemma ReachAuthorised(w: World, at: nat, seen: bool, rest: nat)
    requires at + 1 == |w.versions| && w.rec.Idle? && w.Latest().spec.clusterName in w.secrets
    ensures ReconcileRun(w, at, Smooth(seen, rest + 1)) == Steps(w.(rec := Authorised(at)), Smooth(seen, rest))
  {
    var fetched := w.(rec := Fetched(at));
    SmoothStep(fetched, seen, rest + 1);
    assert Authorise(fetched, at, Accepted) == w.(rec := Authorised(at));
  }

  lemma LocateFirst(w: World, at: nat, claim: string, seen: bool, rest: nat)
    requires at < |w.versions| && w.rec == Authorised(at)
    requires Select(w.PodsOf(w.versions[at].spec.clusterName)) == Claim(claim)
    ensures Steps(w, Smooth(seen, rest + 1)) == Steps(w.(rec := Located(at, claim)), Smooth(seen, rest))
  {
    SmoothStep(w, seen, rest + 1);
    assert Locate(w, at, Accepted) == w.(rec := Located(at, claim));
  }

  lemma FindFirst(w: World, at: nat, claim: string, seen: bool, rest: nat)
    requires at < |w.versions| && w.rec == Located(at, claim)
    ensures Steps(w, Smooth(seen, rest + 1))
         == Steps(w.(rec := if seen then Present(at, claim) else Missing(at, claim)), Smooth(seen, rest))
  {
    SmoothStep(w, seen, rest + 1);
    assert StepReconcile(w, Answer(Accepted, seen)) == Find(w, at, claim, Answer(Accepted, seen));
  }

  lemma CreateFirst(w: World, at: nat, claim: string, rest: nat)
    requires at < |w.versions| && w.rec == Missing(at, claim)
    ensures Steps(w, Smooth(false, rest + 1)) == Steps(Create(w, at, claim, Accepted), Smooth(false, rest))
  {
    SmoothStep(w, false, rest + 1);
    assert StepReconcile(w, Answer(Accepted, false)) == Create(w, at, claim, Accepted);
  }

  lemma PublishFirst(w: World, at: nat, payload: Payload, rest: nat)
    requires at < |w.versions| && w.rec == Sampled(at, payload)
    ensures Steps(w, Smooth(true, rest + 1)) == Steps(Publish(w, at, payload, Accepted), Smooth(true, rest))
  {
    SmoothStep(w, true, rest + 1);
    assert StepReconcile(w, Answer(Accepted, true)) == Publish(w, at, payload, Accepted);
  }

  /** The last call: the answers left over are never used. */
  lemma RecordLast(w: World, at: nat, created: bool, seen: bool, rest: nat)
    requires at < |w.versions| && w.rec == Recording(at, created)
    ensures Steps(w, Smooth(seen, rest + 1)) == Record(w, at, created, Accepted)
  {
    SmoothStep(w, seen, rest + 1);
    assert StepReconcile(w, Answer(Accepted, seen)) == Record(w, at, created, Accepted);
    IdleSteps(Record(w, at, created, Accepted), Smooth(seen, rest));
  }

  /** The first three calls, for a periodic backup and a single one. */
  lemma ReachLookup(w: World, at: nat, claim: string, seen: bool, rest: nat)
    requires at + 1 == |w.versions| && w.rec.Idle? && w.Latest().spec.clusterName in w.secrets
    requires Select(w.PodsOf(w.Latest().spec.clusterName)) == Claim(claim)
    ensures ReconcileRun(w, at, Smooth(seen, rest + 3))
         == Steps(w.(rec := if seen then Present(at, claim) else Missing(at, claim)), Smooth(seen, rest))
  {
    ReachAuthorised(w, at, seen, rest + 2);
    LocateFirst(w.(rec := Authorised(at)), at, claim, seen, rest + 1);
    FindFirst(w.(rec := Located(at, claim)), at, claim, seen, rest);
  }

  /** No CronJob: one is created for the spec and the master's claim, and its information is recorded. */
  lemma FreshReconcileCreates(w: World)
    requires Ready(w) && !w.HasCronJob()
    ensures var after := FreshReconcile(w);
      && after.cronJobs == w.cronJobs[w.name := MakeCronJob(w.Latest().spec, MasterClaim(w))]
      && UpToDate(after.Latest()) && after.Latest().spec == w.Latest().spec
      && !after.orphan && after.rec == Idle(Done)
  {
    var at, claim := |w.versions| - 1, MasterClaim(w);
    CreatesFrom(w, at, claim, 4);
  }

  lemma CreatesFrom(w: World, at: nat, claim: string, rest: nat)
    requires Ready(w) && !w.HasCronJob() && at + 1 == |w.versions| && claim == MasterClaim(w) && rest >= 2
    ensures var after := ReconcileRun(w, at, Smooth(false, rest + 3));
      && after.cronJobs == w.cronJobs[w.name := MakeCronJob(w.Latest().spec, claim)]
      && after.versions != [] && UpToDate(after.Latest()) && after.Latest().spec == w.Latest().spec
      && !after.orphan && after.rec == Idle(Done)
  {
    ReachLookup(w, at, claim, false, rest);
    CreateSettles(w.(rec := Missing(at, claim)), at, claim, rest);
  }

  lemma CreateSettles(w: World, at: nat, claim: string, calls: nat)
    requires calls >= 2 && at + 1 == |w.versions| && w.rec == Missing(at, claim)
      && w.Latest().spec.Periodic() && !w.HasCronJob()
    ensures var after := Steps(w, Smooth(false, calls));
      && after.cronJobs == w.cronJobs[w.name := MakeCronJob(w.Latest().spec, claim)]
      && UpToDate(after.Latest()) && after.Latest().spec == w.Latest().spec
      && !after.orphan && after.rec == Idle(Done)
  {
    CreateFirst(w, at, claim, calls - 1);
    CreatedIsRecorded(Create(w, at, claim, Accepted), calls - 2);
  }

  lemma CreatedIsRecorded(w: World, calls: nat)
    requires w.versions != [] && w.rec == Recording(|w.versions| - 1, true)
    ensures var after := Steps(w, Smooth(false, calls + 1));
      && after.rec == Idle(Done) && after.cronJobs == w.cronJobs && !after.orphan
      && after.Latest().spec == w.Latest().spec && UpToDate(after.Latest())
  {
    RecordLast(w, w.rec.at, true, false, calls);
  }

  /** v1: a CronJob whose recorded information is not the spec's is deleted, and nothing else changes. */
  lemma FreshReconcileDrops(w: World)
    requires Ready(w) && !w.beta && w.HasCronJob() && !UpToDate(w.Latest())
    ensures FreshReconcile(w) == w.(cronJobs := w.cronJobs - {w.name}, orphan := false, rec := Idle(Done))
  {
    var at, claim := |w.versions| - 1, MasterClaim(w);
    ReachLookup(w, at, claim, true, 4);
    InspectDrops(w.(rec := Present(at, claim)), at, claim, 4);
  }

  lemma InspectDrops(w: World, at: nat, claim: string, calls: nat)
    requires calls >= 2 && at + 1 == |w.versions| && w.rec == Present(at, claim) && w.Latest().spec.Periodic()
    requires !w.beta && w.HasCronJob() && !UpToDate(w.Latest())
    ensures Steps(w, Smooth(true, calls)) == w.(cronJobs := w.cronJobs - {w.name}, orphan := false, rec := Idle(Done))
  {
    RebuildFirst(w, at, claim, calls - 1);
    DropSettles(w.(rec := Rebuild(at)), at, calls - 1);
  }

  lemma RebuildFirst(w: World, at: nat, claim: string, rest: nat)
    requires at + 1 == |w.versions| && w.rec == Present(at, claim) && w.Latest().spec.Periodic()
    requires !w.beta && !UpToDate(w.Latest())
    ensures Steps(w, Smooth(true, rest + 1)) == Steps(w.(rec := Rebuild(at)), Smooth(true, rest))
  {
    SmoothStep(w, true, rest + 1);
    assert Inspect(w, at, claim, Accepted) == w.(rec := Rebuild(at));
  }

  lemma DropSettles(w: World, at: nat, calls: nat)
    requires calls >= 1 && at < |w.versions| && w.rec == Rebuild(at) && w.HasCronJob()
    ensures Steps(w, Smooth(true, calls)) == w.(cronJobs := w.cronJobs - {w.name}, orphan := false, rec := Idle(Done))
  {
    SmoothStep(w, true, calls);
    IdleSteps(Drop(w, Accepted), Smooth(true, calls - 1));
  }

  /** The CronJob is kept: on v1 the recorded information is the spec's, on v1beta1 its claim is the master's. */
  predicate Keeps(w: World)
    requires Ready(w)
  {
    w.HasCronJob() && if w.beta then w.Own().claim == MasterClaim(w) else UpToDate(w.Latest())
  }

  predicate WellFormed(payload: Payload)
  {
    payload == Nothing || (payload.Records? && payload.list != [])
  }

  /** The history ends with the file of the record in Redis. */
  predicate CaughtUp(w: World)
    requires w.versions != []
  {
    var payload := w.Register(w.Latest().spec.clusterName);
    payload.Records? && payload.list != [] ==> !IsNews(w.Latest().status.conditions, payload.list[0])
  }

  lemma ReachSample(w: World, at: nat, rest: nat)
    requires Ready(w) && Keeps(w) && at + 1 == |w.versions|
    ensures ReconcileRun(w, at, Smooth(true, rest + 5))
         == Steps(Sample(w.(rec := Checked(at)), at, Accepted), Smooth(true, rest))
  {
    var claim := MasterClaim(w);
    ReachLookup(w, at, claim, true, rest + 2);
    InspectFirst(w, at, rest + 1);
    SampleFirst(w.(rec := Checked(at)), at, rest + 1);
  }

  lemma InspectFirst(w: World, at: nat, rest: nat)
    requires Ready(w) && Keeps(w) && at + 1 == |w.versions|
    ensures Steps(w.(rec := Present(at, MasterClaim(w))), Smooth(true, rest + 1))
         == Steps(w.(rec := Checked(at)), Smooth(true, rest))
  {
    SmoothStep(w.(rec := Present(at, MasterClaim(w))), true, rest + 1);
    InspectKeeps(w, at);
  }

  lemma InspectKeeps(w: World, at: nat)
    requires Ready(w) && Keeps(w) && at + 1 == |w.versions|
    ensures var claim := MasterClaim(w);
      Inspect(w.(rec := Present(at, claim)), at, claim, Accepted) == w.(rec := Checked(at))
  {
  }

  lemma SampleFirst(w: World, at: nat, calls: nat)
    requires at < |w.versions| && w.rec == Checked(at) && calls > 0
    ensures Steps(w, Smooth(true, calls)) == Steps(Sample(w, at, Accepted), Smooth(true, calls - 1))
  {
    SmoothStep(w, true, calls);
    assert StepReconcile(w, Answer(Accepted, true)) == Sample(w, at, Accepted);
  }

  /** The history after a text has been sampled. */
  function Joined(history: seq<Condition>, payload: Payload): seq<Condition>
    requires WellFormed(payload)
  {
    if payload.Records? && IsNews(history, payload.list[0]) then history + [payload.list[0]] else history
  }

  /** Nothing but the resource has changed, and of it only the status; no Reconcile runs. */
  predicate OnlyStatus(before: World, after: World)
    requires before.versions != [] && after.versions != []
  {
    && after == before.(versions := after.versions, rec := Idle(Done))
    && after.Latest().spec == before.Latest().spec
  }

  /** What keeping the CronJob leaves: the record in Redis has joined the history, the information
      is recorded, and nothing else has changed. */
  predicate Settled(before: World, after: World)
    requires before.versions != [] && after.versions != []
    requires WellFormed(before.Register(before.Latest().spec.clusterName))
  {
    && OnlyStatus(before, after)
    && after.Latest().status.conditions
       == Joined(before.Latest().status.conditions, before.Register(before.Latest().spec.clusterName))
    && UpToDate(after.Latest())
  }

  lemma FreshReconcileKeeps(w: World)
    requires Ready(w) && Keeps(w) && WellFormed(w.Register(w.Latest().spec.clusterName))
    ensures Settled(w, FreshReconcile(w)) && CaughtUp(FreshReconcile(w))
  {
    KeepsFrom(w, |w.versions| - 1, 2);
    SettledIsCaughtUp(w, FreshReconcile(w));
  }

  lemma KeepsFrom(w: World, at: nat, rest: nat)
    requires Ready(w) && Keeps(w) && WellFormed(w.Register(w.Latest().spec.clusterName))
    requires rest >= 2 && at + 1 == |w.versions|
    ensures Settled(w, ReconcileRun(w, at, Smooth(true, rest + 5)))
  {
    var checked := w.(rec := Checked(at));
    ReachSample(w, at, rest);
    SampleSettles(checked, at, rest);
    SettledWherever(w, Checked(at), Steps(Sample(checked, at, Accepted), Smooth(true, rest)));
  }

  /** How far the Reconcile had got does not matter. */
  lemma SettledWherever(w: World, rec: Thread, after: World)
    requires w.versions != [] && after.versions != [] && WellFormed(w.Register(w.Latest().spec.clusterName))
    requires Settled(w.(rec := rec), after)
    ensures Settled(w, after)
  {
  }

  lemma SettledIsCaughtUp(before: World, after: World)
    requires before.versions != [] && after.versions != [] &&
      WellFormed(before.Register(before.Latest().spec.clusterName))
    requires Settled(before, after)
    ensures CaughtUp(after)
  {
  }

  /** The last three calls, from the sampling of the key on. */
  lemma SampleSettles(w: World, at: nat, calls: nat)
    requires calls >= 2 && at + 1 == |w.versions| && w.rec == Checked(at) && w.Latest().spec.Periodic()
    requires WellFormed(w.Register(w.Latest().spec.clusterName))
    ensures Settled(w, Steps(Sample(w, at, Accepted), Smooth(true, calls)))
  {
    var payload := w.Register(w.Latest().spec.clusterName);
    if payload == Nothing {
      assert Sample(w, at, Accepted) == w.(rec := Recording(at, false));
      NothingSettles(w, at, calls);
    } else {
      assert Sample(w, at, Accepted) == w.(rec := Sampled(at, payload));
      PublishingSettles(w.(rec := Sampled(at, payload)), at, payload, calls);
      SettledWherever(w, Sampled(at, payload), Steps(w.(rec := Sampled(at, payload)), Smooth(true, calls)));
    }
  }

  lemma NothingSettles(w: World, at: nat, calls: nat)
    requires calls >= 1 && at + 1 == |w.versions| && w.Register(w.Latest().spec.clusterName) == Nothing
    ensures Settled(w, Steps(w.(rec := Recording(at, false)), Smooth(true, calls)))
  {
    RecordingEnds(w.(rec := Recording(at, false)), calls - 1);
  }

  lemma PublishingSettles(w: World, at: nat, payload: Payload, calls: nat)
    requires calls >= 2 && at + 1 == |w.versions| && w.rec == Sampled(at, payload) && w.Latest().spec.Periodic()
    requires payload == w.Register(w.Latest().spec.clusterName) && payload.Records? && payload.list != []
    ensures Settled(w, Steps(w, Smooth(true, calls)))
  {
    var published := Publish(w, at, payload, Accepted);
    PublishFirst(w, at, payload, calls - 1);
    PublishSettles(w, at, payload);
    RecordingEnds(published, calls - 2);
    PublishedSettles(w, payload, published, Steps(published, Smooth(true, calls - 1)));
  }

  lemma PublishedSettles(w: World, payload: Payload, published: World, after: World)
    requires w.versions != [] && payload == w.Register(w.Latest().spec.clusterName) && WellFormed(payload)
    requires published == w.(versions := published.versions, rec := published.rec) && published.versions != []
    requires published.Latest().spec == w.Latest().spec
    requires published.Latest().status.conditions == Joined(w.Latest().status.conditions, payload)
    requires after.versions != [] && OnlyStatus(published, after) && UpToDate(after.Latest())
    requires after.Latest().status.conditions == published.Latest().status.conditions
    ensures Settled(w, after)
  {
  }

  lemma RecordingEnds(w: World, calls: nat)
    requires w.versions != [] && w.rec == Recording(|w.versions| - 1, false)
    ensures var after := Steps(w, Smooth(true, calls + 1));
      && OnlyStatus(w, after) && UpToDate(after.Latest())
      && after.Latest().status.conditions == w.Latest().status.conditions
  {
    RecordLast(w, w.rec.at, false, true, calls);
    RecordSettles(w, w.rec.at);
  }

  lemma RecordSettles(w: World, at: nat)
    requires at + 1 == |w.versions| && w.rec == Recording(at, false)
    ensures var after := Record(w, at, false, Accepted);
      && OnlyStatus(w, after) && UpToDate(after.Latest())
      && after.Latest().status.conditions == w.Latest().status.conditions
  {
  }

  lemma AppendSettles(w: World, at: nat, record: Condition)
    requires at + 1 == |w.versions|
    ensures var after := Append(w, at, record, Accepted);
      && after == w.(versions := after.versions, rec := Recording(|after.versions| - 1, false)) && after.versions != []
      && after.Latest().spec == w.Latest().spec
      && after.Latest().status.conditions == w.Latest().status.conditions + [record]
  {
  }

  lemma PublishSettles(w: World, at: nat, payload: Payload)
    requires at + 1 == |w.versions| && w.rec == Sampled(at, payload)
    requires w.Latest().spec.Periodic() && payload.Records? && payload.list != []
    ensures var after := Publish(w, at, payload, Accepted);
      && after == w.(versions := after.versions, rec := Recording(|after.versions| - 1, false)) && after.versions != []
      && after.Latest().spec == w.Latest().spec
      && after.Latest().status.conditions == Joined(w.Latest().status.conditions, payload)
  {
    if IsNews(w.Latest().status.conditions, payload.list[0]) {
      assert Publish(w, at, payload, Accepted) == Append(w, at, payload.list[0], Accepted);
      AppendSettles(w, at, payload.list[0]);
    } else {
      assert Publish(w, at, payload, Accepted) == w.(rec := Recording(at, false));
    }
  }

  /** A text in Redis that is no list of records, or an empty one, ends the process, and the
      Reconcile has changed nothing; any other text does not. */
  lemma MalformedRecordEndsProcess(w: World)
    requires Ready(w) && Keeps(w)
    ensures FreshReconcile(w).rec == Idle(Crashed) <==> !WellFormed(w.Register(w.Latest().spec.clusterName))
    ensures FreshReconcile(w).rec == Idle(Crashed) ==> FreshReconcile(w) == Crash(w)
  {
    var payload := w.Register(w.Latest().spec.clusterName);
    if WellFormed(payload) {
      FreshReconcileKeeps(w);
    } else {
      MalformedReconcile(w, |w.versions| - 1, payload);
    }
  }

  lemma MalformedReconcile(w: World, at: nat, payload: Payload)
    requires Ready(w) && Keeps(w) && at + 1 == |w.versions|
    requires payload == w.Register(w.Latest().spec.clusterName) && !WellFormed(payload)
    ensures FreshReconcile(w) == Crash(w)
  {
    MalformedFrom(w, at, payload, 2);
  }

  lemma MalformedFrom(w: World, at: nat, payload: Payload, rest: nat)
    requires Ready(w) && Keeps(w) && at + 1 == |w.versions| && rest >= 1
    requires payload == w.Register(w.Latest().spec.clusterName) && !WellFormed(payload)
    ensures ReconcileRun(w, at, Smooth(true, rest + 5)) == Crash(w)
  {
    ReachSample(w, at, rest);
    var sampled := w.(rec := Sampled(at, payload));
    assert Sample(w.(rec := Checked(at)), at, Accepted) == sampled;
    MalformedCrashes(sampled, at, payload, rest);
  }

  lemma MalformedCrashes(w: World, at: nat, payload: Payload, calls: nat)
    requires calls >= 1 && at < |w.versions| && w.versions[at].spec.Periodic() && w.rec == Sampled(at, payload) &&
      !WellFormed(payload)
    ensures Steps(w, Smooth(true, calls)) == Crash(w)
  {
    PublishFirst(w, at, payload, calls - 1);
    assert Publish(w, at, payload, Accepted) == Crash(w);
    IdleSteps(Crash(w), Smooth(true, calls - 1));
  }

  /** Whatever the key holds. */
  lemma KeptIsKept(w: World)
    requires Ready(w) && Keeps(w)
    ensures FreshReconcile(w).cronJobs == w.cronJobs && FreshReconcile(w).name == w.name
  {
    if WellFormed(w.Register(w.Latest().spec.clusterName)) {
      FreshReconcileKeeps(w);
    } else {
      MalformedReconcile(w, |w.versions| - 1, w.Register(w.Latest().spec.clusterName));
    }
  }

  // ---------------------------------------------------------------- interrupted creates

  /** A fresh Reconcile (v1) leaves a CronJob of other information than the spec's exactly when the
      spec has returned to the recorded information, and only a create whose status write was
      lost can have led there; otherwise it deletes the CronJob and the next one is right. */
  lemma WrongCronJobIsKeptExactlyAfterReturn(w: World)
    requires Consistent(w) && Ready(w) && w.HasCronJob()
    ensures var after := FreshReconcile(w); var spec := w.Latest().spec;
      && ((after.HasCronJob() && after.Own().Info() != spec.Info())
          <==> (UpToDate(w.Latest()) && w.Own().Info() != spec.Info()))
      && (UpToDate(w.Latest()) && w.Own().Info() != spec.Info() ==> w.orphan)
      && (!UpToDate(w.Latest()) ==> !after.HasCronJob())
  {
    if UpToDate(w.Latest()) {
      KeptIsKept(w);
    } else {
      FreshReconcileDrops(w);
    }
  }

  /** It does happen, from every world without a CronJob: the create succeeds, its status write
      fails, and the user returns to the recorded information. */
  lemma InterruptedCreateIsNotRepaired(w: World, back: Spec)
    requires Ready(w) && !w.beta && !w.HasCronJob()
    requires back.Info() == w.Latest().status.lastBackupInfo != w.Latest().spec.Info()
    requires back.Periodic() && back.clusterName == w.Latest().spec.clusterName
    ensures var script := Smooth(false, 4) + [Answer(Refused, false)];
      var interrupted := ReconcileRun(w, |w.versions| - 1, script);
      var edited := Step(interrupted, EditSpec(back));
      && Ready(edited) && edited.Latest().spec == back
      && FreshReconcile(edited).HasCronJob()
      && FreshReconcile(edited).Own() == MakeCronJob(w.Latest().spec, MasterClaim(w))
      && FreshReconcile(edited).Own().Info() != back.Info()
  {
    InterruptedThenBack(w, back);
    KeptIsKept(Step(ReconcileRun(w, |w.versions| - 1, Smooth(false, 4) + [Answer(Refused, false)]), EditSpec(back)));
  }

  /** The world in which the user is back. */
  lemma InterruptedThenBack(w: World, back: Spec)
    requires Ready(w) && !w.beta && !w.HasCronJob() && back != w.Latest().spec
    ensures Step(ReconcileRun(w, |w.versions| - 1, Smooth(false, 4) + [Answer(Refused, false)]), EditSpec(back))
         == w.(versions := w.versions + [RedisBackup(back, w.Latest().status)],
               cronJobs := w.cronJobs[w.name := MakeCronJob(w.Latest().spec, MasterClaim(w))],
               orphan := true, rec := Idle(Failed))
  {
    InterruptedCreate(w, Smooth(false, 4) + [Answer(Refused, false)]);
  }

  lemma InterruptedCreate(w: World, script: seq<Answer>)
    requires Ready(w) && !w.HasCronJob() && script == Smooth(false, 4) + [Answer(Refused, false)]
    ensures ReconcileRun(w, |w.versions| - 1, script)
         == w.(cronJobs := w.cronJobs[w.name := MakeCronJob(w.Latest().spec, MasterClaim(w))], orphan := true,
           rec := Idle(Failed))
  {
    var at, claim := |w.versions| - 1, MasterClaim(w);
    var ok, no := Answer(Accepted, false), Answer(Refused, false);
    var rest := [ok] + [no];
    assert Smooth(false, 4) == [ok, ok, ok, ok];
    assert script == [ok] + ([ok] + ([ok] + rest));
    var w1 := w.(rec := Fetched(at));
    assert StepReconcile(w1, ok) == w.(rec := Authorised(at));
    FirstStep(w1, ok, [ok] + ([ok] + rest));
    LocateAndMiss(w, at, ok, rest);
    InterruptedWrite(w.(rec := Missing(at, claim)), at, claim, ok, no);
  }

  lemma LocateAndMiss(w: World, at: nat, ok: Answer, rest: seq<Answer>)
    requires Ready(w) && at + 1 == |w.versions| && ok == Answer(Accepted, false)
    ensures Steps(w.(rec := Authorised(at)), [ok] + ([ok] + rest))
      == Steps(w.(rec := Missing(at, MasterClaim(w))), rest)
  {
    var w2, w3 := w.(rec := Authorised(at)), w.(rec := Located(at, MasterClaim(w)));
    assert Locate(w2, at, Accepted) == w3;
    FirstStep(w2, ok, [ok] + rest);
    FirstStep(w3, ok, rest);
  }

  lemma FirstStep(w: World, answer: Answer, rest: seq<Answer>)
    requires w.versions != [] && w.InRange()
    ensures Steps(w, [answer] + rest) == Steps(StepReconcile(w, answer), rest)
  {
    assert ([answer] + rest)[1..] == rest;
  }

  lemma InterruptedWrite(w: World, at: nat, claim: string, ok: Answer, no: Answer)
    requires at + 1 == |w.versions| && w.rec == Missing(at, claim) && w.Latest().spec.Periodic() && !w.HasCronJob()
    requires ok == Answer(Accepted, false) && no == Answer(Refused, false)
    ensures Steps(w, [ok] + [no])
         == w.(cronJobs := w.cronJobs[w.name := MakeCronJob(w.Latest().spec, claim)], orphan := true,
           rec := Idle(Failed))
  {
    var created := w.(cronJobs := w.cronJobs[w.name := MakeCronJob(w.Latest().spec, claim)], orphan := true,
      rec := Recording(at, true));
    CreatesUnrecorded(w, at, claim);
    FirstStep(w, ok, [no]);
    RefusedWrite(created, no);
  }

  lemma CreatesUnrecorded(w: World, at: nat, claim: string)
    requires at + 1 == |w.versions| && w.rec == Missing(at, claim) && w.Latest().spec.Periodic() && !w.HasCronJob()
    ensures StepReconcile(w, Answer(Accepted, false))
         == w.(cronJobs := w.cronJobs[w.name := MakeCronJob(w.Latest().spec, claim)], orphan := true,
               rec := Recording(at, true))
  {
  }

  lemma RefusedWrite(w: World, no: Answer)
    requires w.InRange() && w.rec.Recording? && no.api == Refused
    ensures Steps(w, [no]) == w.(rec := Idle(Failed))
  {
    assert [no] + [] == [no];
    FirstStep(w, no, []);
    assert Record(w, w.rec.at, w.rec.created, Refused) == w.(rec := Idle(Failed));
  }

  // ---------------------------------------------------------------- the v1beta1 API

  /** On v1beta1 only the claim triggers a rebuild: whatever the spec says now, a CronJob on the
      master's claim stays as it was built while the new information is recorded. So the
      agreement of v1 holds afterwards only if the CronJob had the spec's information before. */
  lemma BetaRecordsWithoutRebuilding(w: World)
    requires Ready(w) && w.beta && w.HasCronJob() && w.Own().claim == MasterClaim(w)
    requires WellFormed(w.Register(w.Latest().spec.clusterName))
    ensures var after := FreshReconcile(w);
      && after.cronJobs == w.cronJobs
      && after.Latest().status.lastBackupInfo == w.Latest().spec.Info()
      && (after.Own().Info() == after.Latest().status.lastBackupInfo <==> w.Own().Info() == w.Latest().spec.Info())
  {
    FreshReconcileKeeps(w);
  }

  // ---------------------------------------------------------------- CycleSync

  /** The claim CycleSync compares with: the master's, or, when the pods cannot be listed, none. */
  function Sought(w: World, at: nat, podsApi: Api): Selection
    requires at < |w.versions|
  {
    if podsApi == Accepted then Master(w, at) else Claim("")
  }

  /** CycleSync deletes nothing but the first CronJob of the listing. With the pods listed it does
      so exactly when there is a usable master with another claim; when listing the pods fails it
      does so for every CronJob that has a claim at all. Nothing else changes. */
  lemma CycleSyncDeletes(w: World, at: nat, podsApi: Api, pick: string)
    requires w.versions != [] && w.InRange() && w.sync.Resting? && at < |w.versions|
    requires pick in w.cronJobs && w.cronJobs[pick].clusterLabel == w.versions[at].spec.clusterName
    ensures var after := SyncRun(w, at, [podsApi, Accepted, Accepted], pick);
      var drops := if podsApi == Accepted then Master(w, at).Claim? && w.cronJobs[pick].claim != Master(w, at).name
                   else w.cronJobs[pick].claim != "";
      after == if drops then CronJobDropped(w, pick) else w.(sync := Resting(Done))
  {
    Looks(w, at, podsApi, Accepted, Accepted, pick);
    if Sought(w, at, podsApi).Claim? {
      ListsAndDrops(w, w.versions[at].spec.clusterName, Sought(w, at, podsApi).name, Accepted, pick);
    }
  }

  /** A CronJob has been deleted, and CycleSync has returned. */
  function CronJobDropped(w: World, target: string): World
  {
    w.(cronJobs := w.cronJobs - {target}, orphan := w.orphan && target != w.name, sync := Resting(Done))
  }

  /** Without a CronJob of the label it returns. */
  lemma CycleSyncFindsNone(w: World, at: nat, podsApi: Api, pick: string)
    requires w.versions != [] && w.InRange() && w.sync.Resting? && at < |w.versions|
    requires forall target | target in w.cronJobs :: w.cronJobs[target].clusterLabel != w.versions[at].spec.clusterName
    ensures SyncRun(w, at, [podsApi, Accepted, Accepted], pick) == w.(sync := Resting(Done))
  {
    var cluster := w.versions[at].spec.clusterName;
    Looks(w, at, podsApi, Accepted, Accepted, pick);
    if Sought(w, at, podsApi).Claim? {
      var listing := w.(sync := Listing(cluster, Sought(w, at, podsApi).name));
      assert NoneLabelled(listing, cluster);
      SyncFirst(listing, Accepted, [Accepted], pick);
      RestingSteps(w.(sync := Resting(Done)), [Accepted], pick);
    }
  }

  /** An error ends the process, whatever Reconcile is doing: a listing of the CronJobs that fails, and
      a delete that fails or whose answer is lost, though that one has been carried out. */
  lemma CycleSyncErrorEndsProcess(w: World, at: nat, podsApi: Api, listApi: Api, dropApi: Api, pick: string)
    requires w.versions != [] && w.InRange() && w.sync.Resting? && at < |w.versions|
    requires podsApi == Accepted ==> Master(w, at).Claim?
    requires pick in w.cronJobs && w.cronJobs[pick].clusterLabel == w.versions[at].spec.clusterName
    requires w.cronJobs[pick].claim != Sought(w, at, podsApi).name
    ensures var after := SyncRun(w, at, [podsApi, listApi, dropApi], pick);
      && (listApi != Accepted || dropApi == Refused ==> after == w.(rec := Idle(Crashed), sync := Resting(Crashed)))
      && (listApi == Accepted && dropApi == Lost ==>
            after == CronJobDropped(w, pick).(rec := Idle(Crashed), sync := Resting(Crashed)))
  {
    var cluster, claim := w.versions[at].spec.clusterName, Sought(w, at, podsApi).name;
    Looks(w, at, podsApi, listApi, dropApi, pick);
    if listApi == Accepted {
      ListsAndDrops(w, cluster, claim, dropApi, pick);
    } else {
      SyncFirst(w.(sync := Listing(cluster, claim)), listApi, [dropApi], pick);
      RestingSteps(Crash(w), [dropApi], pick);
    }
  }

  lemma SyncFirst(w: World, api: Api, rest: seq<Api>, pick: string)
    requires w.versions != [] && w.InRange()
    ensures SyncSteps(w, [api] + rest, pick) == SyncSteps(StepSync(w, api, pick), rest, pick)
  {
    assert ([api] + rest)[1..] == rest;
  }

  lemma Looks(w: World, at: nat, podsApi: Api, listApi: Api, dropApi: Api, pick: string)
    requires w.versions != [] && w.InRange() && w.sync.Resting? && at < |w.versions|
    ensures SyncRun(w, at, [podsApi, listApi, dropApi], pick)
         == var sought := Sought(w, at, podsApi);
            if sought.Claim?
            then SyncSteps(w.(sync := Listing(w.versions[at].spec.clusterName, sought.name)),
                           [listApi] + [dropApi], pick)
            else w.(sync := Resting(Done))
  {
    var looking := w.(sync := Looking(w.versions[at].spec.clusterName));
    assert [podsApi, listApi, dropApi] == [podsApi] + ([listApi] + [dropApi]);
    SyncFirst(looking, podsApi, [listApi] + [dropApi], pick);
    if !Sought(w, at, podsApi).Claim? {
      RestingSteps(w.(sync := Resting(Done)), [listApi] + [dropApi], pick);
    }
  }

  lemma ListsAndDrops(w: World, cluster: string, claim: string, api: Api, pick: string)
    requires w.versions != [] && w.InRange() && Labelled(w, pick, cluster)
    ensures SyncSteps(w.(sync := Listing(cluster, claim)), [Accepted] + [api], pick)
         == if w.cronJobs[pick].claim == claim then w.(sync := Resting(Done))
            else if api == Accepted then CronJobDropped(w, pick)
            else Crash(if api == Lost then CronJobDropped(w, pick) else w)
  {
    var listing := w.(sync := Listing(cluster, claim));
    SyncFirst(listing, Accepted, [api], pick);
    if w.cronJobs[pick].claim == claim {
      RestingSteps(w.(sync := Resting(Done)), [api], pick);
    } else {
      DropsListed(w, api, pick);
    }
  }

  lemma DropsListed(w: World, api: Api, pick: string)
    requires w.versions != [] && w.InRange() && pick in w.cronJobs
    ensures SyncSteps(w.(sync := Dropping(pick)), [api], pick)
         == if api == Accepted then CronJobDropped(w, pick)
            else Crash(if api == Lost then CronJobDropped(w, pick) else w)
  {
    assert [api] + [] == [api];
    SyncFirst(w.(sync := Dropping(pick)), api, [], pick);
  }

  // ---------------------------------------------------------------- the one-shot Job

  /** The API server carries out the create of the Job. */
  predicate MakesJob(w: World, e: Event)
    requires w.InRange()
  {
    && e.ReconcileStep? && w.rec.Missing? && !w.versions[w.rec.at].spec.Periodic()
    && e.answer.api != Refused && w.job.None?
  }

  predicate RemovesJob(w: World, e: Event)
  {
    e.JobRemoved? && w.job.Some?
  }

  ghost function JobsMade(w: World, run: seq<Event>): nat
    requires w.versions != [] && w.InRange()
    decreases run
  {
    if run == [] then 0 else (if MakesJob(w, run[0]) then 1 else 0) + JobsMade(Step(w, run[0]), run[1..])
  }

  ghost function JobsRemoved(w: World, run: seq<Event>): nat
    requires w.versions != [] && w.InRange()
    decreases run
  {
    if run == [] then 0 else (if RemovesJob(w, run[0]) then 1 else 0) + JobsRemoved(Step(w, run[0]), run[1..])
  }

  function OneIfThere(w: World): nat
  {
    if w.job.Some? then 1 else 0
  }

  lemma ReconcileMakesJob(w: World, answer: Answer)
    requires w.versions != [] && w.InRange()
    ensures StepReconcile(w, answer).job.Some? <==> w.job.Some? || MakesJob(w, ReconcileStep(answer))
  {
    match w.rec
    case Missing(at, claim) =>
    case Sampled(at, payload) =>
    case Present(_, _) =>
    case _ =>
  }

  lemma StepCountsJobs(w: World, e: Event)
    requires w.versions != [] && w.InRange()
    ensures Step(w, e).job.Some? <==> (w.job.Some? && !RemovesJob(w, e)) || MakesJob(w, e)
  {
    match e
    case ReconcileStep(answer) => ReconcileMakesJob(w, answer);
    case _ =>
  }

  /** A single backup's Job is made once, and once more for each removal, by its TTL or by hand, and
      never otherwise: in every run from a new resource the creates that the API server carries
      out are the removals, plus one if a Job is there. */
  lemma {:induction false} JobsAreCounted(w: World, run: seq<Event>)
    requires w.versions != [] && w.InRange()
    ensures JobsMade(w, run) + OneIfThere(w) == JobsRemoved(w, run) + OneIfThere(Exec(w, run))
    decreases run
  {
    if run != [] {
      StepCountsJobs(w, run[0]);
      JobsAreCounted(Step(w, run[0]), run[1..]);
    }
  }

  lemma OneJobPerRemoval(start: World, run: seq<Event>)
    requires Initial(start)
    ensures JobsMade(start, run) == JobsRemoved(start, run) + if Exec(start, run).job.Some? then 1 else 0
  {
    JobsAreCounted(start, run);
  }

  /** So it can run twice: a removed Job is made again by the next Reconcile. */
  lemma RemovedJobIsMadeAgain(w: World)
    requires w.versions != [] && w.rec.Idle? && w.job.Some? && !w.Latest().spec.Periodic()
    requires w.Latest().spec.clusterName in w.secrets
    requires Master(w, |w.versions| - 1).Claim?
    ensures var after := ReconcileRun(Step(w, JobRemoved), |w.versions| - 1, Smooth(false, 4));
      var spec := w.Latest().spec;
      && after.job == Some(Job(spec.clusterName, spec.url, spec.secretName, Master(w, |w.versions| - 1).name))
      && after.rec == Idle(Done)
  {
    var at, claim := |w.versions| - 1, Master(w, |w.versions| - 1).name;
    var gone := w.(job := None);
    assert Step(w, JobRemoved) == gone;
    ReachLookup(gone, at, claim, false, 1);
    JobIsMade(gone.(rec := Missing(at, claim)), 1);
  }

  lemma JobIsMade(w: World, calls: nat)
    requires calls >= 1 && w.InRange() && w.rec.Missing? && w.job.None? && !w.versions[w.rec.at].spec.Periodic()
    ensures var after := Steps(w, Smooth(false, calls));
      after.job == Some(MakeJob(w.versions[w.rec.at].spec, w.rec.claim)) && after.rec == Idle(Done)
  {
    CreateFirst(w, w.rec.at, w.rec.claim, calls - 1);
    IdleSteps(Create(w, w.rec.at, w.rec.claim, Accepted), Smooth(false, calls - 1));
  }
}
