/** The cluster left alone (v1): nobody edits the resource, the master stays, every call is accepted.
    What the two handlers do to it then, and what they know about it. */
module BackupFrozen {
  import opened BackupTypes
  import opened BackupMachine
  import opened ApiServer
  import opened BackupAgreement
  import opened BackupCases
  import opened FairDescent

  /** CycleSync lists the CronJobs of a label in no particular order: any of them may come first. */
  ghost predicate MayPick(w: World, pick: string)
  {
    w.sync.Listing? && !NoneLabelled(w, w.sync.cluster) ==> Labelled(w, pick, w.sync.cluster)
  }

  /** One more call of a handler; a handler that has returned starts again. */
  ghost function Take(w: World, turn: Turn, pick: string): (after: World)
    requires w.versions != [] && w.InRange()
    ensures Extends(w, after)
  {
    match turn
    case R => if w.rec.Idle? then StartReconcile(w, |w.versions| - 1)
              else StepReconcile(w, Answer(Accepted, w.HasCronJob()))
    case C => if w.sync.Resting? then StartSync(w, |w.versions| - 1)
              else StepSync(w, Accepted, pick)
  }

  /** A turn is one event of the machine: every call accepted, every read up to date. */
  lemma TurnsAreEvents(w: World, turn: Turn, pick: string)
    requires w.versions != [] && w.InRange()
    ensures exists e :: Take(w, turn, pick) == Step(w, e)
  {
    var last := |w.versions| - 1;
    var e := match turn
             case R => if w.rec.Idle? then ReconcileStart(last) else ReconcileStep(Answer(Accepted, w.HasCronJob()))
             case C => if w.sync.Resting? then SyncStart(last) else SyncStep(Accepted, pick);
    assert Take(w, turn, pick) == Step(w, e);
  }

  function Cluster(w: World): string
    requires w.versions != []
  {
    w.Latest().spec.clusterName
  }

  /** The environment in which the handlers are left alone: a periodic spec, a usable master, the
      secret, and a readable record. There may be other CronJobs, also of the same cluster. */
  predicate Frozen(w: World)
  {
    && !w.beta && w.versions != []
    && w.Latest().spec.Periodic()
    && Cluster(w) in w.secrets
    && Select(w.PodsOf(Cluster(w))).Claim?
    && WellFormed(w.Register(Cluster(w)))
  }

  /** The CronJob the spec and the master ask for. */
  function Wanted(w: World): CronJob
    requires w.versions != [] && Select(w.PodsOf(Cluster(w))).Claim?
  {
    MakeCronJob(w.Latest().spec, Select(w.PodsOf(Cluster(w))).name)
  }

  predicate Bad(w: World)
    requires w.versions != [] && Select(w.PodsOf(Cluster(w))).Claim?
  {
    w.HasCronJob() && w.Own() != Wanted(w)
  }

  /** The other CronJobs with the cluster's label. */
  function Others(w: World): set<string>
    requires w.versions != []
  {
    set target | target in w.cronJobs && target != w.name && w.cronJobs[target].clusterLabel == Cluster(w)
  }

  /** One of them is on the master's claim: CycleSync may find it first and look no further. */
  predicate Crowded(w: World)
    requires w.versions != [] && Select(w.PodsOf(Cluster(w))).Claim?
  {
    exists target | target in Others(w) :: target in w.cronJobs && w.cronJobs[target].claim == Wanted(w).claim
  }

  /** Neither handler will ever delete this CronJob, whatever CycleSync finds first: its label names
      another cluster, or it is on the master's claim. */
  predicate Unseen(w: World)
    requires w.versions != [] && Select(w.PodsOf(Cluster(w))).Claim?
  {
    w.HasCronJob() && (w.Own().clusterLabel != Cluster(w) || w.Own().claim == Wanted(w).claim)
  }

  /** No handler need ever delete this CronJob: the recorded information is the spec's, so Reconcile
      keeps it, and CycleSync does not see it or may always find another one before it. */
  predicate Stuck(w: World)
    requires w.versions != [] && Select(w.PodsOf(Cluster(w))).Claim?
  {
    Bad(w) && UpToDate(w.Latest()) && (Unseen(w) || Crowded(w))
  }

  /** What a Reconcile knows when nobody else edits the resource. */
  predicate RecKnows(w: World)
    requires Frozen(w) && w.InRange()
  {
    && (w.rec.Idle? || w.rec.at + 1 == |w.versions|)
    && match w.rec
       case Idle(_) => true
       case Fetched(_) => true
       case Authorised(_) => true
       case Located(_, claim) => claim == Wanted(w).claim
       case Missing(_, claim) => claim == Wanted(w).claim && !w.HasCronJob()
       case Present(_, claim) => claim == Wanted(w).claim
       case Rebuild(_) => !UpToDate(w.Latest())
       case Checked(_) => UpToDate(w.Latest())
       case Sampled(_, payload) => UpToDate(w.Latest()) && payload == w.Register(Cluster(w)) != Nothing
       case Recording(_, created) => if created then !Bad(w) else UpToDate(w.Latest())
  }

  predicate SyncKnows(w: World)
    requires Frozen(w)
  {
    match w.sync
    case Resting(_) => true
    case Looking(cluster) => cluster == Cluster(w)
    case Listing(cluster, claim) => cluster == Cluster(w) && claim == Wanted(w).claim
    case Dropping(target) =>
      target == w.name || (target in Others(w) && target in w.cronJobs && w.cronJobs[target].claim != Wanted(w).claim)
  }

  predicate Running(w: World)
  {
    Frozen(w) && w.InRange()
  }

  /** Both handlers know only what is true. */
  predicate Known(w: World)
  {
    Running(w) && RecKnows(w) && SyncKnows(w)
  }

  // ---------------------------------------------------------------- the cluster stays as it is

  /** What a call may do to a frozen cluster, whatever its handler has read before. */
  predicate StaysIn(w: World, after: World)
    requires w.versions != []
  {
    && after.name == w.name && after.beta == w.beta && after.versions != [] && after.InRange()
    && after.Latest().spec == w.Latest().spec && SameSurroundings(w, after)
    && forall target | target in after.cronJobs && target != w.name ::
         target in w.cronJobs && after.cronJobs[target] == w.cronJobs[target]
  }

  lemma StaysFrozen(w: World, after: World)
    requires Frozen(w) && StaysIn(w, after)
    ensures Frozen(after) && Wanted(after) == Wanted(w)
  {
    assert after.Register(Cluster(w)) == w.Register(Cluster(w)) && after.PodsOf(Cluster(w)) == w.PodsOf(Cluster(w));
  }

  /** A call that stores at most one more version, with the spec of the one before. */
  lemma WriteStaysIn(w: World, after: World)
    requires w.versions != [] && Extends(w, after) && SameSurroundings(w, after) && SameObjects(w, after)
    requires after.versions == w.versions || (after.versions != [] && after.Latest().spec == w.Latest().spec)
    ensures StaysIn(w, after)
  {
  }

  lemma PublishStaysIn(w: World, at: nat, payload: Payload)
    requires w.versions != [] && at < |w.versions|
    ensures StaysIn(w, Publish(w, at, payload, Accepted))
  {
    var records := if payload.Records? then payload.list else [];
    if !w.versions[at].spec.Periodic() {
      OverwriteStaysIn(w, at, w.versions[at].status.(conditions := records));
    } else if records != [] && IsNews(w.versions[at].status.conditions, records[0]) {
      AppendStaysIn(w, at, records[0]);
    } else {
      WriteStaysIn(w, Publish(w, at, payload, Accepted));
    }
  }

  lemma OverwriteStaysIn(w: World, at: nat, status: Status)
    requires w.versions != [] && at < |w.versions|
    ensures StaysIn(w, Overwrite(w, at, status, Accepted, Idle(Done)))
  {
    WriteStaysIn(w, Overwrite(w, at, status, Accepted, Idle(Done)));
  }

  lemma AppendStaysIn(w: World, at: nat, record: Condition)
    requires w.versions != [] && at < |w.versions|
    ensures StaysIn(w, Append(w, at, record, Accepted))
  {
    WriteStaysIn(w, Append(w, at, record, Accepted));
  }

  lemma RecordStaysIn(w: World, at: nat, created: bool)
    requires w.versions != [] && at < |w.versions|
    ensures StaysIn(w, Record(w, at, created, Accepted))
  {
    var after := Record(w, at, created, Accepted);
    assert after.versions == w.versions || (at + 1 == |w.versions| && after.Latest().spec == w.versions[at].spec);
    WriteStaysIn(w, after);
  }

  lemma CreateStaysIn(w: World, at: nat, claim: string)
    requires w.versions != [] && at < |w.versions|
    ensures StaysIn(w, Create(w, at, claim, Accepted))
  {
  }

  lemma ReconcileStaysIn(w: World, answer: Answer)
    requires w.versions != [] && w.InRange() && answer.api == Accepted
    ensures StaysIn(w, StepReconcile(w, answer))
  {
    match w.rec
    case Idle(_) =>
    case Missing(at, claim) => CreateStaysIn(w, at, claim);
    case Sampled(at, payload) => PublishStaysIn(w, at, payload);
    case Recording(at, created) => RecordStaysIn(w, at, created);
    case Rebuild(_) => assert StaysIn(w, Drop(w, Accepted));
    case _ => WriteStaysIn(w, StepReconcile(w, answer));
  }

  lemma TurnStaysIn(w: World, turn: Turn, pick: string)
    requires w.versions != [] && w.InRange()
    ensures StaysIn(w, Take(w, turn, pick))
  {
    match turn
    case R =>
      if !w.rec.Idle? {
        ReconcileStaysIn(w, Answer(Accepted, w.HasCronJob()));
      }
    case C =>
  }

  // ---------------------------------------------------------------- what they know stays true

  lemma InspectKnows(w: World, at: nat, claim: string)
    requires Frozen(w) && w.InRange() && RecKnows(w) && w.rec == Present(at, claim)
    ensures Frozen(Inspect(w, at, claim, Accepted)) && RecKnows(Inspect(w, at, claim, Accepted))
  {
    assert Inspect(w, at, claim, Accepted) == w.(rec := if UpToDate(w.Latest()) then Checked(at) else Rebuild(at));
  }

  lemma PublishKnows(w: World, at: nat, payload: Payload)
    requires Frozen(w) && w.InRange() && RecKnows(w) && w.rec == Sampled(at, payload)
    ensures Frozen(Publish(w, at, payload, Accepted)) && RecKnows(Publish(w, at, payload, Accepted))
  {
    var after := Publish(w, at, payload, Accepted);
    PublishStaysIn(w, at, payload);
    StaysFrozen(w, after);
    assert after.versions[|after.versions| - 1].status.lastBackupInfo == w.Latest().status.lastBackupInfo;
  }

  lemma CreateKnows(w: World, at: nat, claim: string)
    requires Frozen(w) && w.InRange() && RecKnows(w) && w.rec == Missing(at, claim)
    ensures Frozen(Create(w, at, claim, Accepted)) && RecKnows(Create(w, at, claim, Accepted))
  {
    CreateStaysIn(w, at, claim);
    StaysFrozen(w, Create(w, at, claim, Accepted));
  }

  lemma SampleKnows(w: World, at: nat)
    requires Frozen(w) && w.InRange() && RecKnows(w) && w.rec == Checked(at)
    ensures Frozen(Sample(w, at, Accepted)) && RecKnows(Sample(w, at, Accepted))
  {
    StaysFrozen(w, Sample(w, at, Accepted));
  }

  lemma LookupKnows(w: World, answer: Answer)
    requires Frozen(w) && w.InRange() && RecKnows(w) && answer == Answer(Accepted, w.HasCronJob())
    requires w.rec.Fetched? || w.rec.Authorised? || w.rec.Located?
    ensures Frozen(StepReconcile(w, answer)) && RecKnows(StepReconcile(w, answer))
  {
    StaysFrozen(w, StepReconcile(w, answer));
  }

  /** What a Reconcile that has started since the freeze knows stays true, whatever CycleSync does. */
  lemma RecKnowsStays(w: World, turn: Turn, pick: string)
    requires Frozen(w) && w.InRange() && RecKnows(w)
    ensures Frozen(Take(w, turn, pick)) && RecKnows(Take(w, turn, pick))
  {
    TurnStaysIn(w, turn, pick);
    StaysFrozen(w, Take(w, turn, pick));
    match turn
    case C => SyncKeepsRecKnows(w, pick);
    case R =>
      match w.rec
      case Idle(_) =>
      case Present(at, claim) => InspectKnows(w, at, claim);
      case Missing(at, claim) => CreateKnows(w, at, claim);
      case Checked(at) => SampleKnows(w, at);
      case Sampled(at, payload) => PublishKnows(w, at, payload);
      case Rebuild(_) =>
      case Recording(_, _) =>
      case _ => LookupKnows(w, Answer(Accepted, w.HasCronJob()));
  }

  lemma SyncKeepsRecKnows(w: World, pick: string)
    requires Frozen(w) && w.InRange() && RecKnows(w) && Frozen(Take(w, C, pick)) &&
      Wanted(Take(w, C, pick)) == Wanted(w)
    ensures RecKnows(Take(w, C, pick))
  {
  }

  /** Reconcile touches no CronJob but its own. */
  ghost predicate KeepsOthers(w: World, after: World)
  {
    after.name == w.name && forall target | target != w.name ::
      (target in after.cronJobs <==> target in w.cronJobs)
      && (target in w.cronJobs ==> after.cronJobs[target] == w.cronJobs[target])
  }

  lemma ReconcileKeepsOthers(w: World, pick: string)
    requires w.versions != [] && w.InRange()
    ensures KeepsOthers(w, Take(w, R, pick))
  {
    match w.rec
    case Missing(at, claim) => assert KeepsOthers(w, Create(w, at, claim, Accepted));
    case Rebuild(_) => assert KeepsOthers(w, Drop(w, Accepted));
    case _ => assert SameObjects(w, Take(w, R, pick));
  }

  lemma SameOthers(w: World, after: World)
    requires Frozen(w) && Frozen(after) && KeepsOthers(w, after) && Wanted(after) == Wanted(w)
    ensures Others(after) == Others(w) && (Crowded(after) <==> Crowded(w))
  {
    assert Cluster(w) == Wanted(w).clusterLabel && Cluster(after) == Wanted(after).clusterLabel;
    assert Others(after) == Others(w);
    if Crowded(w) {
      var target :| target in Others(w) && w.cronJobs[target].claim == Wanted(w).claim;
      assert target in Others(after) && after.cronJobs[target].claim == Wanted(after).claim;
    }
    if Crowded(after) {
      var target :| target in Others(after) && after.cronJobs[target].claim == Wanted(after).claim;
      assert target in Others(w) && w.cronJobs[target].claim == Wanted(w).claim;
    }
  }

  /** What such a CycleSync knows. */
  lemma SyncKnowsStays(w: World, turn: Turn, pick: string)
    requires Running(w) && SyncKnows(w) && MayPick(w, pick)
    ensures Running(Take(w, turn, pick)) && SyncKnows(Take(w, turn, pick))
  {
    TurnStaysIn(w, turn, pick);
    StaysFrozen(w, Take(w, turn, pick));
    match turn
    case R =>
      ReconcileKeepsOthers(w, pick);
      SameOthers(w, Take(w, R, pick));
    case C =>
      if w.sync.Listing? {
        ListKnows(w, pick);
      }
  }

  lemma ListKnows(w: World, pick: string)
    requires Running(w) && SyncKnows(w) && MayPick(w, pick) && w.sync.Listing?
    ensures var after := List(w, w.sync.cluster, w.sync.claim, Accepted, pick);
      && after == w.(sync := after.sync)
      && (after.sync.Resting? ||
           (after.sync == Dropping(pick) && Labelled(w, pick, Cluster(w)) && w.cronJobs[pick].claim != Wanted(w).claim))
  {
  }

  /** In a cluster left alone the handlers never unlearn what is true. */
  lemma KnownStays(w: World, turn: Turn, pick: string)
    requires Known(w) && MayPick(w, pick)
    ensures Known(Take(w, turn, pick)) && Wanted(Take(w, turn, pick)) == Wanted(w)
  {
    TurnStaysIn(w, turn, pick);
    StaysFrozen(w, Take(w, turn, pick));
    RecKnowsStays(w, turn, pick);
    SyncKnowsStays(w, turn, pick);
  }
}
