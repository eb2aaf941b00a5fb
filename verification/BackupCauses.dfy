/** Why a CronJob or the Job is made, a CronJob deleted, the resource written, in every run: behind each
    change there is the earlier call at which a handler saw what it acts on, however much has happened
    in between. */
module BackupCauses {
  import opened Wrappers
  import opened BackupTypes
  import opened BackupMachine
  import opened ApiServer
  import opened BackupAgreement

  /** The world after the first `i` events. */
  ghost function Was(start: World, run: seq<Event>, i: nat): (w: World)
    requires start.versions != [] && start.InRange() && i <= |run|
    ensures w.versions != [] && w.InRange()
  {
    Exec(start, run[..i])
  }

  lemma WasStep(start: World, run: seq<Event>, i: nat)
    requires start.versions != [] && start.InRange() && i < |run|
    ensures Was(start, run, i + 1) == Step(Was(start, run, i), run[i])
  {
    var last := [run[i]];
    assert run[..i + 1] == run[..i] + last;
    ExecAppend(start, run[..i], last);
    assert last[1..] == [];
  }

  // ---------------------------------------------------------------- what a handler sees

  /** Reconcile finds this claim on the master of its version's cluster. */
  predicate Selects(w: World, at: nat, claim: string)
  {
    && w.rec == Authorised(at) && at < |w.versions|
    && Select(w.PodsOf(w.versions[at].spec.clusterName)) == Claim(claim)
  }

  /** A version that asks for a CronJob and, on v1, is not the one recorded. */
  predicate Rebuilds(w: World, at: nat)
  {
    at < |w.versions| && w.versions[at].spec.Periodic() && (w.beta || !UpToDate(w.versions[at]))
  }

  /** Reconcile decides to rebuild; on v1beta1 it sees another claim in the CronJob. */
  predicate Decides(w: World, at: nat, claim: string)
  {
    w.rec == Present(at, claim) && Rebuilds(w, at) && (w.beta ==> w.HasCronJob() && w.Own().claim != claim)
  }

  /** CycleSync finds this claim on the cluster's master, or goes on without one after an error. */
  predicate Looks(w: World, e: Event, cluster: string, claim: string)
  {
    && w.sync == Looking(cluster) && e.SyncStep?
    && if e.api == Accepted then Select(w.PodsOf(cluster)) == Claim(claim) else claim == ""
  }

  /** CycleSync sees another claim in a CronJob of the cluster's label. */
  ghost predicate Compares(w: World, target: string, cluster: string, claim: string)
  {
    w.sync == Listing(cluster, claim) && Labelled(w, target, cluster) && w.cronJobs[target].claim != claim
  }

  // ---------------------------------------------------------------- and when it did

  ghost predicate Selected(start: World, run: seq<Event>, i: nat, at: nat, claim: string)
    requires start.versions != [] && start.InRange() && i <= |run|
  {
    exists h | 0 <= h < i :: Selects(Was(start, run, h), at, claim)
  }

  ghost predicate Decided(start: World, run: seq<Event>, i: nat, at: nat, claim: string)
    requires start.versions != [] && start.InRange() && i <= |run|
  {
    exists h | 0 <= h < i :: Decides(Was(start, run, h), at, claim) && Selected(start, run, h, at, claim)
  }

  ghost predicate Looked(start: World, run: seq<Event>, i: nat, cluster: string, claim: string)
    requires start.versions != [] && start.InRange() && i <= |run|
  {
    exists h | 0 <= h < i :: Looks(Was(start, run, h), run[h], cluster, claim)
  }

  ghost predicate Compared(start: World, run: seq<Event>, i: nat, target: string, cluster: string, claim: string)
    requires start.versions != [] && start.InRange() && i <= |run|
  {
    exists h | 0 <= h < i ::
      Compares(Was(start, run, h), target, cluster, claim) && Looked(start, run, h, cluster, claim)
  }

  /** Reconcile works on a version with the spec of one for whose cluster it had selected a claim: that
      one, or the one it has stored itself in between. */
  ghost predicate Acts(start: World, run: seq<Event>, i: nat, w: World, at: nat)
    requires start.versions != [] && start.InRange() && i <= |run|
  {
    exists v: nat, claim :: Selected(start, run, i, v, claim) && SameSpec(w, v, at)
  }

  predicate SameSpec(w: World, v: nat, at: nat)
  {
    v <= at < |w.versions| && w.versions[v].spec == w.versions[at].spec
  }

  ghost predicate RecExplained(start: World, run: seq<Event>, i: nat, w: World)
    requires start.versions != [] && start.InRange() && i <= |run|
  {
    match w.rec
    case Located(at, claim) => Selected(start, run, i, at, claim)
    case Missing(at, claim) => Selected(start, run, i, at, claim)
    case Present(at, claim) => Selected(start, run, i, at, claim)
    case Rebuild(at) => Rebuilds(w, at) && exists claim :: Decided(start, run, i, at, claim)
    case Checked(at) => Acts(start, run, i, w, at)
    case Sampled(at, _) => Acts(start, run, i, w, at)
    case Recording(at, _) => Acts(start, run, i, w, at)
    case _ => true
  }

  ghost predicate SyncExplained(start: World, run: seq<Event>, i: nat, w: World)
    requires start.versions != [] && start.InRange() && i <= |run|
  {
    match w.sync
    case Listing(cluster, claim) => Looked(start, run, i, cluster, claim)
    case Dropping(target) => exists cluster, claim :: Compared(start, run, i, target, cluster, claim)
    case _ => true
  }

  // ---------------------------------------------------------------- one event

  /** Where a Reconcile that is at one of these stages was before. */
  predicate RecCame(w: World, after: World)
  {
    match after.rec
    case Located(at, claim) => after.rec == w.rec || Selects(w, at, claim)
    case Missing(at, claim) => after.rec == w.rec || w.rec == Located(at, claim)
    case Present(at, claim) => after.rec == w.rec || w.rec == Located(at, claim)
    case Rebuild(at) => Rebuilds(after, at) && (after.rec == w.rec || (w.rec.Present? && Decides(w, at, w.rec.claim)))
    case Checked(at) => after.rec == w.rec || (w.rec.Present? && SameSpec(after, w.rec.at, at))
    case Sampled(at, _) => after.rec == w.rec || (w.rec.Checked? && SameSpec(after, w.rec.at, at))
    case Recording(at, _) =>
      after.rec == w.rec || ((w.rec.Missing? || w.rec.Checked? || w.rec.Sampled?) && SameSpec(after, w.rec.at, at))
    case _ => true
  }

  lemma CallsCame(w: World, answer: Answer)
    requires w.versions != [] && w.InRange() && !w.rec.Idle?
    ensures RecCame(w, StepReconcile(w, answer))
  {
    assert Follows(w.rec, StepReconcile(w, answer).rec);
    match w.rec
    case Authorised(at) => LocateCame(w, at, answer.api);
    case Present(at, claim) => InspectCame(w, at, claim, answer.api);
    case Sampled(at, payload) => PublishCame(w, at, payload, answer.api);
    case _ =>
  }

  lemma PublishCame(w: World, at: nat, payload: Payload, api: Api)
    requires at < |w.versions| && w.rec == Sampled(at, payload)
    ensures RecCame(w, Publish(w, at, payload, api))
  {
  }

  lemma LocateCame(w: World, at: nat, api: Api)
    requires at < |w.versions| && w.rec == Authorised(at)
    ensures RecCame(w, Locate(w, at, api))
  {
  }

  lemma InspectCame(w: World, at: nat, claim: string, api: Api)
    requires at < |w.versions| && w.rec == Present(at, claim)
    ensures RecCame(w, Inspect(w, at, claim, api))
  {
  }

  lemma RecComes(w: World, e: Event)
    requires w.versions != [] && w.InRange()
    requires w.rec.Rebuild? ==> Rebuilds(w, w.rec.at)
    ensures RecCame(w, Step(w, e))
  {
    match e
    case ReconcileStep(answer) =>
      if !w.rec.Idle? {
        CallsCame(w, answer);
      }
    case ReconcileStart(_) =>
    case _ =>
  }

  ghost predicate SyncCame(w: World, e: Event, after: World)
  {
    match after.sync
    case Listing(cluster, claim) => after.sync == w.sync || Looks(w, e, cluster, claim)
    case Dropping(target) =>
      after.sync == w.sync || (w.sync.Listing? && Compares(w, target, w.sync.cluster, w.sync.claim))
    case _ => true
  }

  lemma SyncComes(w: World, e: Event)
    requires w.versions != [] && w.InRange()
    ensures SyncCame(w, e, Step(w, e))
  {
    match e
    case SyncStep(api, pick) => SyncCallsCame(w, e, api, pick);
    case SyncStart(_) =>
    case _ =>
  }

  lemma ListCame(w: World, e: Event, cluster: string, claim: string, api: Api, pick: string)
    requires w.versions != [] && w.sync == Listing(cluster, claim)
    ensures SyncCame(w, e, List(w, cluster, claim, api, pick))
  {
  }

  lemma SyncCallsCame(w: World, e: Event, api: Api, pick: string)
    requires w.versions != [] && w.InRange() && e == SyncStep(api, pick)
    ensures SyncCame(w, e, StepSync(w, api, pick))
  {
    match w.sync
    case Looking(cluster) => LookCame(w, e, cluster, api);
    case Listing(cluster, claim) => ListCame(w, e, cluster, claim, api, pick);
    case Dropping(target) => assert DropTarget(w, target, api).sync.Resting?;
    case Resting(_) =>
  }

  lemma LookCame(w: World, e: Event, cluster: string, api: Api)
    requires w.versions != [] && w.sync == Looking(cluster) && e.SyncStep? && e.api == api
    ensures SyncCame(w, e, Look(w, cluster, api))
  {
  }

  // ---------------------------------------------------------------- whole runs

  lemma {:induction false} RecIsExplained(start: World, run: seq<Event>, i: nat)
    requires start.versions != [] && start.rec.Idle? && i <= |run|
    ensures RecExplained(start, run, i, Was(start, run, i))
  {
    if i > 0 {
      var j: nat := i - 1;
      RecIsExplained(start, run, j);
      WasStep(start, run, j);
      RecComes(Was(start, run, j), run[j]);
      RecStaysExplained(start, run, j, Was(start, run, j), Was(start, run, i));
      assert j + 1 == i;
    }
  }

  lemma ActsOn(start: World, run: seq<Event>, j: nat, before: World, after: World, at: nat)
    requires start.versions != [] && start.InRange() && j < |run|
    requires !before.rec.Idle? && before.InRange() && before.versions <= after.versions
    requires RecExplained(start, run, j, before)
    requires before.rec.Present? || before.rec.Missing? || before.rec.Checked? || before.rec.Sampled? ||
      before.rec.Recording?
    requires SameSpec(after, before.rec.at, at)
    ensures Acts(start, run, j + 1, after, at)
  {
    if before.rec.Present? || before.rec.Missing? {
      assert Selected(start, run, j + 1, before.rec.at, before.rec.claim);
    } else {
      var v: nat, claim :| Selected(start, run, j, v, claim) && SameSpec(before, v, before.rec.at);
      assert Selected(start, run, j + 1, v, claim) && SameSpec(after, v, at);
    }
  }

  lemma RecStaysExplained(start: World, run: seq<Event>, j: nat, before: World, after: World)
    requires start.versions != [] && start.InRange() && j < |run| && before == Was(start, run, j)
    requires RecExplained(start, run, j, before) && RecCame(before, after) && before.versions <= after.versions
    requires before.InRange()
    ensures RecExplained(start, run, j + 1, after)
  {
    match after.rec
    case Checked(at) => ActsOn(start, run, j, before, after, at);
    case Sampled(at, _) => ActsOn(start, run, j, before, after, at);
    case Recording(at, _) => ActsOn(start, run, j, before, after, at);
    case Rebuild(at) =>
      if after.rec != before.rec {
        assert Decided(start, run, j + 1, at, before.rec.claim);
      } else {
        var claim :| Decided(start, run, j, at, claim);
        assert Decided(start, run, j + 1, at, claim);
      }
    case _ =>
  }

  lemma {:induction false} SyncIsExplained(start: World, run: seq<Event>, i: nat)
    requires start.versions != [] && start.InRange() && start.sync.Resting? && i <= |run|
    ensures SyncExplained(start, run, i, Was(start, run, i))
  {
    if i > 0 {
      var j: nat := i - 1;
      SyncIsExplained(start, run, j);
      WasStep(start, run, j);
      SyncComes(Was(start, run, j), run[j]);
      SyncStaysExplained(start, run, j, Was(start, run, j), Was(start, run, i));
      assert j + 1 == i;
    }
  }

  lemma SyncStaysExplained(start: World, run: seq<Event>, j: nat, before: World, after: World)
    requires start.versions != [] && start.InRange() && j < |run| && before == Was(start, run, j)
    requires SyncExplained(start, run, j, before) && SyncCame(before, run[j], after)
    ensures SyncExplained(start, run, j + 1, after)
  {
    match after.sync
    case Dropping(target) =>
      if after.sync != before.sync {
        assert Compared(start, run, j + 1, target, before.sync.cluster, before.sync.claim);
      } else {
        var cluster, claim :| Compared(start, run, j, target, cluster, claim);
        assert Compared(start, run, j + 1, target, cluster, claim);
      }
    case _ =>
  }

  // ---------------------------------------------------------------- changes of CronJobs

  /** Who deletes a CronJob with this event. */
  ghost predicate Deletes(w: World, e: Event, target: string)
    requires w.InRange()
  {
    || e == DeleteCronJob(target)
    || (e.ReconcileStep? && w.rec.Rebuild? && target == w.name)
    || (e.SyncStep? && w.sync == Dropping(target))
  }

  /** Who makes or replaces one. */
  predicate Makes(w: World, e: Event, target: string, made: CronJob)
    requires w.InRange()
  {
    || (e == SetForeign(target, made) && target != w.name)
    || (e.ReconcileStep? && w.rec.Missing? && target == w.name && target !in w.cronJobs
        && w.versions[w.rec.at].spec.Periodic() && made == MakeCronJob(w.versions[w.rec.at].spec, w.rec.claim))
  }

  lemma CallsChange(w: World, answer: Answer, target: string)
    requires w.versions != [] && w.InRange()
    ensures var e, after := ReconcileStep(answer), StepReconcile(w, answer);
      && (target in w.cronJobs && target !in after.cronJobs ==> Deletes(w, e, target))
      && (target in after.cronJobs && (target !in w.cronJobs || after.cronJobs[target] != w.cronJobs[target]) ==>
            Makes(w, e, target, after.cronJobs[target]))
  {
    match w.rec
    case Missing(at, claim) => CreateChanges(w, at, claim, answer, target);
    case Rebuild(_) =>
    case Idle(_) =>
    case _ => assert SameObjects(w, StepReconcile(w, answer));
  }

  lemma CreateChanges(w: World, at: nat, claim: string, answer: Answer, target: string)
    requires at < |w.versions| && w.rec == Missing(at, claim)
    ensures var after := Create(w, at, claim, answer.api);
      && (target in w.cronJobs ==> target in after.cronJobs && after.cronJobs[target] == w.cronJobs[target])
      && (target in after.cronJobs && target !in w.cronJobs ==>
           Makes(w, ReconcileStep(answer), target, after.cronJobs[target]))
  {
  }

  lemma SyncChanges(w: World, api: Api, pick: string, target: string)
    requires w.versions != [] && w.InRange()
    ensures var after := StepSync(w, api, pick);
      && (target in w.cronJobs && target !in after.cronJobs ==> w.sync == Dropping(target))
      && (target in after.cronJobs ==> target in w.cronJobs && after.cronJobs[target] == w.cronJobs[target])
  {
    match w.sync
    case Dropping(_) =>
    case _ => assert SameObjects(w, StepSync(w, api, pick));
  }

  lemma EventsChange(w: World, e: Event, target: string)
    requires w.versions != [] && w.InRange()
    ensures var after := Step(w, e);
      && (target in w.cronJobs && target !in after.cronJobs ==> Deletes(w, e, target))
      && (target in after.cronJobs && (target !in w.cronJobs || after.cronJobs[target] != w.cronJobs[target]) ==>
            Makes(w, e, target, after.cronJobs[target]))
  {
    match e
    case ReconcileStep(answer) => CallsChange(w, answer, target);
    case SyncStep(api, pick) => SyncChanges(w, api, pick, target);
    case DeleteCronJob(_) =>
    case SetForeign(_, _) =>
    case _ =>
  }

  /** Deletes are sound in every run: apart from other people's, a CronJob is deleted either by a
      Reconcile whose version asks for a CronJob and (v1) is not recorded, which had selected a claim
      and then decided to rebuild (v1beta1: seen another claim in the CronJob); or by a CycleSync that
      had looked for the master's claim and then seen another one in this CronJob. */
  lemma DeletesAreExplained(start: World, run: seq<Event>, i: nat, target: string)
    requires Initial(start) && i < |run|
    requires target in Was(start, run, i).cronJobs && target !in Was(start, run, i + 1).cronJobs
    ensures var w := Was(start, run, i);
      || run[i] == DeleteCronJob(target)
      || (w.rec.Rebuild? && target == w.name && Rebuilds(w, w.rec.at) &&
           exists claim :: Decided(start, run, i, w.rec.at, claim))
      || (w.sync == Dropping(target) && exists cluster, claim :: Compared(start, run, i, target, cluster, claim))
  {
    WasStep(start, run, i);
    EventsChange(Was(start, run, i), run[i], target);
    RecIsExplained(start, run, i);
    SyncIsExplained(start, run, i);
  }

  /** And so are creates: the operator makes no CronJob but its own, where there is none, for the
      version it works on and a claim it had selected on the master of that version's cluster. */
  lemma CreatesAreExplained(start: World, run: seq<Event>, i: nat, target: string)
    requires Initial(start) && i < |run| && target in Was(start, run, i + 1).cronJobs
    requires target in Was(start, run, i).cronJobs ==>
      Was(start, run, i).cronJobs[target] != Was(start, run, i + 1).cronJobs[target]
    ensures var w, made := Was(start, run, i), Was(start, run, i + 1).cronJobs[target];
      Makes(w, run[i], target, made) &&
        (target == w.name ==> w.rec.Missing? && Selected(start, run, i, w.rec.at, w.rec.claim))
  {
    WasStep(start, run, i);
    EventsChange(Was(start, run, i), run[i], target);
    RecIsExplained(start, run, i);
  }

  // ---------------------------------------------------------------- changes of the resource and the Job

  /** Who stores a version with this event. */
  predicate Stores(w: World, e: Event, next: RedisBackup)
    requires w.versions != []
  {
    || (e.EditSpec? && next == RedisBackup(e.spec, w.Latest().status))
    || (e.ReconcileStep? && (w.rec.Sampled? || w.rec.Recording?) && w.rec.at + 1 == |w.versions| &&
         next.spec == w.Latest().spec)
  }

  /** No event but these two changes the versions or makes the Job. */
  lemma CallsStore(w: World, answer: Answer)
    requires w.versions != [] && w.InRange()
    ensures var e, after := ReconcileStep(answer), StepReconcile(w, answer);
      after.versions == w.versions ||
      (after.versions == w.versions + [after.Latest()] && Stores(w, e, after.Latest()))
  {
    match w.rec
    case Sampled(at, payload) => PublishStores(w, at, payload, answer.api);
    case Recording(at, created) => RecordStores(w, at, created, answer.api);
    case _ =>
  }

  lemma PublishStores(w: World, at: nat, payload: Payload, api: Api)
    requires at < |w.versions|
    ensures var after := Publish(w, at, payload, api);
      after.versions == w.versions ||
      (at + 1 == |w.versions| && after.versions == w.versions + [after.Latest()] &&
        after.Latest().spec == w.Latest().spec)
  {
  }

  lemma RecordStores(w: World, at: nat, created: bool, api: Api)
    requires at < |w.versions|
    ensures var after := Record(w, at, created, api);
      after.versions == w.versions ||
      (at + 1 == |w.versions| && after.versions == w.versions + [after.Latest()] &&
        after.Latest().spec == w.Latest().spec)
  {
  }

  lemma EventsStore(w: World, e: Event)
    requires w.versions != [] && w.InRange()
    ensures var after := Step(w, e);
      after.versions == w.versions ||
      (after.versions == w.versions + [after.Latest()] && Stores(w, e, after.Latest()))
  {
    match e
    case ReconcileStep(answer) => CallsStore(w, answer);
    case EditSpec(_) =>
    case _ =>
  }

  /** Writes are sound in every run: a new version of the resource is an edit of the spec by the user,
      or a status that a Reconcile stores over the latest version, with its spec, after it had
      selected a claim on the master of that spec's cluster. */
  lemma WritesAreExplained(start: World, run: seq<Event>, i: nat)
    requires Initial(start) && i < |run| && Was(start, run, i + 1).versions != Was(start, run, i).versions
    ensures var w, after := Was(start, run, i), Was(start, run, i + 1);
      && after.versions == w.versions + [after.Latest()] && Stores(w, run[i], after.Latest())
      && (run[i].ReconcileStep? ==> !w.rec.Idle? && Acts(start, run, i, w, w.rec.at))
  {
    WasStep(start, run, i);
    EventsStore(Was(start, run, i), run[i]);
    RecIsExplained(start, run, i);
  }

  /** And the operator makes the Job where there is none, for the version it works on and a claim it
      had selected on the master of that version's cluster. */
  lemma JobsAreExplained(start: World, run: seq<Event>, i: nat)
    requires Initial(start) && i < |run| && Was(start, run, i + 1).job.Some?
    requires Was(start, run, i + 1).job != Was(start, run, i).job
    ensures var w := Was(start, run, i);
      && run[i].ReconcileStep? && w.job.None? && w.rec.Missing? && !w.versions[w.rec.at].spec.Periodic()
      && Was(start, run, i + 1).job.value == MakeJob(w.versions[w.rec.at].spec, w.rec.claim)
      && Selected(start, run, i, w.rec.at, w.rec.claim)
  {
    WasStep(start, run, i);
    EventsMakeJob(Was(start, run, i), run[i]);
    RecIsExplained(start, run, i);
  }

  lemma EventsMakeJob(w: World, e: Event)
    requires w.versions != [] && w.InRange()
    ensures Step(w, e).job.Some? && Step(w, e).job != w.job ==>
      && e.ReconcileStep? && w.job.None? && w.rec.Missing? && !w.versions[w.rec.at].spec.Periodic()
      && Step(w, e).job.value == MakeJob(w.versions[w.rec.at].spec, w.rec.claim)
  {
    match e
    case ReconcileStep(answer) => CallsMakeJob(w, answer);
    case _ =>
  }

  lemma CallsMakeJob(w: World, answer: Answer)
    requires w.versions != [] && w.InRange()
    ensures var after := StepReconcile(w, answer);
      after.job != w.job ==>
        && w.job.None? && w.rec.Missing? && !w.versions[w.rec.at].spec.Periodic()
        && after.job == Some(MakeJob(w.versions[w.rec.at].spec, w.rec.claim))
  {
    match w.rec
    case Missing(at, claim) => assert w.versions[at].spec.Periodic() ==> Create(w, at, claim, answer.api).job == w.job;
    case _ =>
  }
}
