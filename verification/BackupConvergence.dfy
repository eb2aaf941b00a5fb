/** Convergence (v1): once the user and the cluster leave the resource alone, the two handlers,
    interleaved call by call in any fair order, settle on the CronJob the spec asks for. */
module BackupConvergence {
  import opened BackupTypes
  import opened BackupMachine
  import opened ApiServer
  import opened BackupAgreement
  import opened BackupCases
  import opened BackupFrozen
  import opened FairDescent

  /** Some handler is going to delete what is wrong. */
  predicate Live(w: World)
  {
    Known(w) && (!Stuck(w) || w.sync == Dropping(w.name))
  }

  // ---------------------------------------------------------------- the rank

  /** Calls until Reconcile deletes a bad CronJob. */
  function DropLeft(rec: Thread): nat
  {
    match rec
    case Idle(_) => 6
    case Fetched(_) => 5
    case Authorised(_) => 4
    case Located(_, _) => 3
    case Present(_, _) => 2
    case Rebuild(_) => 1
    case _ => 0
  }

  /** Calls until CycleSync deletes a bad CronJob. */
  function SyncLeft(sync: Sync): nat
  {
    match sync
    case Resting(_) => 4
    case Looking(_) => 3
    case Listing(_, _) => 2
    case Dropping(_) => 1
  }

  /** Calls until Reconcile creates the missing CronJob. */
  function CreateLeft(rec: Thread): nat
  {
    match rec
    case Present(_, _) => 28
    case Checked(_) => 27
    case Sampled(_, _) => 26
    case Recording(_, _) => 25
    case Rebuild(_) => 25
    case Idle(_) => 24
    case Fetched(_) => 23
    case Authorised(_) => 22
    case Located(_, _) => 21
    case Missing(_, _) => 20
  }

  /** Calls until the information of the wanted CronJob is recorded. */
  function RenewLeft(rec: Thread): nat
  {
    match rec
    case Recording(_, _) => 10
    case _ => 30 + DropLeft(rec)
  }

  /** Calls until the record in Redis has joined the history. */
  function SampleLeft(rec: Thread): nat
  {
    match rec
    case Recording(_, _) => 8
    case Idle(_) => 7
    case Fetched(_) => 6
    case Authorised(_) => 5
    case Located(_, _) => 4
    case Present(_, _) => 3
    case Checked(_) => 2
    case _ => 1
  }

  /** While a wrong CronJob of the recorded information is there, every round of CycleSync deletes one
      of those that carry the cluster's label. */
  function Rank(w: World): nat
    requires Frozen(w)
  {
    if Bad(w) then 300 + (if UpToDate(w.Latest()) then 4 * |Others(w)| + SyncLeft(w.sync) else DropLeft(w.rec))
    else if w.sync == Dropping(w.name) then 200
    else if !w.HasCronJob() then CreateLeft(w.rec)
    else if !UpToDate(w.Latest()) then RenewLeft(w.rec)
    else if !CaughtUp(w) then SampleLeft(w.rec)
    else 0
  }

  /** The handler whose next call lowers the rank. */
  function Helpful(w: World): Turn
    requires Frozen(w)
  {
    if Bad(w) then (if UpToDate(w.Latest()) then C else R)
    else if w.sync == Dropping(w.name) then C
    else R
  }

  /** What one turn does: nothing it leaves behind needs more calls than before, and a helpful
      turn leaves less to do. */
  predicate Descends(w: World, turn: Turn, after: World)
    requires Live(w)
  {
    && Live(after) && Wanted(after) == Wanted(w) && Others(after) <= Others(w)
    && Rank(after) <= Rank(w)
    && (turn == Helpful(w) && Rank(w) > 0 ==> Rank(after) < Rank(w))
    && (Rank(after) == Rank(w) ==> Helpful(after) == Helpful(w))
    && (Rank(w) == 0 ==> after.versions == w.versions && (Others(w) == {} ==> after.cronJobs == w.cronJobs))
  }

  /** What is known of the world after most calls: the handlers know what is true, and the other
      CronJobs are what they were. */
  predicate Near(w: World, after: World)
    requires Known(w)
  {
    && Known(after) && Wanted(after) == Wanted(w) && after.name == w.name
    && Others(after) == Others(w) && (Crowded(after) <==> Crowded(w))
    && SameSurroundings(w, after) && after.Latest().spec == w.Latest().spec
  }

  lemma CaughtUpStays(w: World, after: World)
    requires Known(w) && Near(w, after) && after.Latest().status.conditions == w.Latest().status.conditions
    ensures CaughtUp(after) <==> CaughtUp(w)
  {
    assert after.Register(Cluster(w)) == w.Register(Cluster(w));
  }

  /** Reads of Reconcile. */
  lemma ReadDescends(w: World, after: World)
    requires Live(w) && Near(w, after) && after.versions == w.versions && after.cronJobs == w.cronJobs &&
      after.sync == w.sync
    requires match w.rec
             case Idle(_) => after.rec.Fetched?
             case Fetched(_) => after.rec.Authorised?
             case Authorised(_) => after.rec.Located?
             case Located(_, _) => if w.HasCronJob() then after.rec.Present? else after.rec.Missing?
             case Present(_, _) => after.rec.Checked? || after.rec.Rebuild?
             case _ => false
    ensures Descends(w, R, after)
  {
    CaughtUpStays(w, after);
  }

  lemma CreateDescends(w: World, at: nat, claim: string, after: World)
    requires Live(w) && w.rec == Missing(at, claim) && after == Create(w, at, claim, Accepted) && Near(w, after)
    ensures Descends(w, R, after)
  {
  }

  lemma DropDescends(w: World, at: nat, after: World)
    requires Live(w) && w.rec == Rebuild(at) && after == Drop(w, Accepted) && Near(w, after)
    ensures Descends(w, R, after)
  {
  }

  lemma SampleDescends(w: World, at: nat, after: World)
    requires Live(w) && w.rec == Checked(at) && after == Sample(w, at, Accepted) && Near(w, after)
    ensures Descends(w, R, after)
  {
    CaughtUpStays(w, after);
  }

  lemma PublishDescends(w: World, at: nat, payload: Payload, after: World)
    requires Live(w) && w.rec == Sampled(at, payload) && after == Publish(w, at, payload, Accepted) && Near(w, after)
    ensures Descends(w, R, after)
  {
    assert after.Register(Cluster(w)) == w.Register(Cluster(w));
    if IsNews(w.Latest().status.conditions, payload.list[0]) {
      assert after == Append(w, at, payload.list[0], Accepted);
    } else {
      assert after == w.(rec := Recording(at, false));
    }
  }

  lemma RecordDescends(w: World, at: nat, created: bool, after: World)
    requires Live(w) && w.rec == Recording(at, created) && after == Record(w, at, created, Accepted) && Near(w, after)
    ensures Descends(w, R, after)
  {
    assert after.Latest().status.conditions == w.Latest().status.conditions;
    CaughtUpStays(w, after);
  }

  lemma ReconcileTurnDescends(w: World, pick: string)
    requires Live(w) && MayPick(w, pick)
    ensures Descends(w, R, Take(w, R, pick))
  {
    var after := Take(w, R, pick);
    ReconcileIsNear(w, pick);
    match w.rec
    case Missing(at, claim) => CreateDescends(w, at, claim, after);
    case Rebuild(at) => DropDescends(w, at, after);
    case Checked(at) => SampleDescends(w, at, after);
    case Sampled(at, payload) => PublishDescends(w, at, payload, after);
    case Recording(at, created) => RecordDescends(w, at, created, after);
    case Idle(_) => ReadDescends(w, after);
    case Fetched(_) => ReadDescends(w, after);
    case Authorised(_) => ReadDescends(w, after);
    case Located(_, _) => ReadDescends(w, after);
    case Present(at, claim) =>
      InspectGoesOn(w, at, claim);
      ReadDescends(w, after);
  }

  lemma InspectGoesOn(w: World, at: nat, claim: string)
    requires Known(w) && w.rec == Present(at, claim)
    ensures Inspect(w, at, claim, Accepted) == w.(rec := if UpToDate(w.Latest()) then Checked(at) else Rebuild(at))
  {
  }

  lemma ReconcileIsNear(w: World, pick: string)
    requires Known(w) && MayPick(w, pick)
    ensures Near(w, Take(w, R, pick))
  {
    var after := Take(w, R, pick);
    TurnStaysIn(w, R, pick);
    KnownStays(w, R, pick);
    ReconcileKeepsOthers(w, pick);
    SameOthers(w, after);
  }

  /** Reads of CycleSync. */
  lemma SyncReadDescends(w: World, after: World)
    requires Live(w) && Near(w, after) && after == w.(sync := after.sync)
    requires match w.sync
             case Resting(_) => after.sync.Looking?
             case Looking(_) => after.sync.Listing?
             case Listing(_, _) => after.sync.Dropping? || (after.sync.Resting? && !(Bad(w) && UpToDate(w.Latest())))
             case Dropping(_) => false
    requires after.sync == Dropping(w.name) ==> Bad(w)
    ensures Descends(w, C, after)
  {
    CaughtUpStays(w, after);
  }

  lemma DropOwnDescends(w: World, after: World)
    requires Live(w) && w.sync == Dropping(w.name) && after == DropTarget(w, w.name, Accepted) && Near(w, after)
    ensures Descends(w, C, after)
  {
  }

  /** One of the others is gone: the own CronJob is what it was. */
  lemma DropOtherDescends(w: World, target: string, after: World)
    requires Live(w) && w.sync == Dropping(target) && target != w.name && after == DropTarget(w, target, Accepted)
    requires Known(after) && Wanted(after) == Wanted(w)
    ensures Descends(w, C, after)
  {
    assert Others(after) == Others(w) - {target};
    assert after == w.(cronJobs := w.cronJobs - {target}, orphan := w.orphan, sync := Resting(Done));
    OthersCrowd(w, target, after);
  }

  lemma OthersCrowd(w: World, target: string, after: World)
    requires Known(w) && Known(after) && target in Others(w) && after.cronJobs == w.cronJobs - {target} &&
      after.name == w.name
    requires Wanted(after) == Wanted(w) && Others(after) == Others(w) - {target}
    ensures Crowded(after) ==> Crowded(w)
  {
    if Crowded(after) {
      var other :| other in Others(after) && after.cronJobs[other].claim == Wanted(after).claim;
      assert other in Others(w) && w.cronJobs[other].claim == Wanted(w).claim;
    }
  }

  lemma ListDescends(w: World, pick: string, after: World)
    requires Live(w) && MayPick(w, pick) && w.sync.Listing? && Near(w, after)
    requires after == List(w, w.sync.cluster, w.sync.claim, Accepted, pick)
    ensures Descends(w, C, after)
  {
    ListKnows(w, pick);
    if after.sync.Resting? && Bad(w) && UpToDate(w.Latest()) {
      AllMisplaced(w, pick);
    }
    SyncReadDescends(w, after);
  }

  /** As long as it is not stuck, whatever carries the cluster's label is on another claim. */
  lemma AllMisplaced(w: World, pick: string)
    requires Known(w) && !Stuck(w) && Bad(w) && UpToDate(w.Latest()) && MayPick(w, pick) && w.sync.Listing?
    ensures Labelled(w, pick, Cluster(w)) && w.cronJobs[pick].claim != Wanted(w).claim
  {
    assert Labelled(w, w.name, Cluster(w));
    if pick != w.name {
      assert pick in Others(w);
    }
  }

  lemma SyncTurnDescends(w: World, pick: string)
    requires Live(w) && MayPick(w, pick)
    ensures Descends(w, C, Take(w, C, pick))
  {
    var after := Take(w, C, pick);
    KnownStays(w, C, pick);
    TurnStaysIn(w, C, pick);
    if w.sync.Dropping? && w.sync.target != w.name {
      DropOtherDescends(w, w.sync.target, after);
    } else {
      assert KeepsOthers(w, after);
      SameOthers(w, after);
      match w.sync
      case Listing(_, _) => ListDescends(w, pick, after);
      case Dropping(_) => DropOwnDescends(w, after);
      case Resting(_) => SyncReadDescends(w, after);
      case Looking(_) => SyncReadDescends(w, after);
    }
  }

  /** Every call of either handler is a no-op for the rank or lowers it, and there is always a
      handler whose next call lowers it. */
  lemma TurnDescends(w: World, turn: Turn, pick: string)
    requires Live(w) && MayPick(w, pick)
    ensures Descends(w, turn, Take(w, turn, pick))
  {
    match turn
    case R => ReconcileTurnDescends(w, pick);
    case C => SyncTurnDescends(w, pick);
  }

  // ---------------------------------------------------------------- fair behaviours

  ghost predicate Proceeds(before: World, turn: Turn, after: World)
  {
    && before.versions != [] && before.InRange()
    && exists pick :: MayPick(before, pick) && after == Take(before, turn, pick)
  }

  /** The worlds an endless schedule of turns goes through, whatever CycleSync finds first. */
  ghost predicate Behaviour(run: nat -> World, schedule: nat -> Turn)
  {
    forall n: nat :: Proceeds(run(n), schedule(n), run(n + 1))
  }

  /** The CronJob is the one asked for, its information is recorded, and the history holds the
      record in Redis. */
  ghost predicate Converged(w: World)
    requires w.versions != [] && Select(w.PodsOf(Cluster(w))).Claim?
  {
    w.HasCronJob() && w.Own() == Wanted(w) && UpToDate(w.Latest()) && CaughtUp(w)
  }

  lemma ProceedingDescends(before: World, turn: Turn, after: World)
    requires Live(before) && Proceeds(before, turn, after)
    ensures Live(after) && Wanted(after) == Wanted(before) && Others(after) <= Others(before)
    ensures Rank(after) <= Rank(before)
    ensures Rank(before) > 0 && turn == Helpful(before) ==> Rank(after) < Rank(before)
    ensures Rank(after) == Rank(before) ==> Helpful(after) == Helpful(before)
    ensures Rank(before) == 0 ==> after.versions == before.versions
    ensures Rank(before) == 0 && Others(before) == {} ==> after.cronJobs == before.cronJobs
  {
    var pick :| MayPick(before, pick) && after == Take(before, turn, pick);
    TurnDescends(before, turn, pick);
  }

  lemma {:induction false} StaysLive(run: nat -> World, schedule: nat -> Turn, n: nat)
    requires Behaviour(run, schedule) && Live(run(0))
    ensures Live(run(n)) && Wanted(run(n)) == Wanted(run(0))
  {
    if n > 0 {
      StaysLive(run, schedule, n - 1);
      assert Proceeds(run(n - 1), schedule(n - 1), run(n - 1 + 1));
      ProceedingDescends(run(n - 1), schedule(n - 1), run(n));
    }
  }

  ghost function RankAlong(run: nat -> World): nat -> nat
  {
    (n: nat) => if Live(run(n)) then Rank(run(n)) else 0
  }

  ghost function HelpfulAlong(run: nat -> World): nat -> Turn
  {
    (n: nat) => if Live(run(n)) then Helpful(run(n)) else R
  }

  lemma BehavioursDescend(run: nat -> World, schedule: nat -> Turn)
    requires Behaviour(run, schedule) && Live(run(0))
    ensures Descending(schedule, RankAlong(run), HelpfulAlong(run))
  {
    var rank, helpful := RankAlong(run), HelpfulAlong(run);
    forall n: nat
      ensures rank(n + 1) <= rank(n)
      ensures rank(n) > 0 && schedule(n) == helpful(n) ==> rank(n + 1) < rank(n)
      ensures rank(n + 1) == rank(n) ==> helpful(n + 1) == helpful(n)
    {
      StaysLive(run, schedule, n);
      assert Proceeds(run(n), schedule(n), run(n + 1));
      ProceedingDescends(run(n), schedule(n), run(n + 1));
    }
  }

  lemma RankZeroIsConverged(w: World)
    requires Live(w) && Rank(w) == 0
    ensures Converged(w)
  {
  }

  lemma {:induction false} NothingChanges(run: nat -> World, schedule: nat -> Turn, settled: nat, m: nat)
    requires Behaviour(run, schedule) && Live(run(0)) && settled <= m && Live(run(settled))
    requires forall k: nat | settled <= k :: RankAlong(run)(k) == 0
    ensures run(m).versions == run(settled).versions && Live(run(m)) && Others(run(m)) <= Others(run(settled))
    ensures Others(run(settled)) == {} ==> run(m).cronJobs == run(settled).cronJobs
    decreases m - settled
  {
    if settled < m {
      var k: nat := m - 1;
      NothingChanges(run, schedule, settled, k);
      assert RankAlong(run)(k) == 0;
      assert Proceeds(run(k), schedule(k), run(k + 1));
      ProceedingDescends(run(k), schedule(k), run(m));
    }
  }

  /** The handlers have come to rest in the world that is asked for: `goal` is its CronJob. If there
      are other CronJobs of the cluster, CycleSync may still delete those of another claim. */
  ghost predicate SettledFrom(run: nat -> World, settled: nat, goal: CronJob)
    requires Frozen(run(settled))
  {
    forall m: nat | m >= settled ::
      && Live(run(m)) && Converged(run(m)) && Wanted(run(m)) == goal
      && run(m).versions == run(settled).versions
      && (Others(run(settled)) == {} ==> run(m).cronJobs == run(settled).cronJobs)
  }

  /** Convergence: under every fair interleaving of the calls of Reconcile and CycleSync there is
      a point from which on the CronJob is the one the spec and the master ask for, its
      information is recorded, the record in Redis is in the history, and nothing changes. */
  lemma FairRunsConverge(run: nat -> World, schedule: nat -> Turn) returns (settled: nat)
    requires Behaviour(run, schedule) && Live(run(0)) && Fair(schedule)
    ensures Frozen(run(settled)) && SettledFrom(run, settled, Wanted(run(0)))
  {
    BehavioursDescend(run, schedule);
    settled := ReachesZero(schedule, RankAlong(run), HelpfulAlong(run), 0);
    StaysLive(run, schedule, settled);
    forall m: nat | m >= settled
      ensures Live(run(m)) && Converged(run(m)) && Wanted(run(m)) == Wanted(run(0))
      ensures run(m).versions == run(settled).versions
      ensures Others(run(settled)) == {} ==> run(m).cronJobs == run(settled).cronJobs
    {
      StaysLive(run, schedule, m);
      assert RankAlong(run)(m) == 0;
      RankZeroIsConverged(run(m));
      NothingChanges(run, schedule, settled, m);
    }
  }

  // ---------------------------------------------------------------- exactly when

  /** No handler runs yet, in a cluster that will be left alone. */
  predicate Rested(w: World)
  {
    Frozen(w) && w.rec.Idle? && w.sync.Resting?
  }

  /** A stuck CronJob that no handler is about to delete. */
  predicate StuckLive(w: World)
  {
    Known(w) && Stuck(w) && w.sync != Dropping(w.name)
  }

  /** CycleSync finds another CronJob first, if it would delete the own one. */
  predicate Spares(w: World, pick: string)
    requires Known(w)
  {
    w.sync.Listing? && w.HasCronJob() && !Unseen(w) ==>
      pick != w.name && pick in Others(w) && w.cronJobs[pick].claim == Wanted(w).claim
  }

  lemma StuckReconcileTurn(w: World, pick: string)
    requires StuckLive(w) && MayPick(w, pick)
    ensures StuckLive(Take(w, R, pick))
  {
    var after := Take(w, R, pick);
    ReconcileIsNear(w, pick);
    assert !w.rec.Missing? && !w.rec.Rebuild?;
    assert SameObjects(w, after);
    StuckStaysUpToDate(w, pick);
  }

  lemma StuckStaysUpToDate(w: World, pick: string)
    requires StuckLive(w)
    ensures Take(w, R, pick).versions != [] && UpToDate(Take(w, R, pick).Latest())
  {
    match w.rec
    case Sampled(at, payload) => PublishStaysUpToDate(w, at, payload);
    case Recording(at, created) => RecordStaysUpToDate(w, at, created);
    case _ =>
  }

  lemma PublishStaysUpToDate(w: World, at: nat, payload: Payload)
    requires StuckLive(w) && w.rec == Sampled(at, payload)
    ensures UpToDate(Publish(w, at, payload, Accepted).Latest())
  {
  }

  lemma RecordStaysUpToDate(w: World, at: nat, created: bool)
    requires StuckLive(w) && w.rec == Recording(at, created)
    ensures UpToDate(Record(w, at, created, Accepted).Latest())
  {
  }

  lemma StuckSyncTurn(w: World, pick: string)
    requires StuckLive(w) && MayPick(w, pick) && Spares(w, pick)
    ensures StuckLive(Take(w, C, pick))
  {
    var after := Take(w, C, pick);
    KnownStays(w, C, pick);
    match w.sync
    case Dropping(target) => StuckDropsOther(w, target);
    case Listing(_, _) => StuckLists(w, pick);
    case _ => SameOthers(w, after);
  }

  lemma StuckLists(w: World, pick: string)
    requires StuckLive(w) && MayPick(w, pick) && Spares(w, pick) && w.sync.Listing? && Known(Take(w, C, pick))
    ensures StuckLive(Take(w, C, pick))
  {
    ListKnows(w, pick);
    SameOthers(w, Take(w, C, pick));
  }

  /** The one deleted is not the one that crowds the own CronJob out. */
  lemma StuckDropsOther(w: World, target: string)
    requires StuckLive(w) && w.sync == Dropping(target) && Known(DropTarget(w, target, Accepted))
    ensures StuckLive(DropTarget(w, target, Accepted))
  {
    var after := DropTarget(w, target, Accepted);
    if Crowded(w) {
      var other :| other in Others(w) && w.cronJobs[other].claim == Wanted(w).claim;
      assert other != target && other in Others(after) && after.cronJobs[other].claim == Wanted(after).claim;
    }
  }

  /** Another CronJob that CycleSync would leave alone. */
  ghost predicate OtherOnClaim(w: World, other: string)
    requires w.sync.Listing?
  {
    other != w.name && Labelled(w, other, w.sync.cluster) && w.cronJobs[other].claim == w.sync.claim
  }

  /** The first of the listing in the worst case. */
  ghost function Worst(w: World): (pick: string)
    ensures MayPick(w, pick)
    ensures StuckLive(w) ==> Spares(w, pick)
  {
    if w.sync.Listing? && exists other :: OtherOnClaim(w, other)
    then
      var pick :| OtherOnClaim(w, pick);
      pick
    else if w.sync.Listing? && !NoneLabelled(w, w.sync.cluster)
    then
      var pick :| Labelled(w, pick, w.sync.cluster);
      WorstSpares(w, pick);
      pick
    else
      WorstSpares(w, w.name);
      w.name
  }

  lemma WorstSpares(w: World, pick: string)
    requires w.sync.Listing? ==> forall other :: !OtherOnClaim(w, other)
    ensures StuckLive(w) ==> Spares(w, pick)
  {
    if StuckLive(w) && w.sync.Listing? {
      forall other | other in Others(w) ensures w.cronJobs[other].claim != Wanted(w).claim {
        assert !OtherOnClaim(w, other);
      }
    }
  }

  /** The behaviour that a schedule drives a world through in the worst case. */
  ghost function After(w: World, schedule: nat -> Turn, n: nat): (after: World)
    requires w.versions != [] && w.InRange()
    ensures after.versions != [] && after.InRange()
  {
    if n == 0 then w
    else
      var before := After(w, schedule, n - 1);
      Take(before, schedule(n - 1), Worst(before))
  }

  lemma AfterStep(w: World, schedule: nat -> Turn, n: nat)
    requires w.versions != [] && w.InRange()
    ensures var before := After(w, schedule, n);
      After(w, schedule, n + 1) == Take(before, schedule(n), Worst(before))
  {
  }

  lemma AfterProceeds(w: World, schedule: nat -> Turn, n: nat)
    requires w.versions != [] && w.InRange()
    ensures Proceeds(After(w, schedule, n), schedule(n), After(w, schedule, n + 1))
  {
    AfterStep(w, schedule, n);
  }

  lemma BehaviourExists(w: World, schedule: nat -> Turn) returns (run: nat -> World)
    requires w.versions != [] && w.InRange()
    ensures Behaviour(run, schedule) && run(0) == w && forall n: nat :: run(n) == After(w, schedule, n)
  {
    run := (n: nat) => After(w, schedule, n);
    forall n: nat ensures Proceeds(run(n), schedule(n), run(n + 1)) {
      AfterProceeds(w, schedule, n);
    }
  }

  lemma {:induction false} StuckStays(w: World, schedule: nat -> Turn, n: nat)
    requires StuckLive(w)
    ensures StuckLive(After(w, schedule, n))
  {
    if n > 0 {
      var k: nat := n - 1;
      StuckStays(w, schedule, k);
      StuckTurn(After(w, schedule, k), schedule(k));
      AfterStep(w, schedule, k);
      assert k + 1 == n;
    }
  }

  lemma StuckTurn(w: World, turn: Turn)
    requires StuckLive(w)
    ensures StuckLive(Take(w, turn, Worst(w)))
  {
    match turn
    case R => StuckReconcileTurn(w, Worst(w));
    case C => StuckSyncTurn(w, Worst(w));
  }

  lemma FairScheduleExists() returns (schedule: nat -> Turn)
    ensures Fair(schedule)
  {
    schedule := (n: nat) => if n % 2 == 0 then R else C;
    forall n: nat, turn: Turn ensures Comes(schedule, n, turn) {
      if schedule(n) != turn {
        assert schedule(n + 1) == turn;
      }
    }
  }

  ghost predicate ReachesGoal(run: nat -> World)
  {
    exists n: nat :: Frozen(run(n)) && Converged(run(n))
  }

  /** The condition is exact: left alone from a rest, the handlers converge in every fair
      behaviour, whatever CycleSync finds first, if and only if the CronJob is not stuck at the start. */
  lemma ConvergesExactlyUnlessStuck(w: World)
    requires Rested(w)
    ensures !Stuck(w) <==>
      forall run: nat -> World, schedule: nat -> Turn |
        run(0) == w && Behaviour(run, schedule) && Fair(schedule) :: ReachesGoal(run)
  {
    if Stuck(w) {
      var schedule := FairScheduleExists();
      var run := BehaviourExists(w, schedule);
      forall n: nat ensures !(Frozen(run(n)) && Converged(run(n))) {
        StuckStays(w, schedule, n);
      }
      assert !ReachesGoal(run);
    } else {
      forall run: nat -> World, schedule: nat -> Turn | run(0) == w && Behaviour(run, schedule) && Fair(schedule)
        ensures ReachesGoal(run)
      {
        var settled := FairRunsConverge(run, schedule);
        assert Frozen(run(settled)) && Converged(run(settled));
      }
    }
  }

  /** With the agreement of BackupAgreement a CronJob is stuck exactly if its recorded information is
      the spec's and either its label names another cluster, which is not part of that information,
      or it is on an old claim while another CronJob of the cluster is on the master's. */
  lemma AgreementPreventsSticking(w: World)
    requires Rested(w) && Consistent(w) && !w.orphan
    ensures Stuck(w) <==>
      && w.HasCronJob() && UpToDate(w.Latest())
      && (w.Own().clusterLabel != Cluster(w) || (w.Own().claim != Wanted(w).claim && Crowded(w)))
  {
  }

  /** The first happens: from every converged rest, a change of nothing but the cluster's name leads
      to a stuck CronJob, if the new cluster has all that a backup needs. */
  lemma RenamedClusterIsStuck(w: World, cluster: string)
    requires Rested(w) && Consistent(w) && !w.orphan && Converged(w) && cluster != Cluster(w)
    requires cluster in w.secrets && Select(w.PodsOf(cluster)).Claim? && WellFormed(w.Register(cluster))
    ensures var edited := Step(w, EditSpec(w.Latest().spec.(clusterName := cluster)));
      Rested(edited) && Consistent(edited) && !edited.orphan && Stuck(edited)
  {
    var spec := w.Latest().spec.(clusterName := cluster);
    StepKeepsConsistent(w, EditSpec(spec));
    assert Step(w, EditSpec(spec)) == w.(versions := w.versions + [RedisBackup(spec, w.Latest().status)]);
  }

  /** And the second: of two backups of one cluster, from a converged rest, the master moves to another
      claim and the other backup's CronJob is made anew for it first. */
  lemma SecondBackupSticks(w: World, list: seq<Pod>, other: string, renewed: CronJob)
    requires Rested(w) && Consistent(w) && !w.orphan && Converged(w) && other != w.name
    requires Select(list).Claim? && Select(list).name != w.Own().claim
    requires renewed.clusterLabel == Cluster(w) && renewed.claim == Select(list).name
    ensures var moved := Step(Step(w, SetPods(Cluster(w), list)), SetForeign(other, renewed));
      Rested(moved) && Consistent(moved) && !moved.orphan && Stuck(moved)
  {
    var pods := Step(w, SetPods(Cluster(w), list));
    StepKeepsConsistent(w, SetPods(Cluster(w), list));
    StepKeepsConsistent(pods, SetForeign(other, renewed));
    var moved := Step(pods, SetForeign(other, renewed));
    assert moved.Register(Cluster(w)) == w.Register(Cluster(w));
    assert other in Others(moved) && moved.cronJobs[other].claim == Wanted(moved).claim;
  }

  /** As long as CycleSync finds the other one first, both handlers run to their end and leave the
      wrong CronJob there. */
  lemma OtherCronJobHidesOwn(w: World, first: string)
    requires Ready(w) && !w.beta && w.sync.Resting? && w.HasCronJob() && UpToDate(w.Latest())
    requires first != w.name && Labelled(w, first, Cluster(w)) && w.cronJobs[first].claim == MasterClaim(w)
    ensures FreshReconcile(w).cronJobs == w.cronJobs
    ensures SyncRun(w, |w.versions| - 1, [Accepted, Accepted, Accepted], first).cronJobs == w.cronJobs
  {
    KeptIsKept(w);
    CycleSyncDeletes(w, |w.versions| - 1, Accepted, first);
  }

  /** A whole Reconcile leaves a stuck CronJob stuck. */
  lemma StuckIsKept(w: World)
    requires Rested(w) && Stuck(w)
    ensures Rested(FreshReconcile(w)) && Stuck(FreshReconcile(w))
  {
    FreshReconcileKeeps(w);
  }

  /** And the run of InterruptedCreateIsNotRepaired ends with one. */
  lemma InterruptedCreateSticks(w: World, back: Spec)
    requires Rested(w) && !w.HasCronJob()
    requires back.Info() == w.Latest().status.lastBackupInfo != w.Latest().spec.Info()
    requires back.Periodic() && back.clusterName == Cluster(w)
    ensures var interrupted := ReconcileRun(w, |w.versions| - 1, Smooth(false, 4) + [Answer(Refused, false)]);
      var edited := Step(interrupted, EditSpec(back));
      Rested(edited) && Stuck(edited) && Rested(FreshReconcile(edited)) && Stuck(FreshReconcile(edited))
  {
    InterruptedThenBack(w, back);
    var edited := Step(ReconcileRun(w, |w.versions| - 1, Smooth(false, 4) + [Answer(Refused, false)]), EditSpec(back));
    assert edited.Register(Cluster(w)) == w.Register(Cluster(w)) && edited.PodsOf(Cluster(w)) == w.PodsOf(Cluster(w));
    StuckIsKept(edited);
  }
}
