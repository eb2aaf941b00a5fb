/** Convergence from any state (v1): when the cluster is left alone, the handlers may be under way on
    versions and pods that are out of date. Once each has started again, BackupConvergence applies. */
module BackupRestart {
  import opened BackupTypes
  import opened BackupMachine
  import opened ApiServer
  import opened BackupAgreement
  import opened BackupFrozen
  import opened BackupConvergence
  import opened FairDescent

  // ---------------------------------------------------------------- every handler returns

  /** The calls a handler has left, whatever it has read. */
  function CallsLeft(rec: Thread): nat
  {
    match rec
    case Idle(_) => 0
    case Fetched(_) => 7
    case Authorised(_) => 6
    case Located(_, _) => 5
    case Present(_, _) => 4
    case Checked(_) => 3
    case Missing(_, _) => 2
    case Sampled(_, _) => 2
    case Rebuild(_) => 1
    case Recording(_, _) => 1
  }

  function SyncCallsLeft(sync: Sync): nat
  {
    if sync.Resting? then 0 else SyncLeft(sync)
  }

  lemma CallsRunOut(w: World, turn: Turn, pick: string)
    requires w.versions != [] && w.InRange() && !w.rec.Idle?
    ensures CallsLeft(Take(w, turn, pick).rec) <= CallsLeft(w.rec)
    ensures turn == R ==> CallsLeft(Take(w, turn, pick).rec) < CallsLeft(w.rec)
  {
    if turn == R {
      FollowersHaveLess(w.rec, Take(w, R, pick).rec);
    }
  }

  lemma FollowersHaveLess(before: Thread, after: Thread)
    requires !before.Idle? && Follows(before, after)
    ensures CallsLeft(after) < CallsLeft(before)
  {
  }

  lemma SyncCallsRunOut(w: World, turn: Turn, pick: string)
    requires w.versions != [] && w.InRange() && !w.sync.Resting? && MayPick(w, pick)
    ensures SyncCallsLeft(Take(w, turn, pick).sync) <= SyncCallsLeft(w.sync)
    ensures turn == C ==> SyncCallsLeft(Take(w, turn, pick).sync) < SyncCallsLeft(w.sync)
  {
  }

  // ---------------------------------------------------------------- along a behaviour

  lemma {:induction false} StaysRunning(run: nat -> World, schedule: nat -> Turn, n: nat)
    requires Behaviour(run, schedule) && Running(run(0))
    ensures Running(run(n)) && Wanted(run(n)) == Wanted(run(0))
  {
    if n > 0 {
      var m: nat := n - 1;
      StaysRunning(run, schedule, m);
      assert Proceeds(run(m), schedule(m), run(m + 1));
      var pick :| MayPick(run(m), pick) && run(m + 1) == Take(run(m), schedule(m), pick);
      TurnStaysIn(run(m), schedule(m), pick);
      StaysFrozen(run(m), run(n));
    }
  }

  /** Reconcile returns at some later turn. */
  lemma ReconcileReturns(run: nat -> World, schedule: nat -> Turn) returns (n: nat)
    requires Behaviour(run, schedule) && Fair(schedule) && Running(run(0))
    ensures run(n).rec.Idle?
  {
    var rank: nat -> nat := (m: nat) => CallsLeft(run(m).rec);
    forall m: nat | rank(m) > 0
      ensures rank(m + 1) <= rank(m) && (schedule(m) == R ==> rank(m + 1) < rank(m))
    {
      assert Proceeds(run(m), schedule(m), run(m + 1));
      var pick :| MayPick(run(m), pick) && run(m + 1) == Take(run(m), schedule(m), pick);
      CallsRunOut(run(m), schedule(m), pick);
    }
    assert Comes(schedule, 0, R);
    var next: nat :| next >= 0 && schedule(next) == R;
    n := Reaches(schedule, rank, R, 0, next);
  }

  /** So does CycleSync, at some turn from `n` on. */
  lemma SyncReturns(run: nat -> World, schedule: nat -> Turn, n: nat) returns (m: nat)
    requires Behaviour(run, schedule) && Fair(schedule) && Running(run(0))
    ensures m >= n && run(m).sync.Resting?
  {
    var rank: nat -> nat := (k: nat) => SyncCallsLeft(run(k).sync);
    forall k: nat | rank(k) > 0
      ensures rank(k + 1) <= rank(k) && (schedule(k) == C ==> rank(k + 1) < rank(k))
    {
      assert Proceeds(run(k), schedule(k), run(k + 1));
      var pick :| MayPick(run(k), pick) && run(k + 1) == Take(run(k), schedule(k), pick);
      SyncCallsRunOut(run(k), schedule(k), pick);
    }
    assert Comes(schedule, n, C);
    var next: nat :| next >= n && schedule(next) == C;
    m := Reaches(schedule, rank, C, n, next);
  }

  lemma {:induction false} RecKnowsFrom(run: nat -> World, schedule: nat -> Turn, n: nat, m: nat)
    requires Behaviour(run, schedule) && Running(run(0)) && n <= m && run(n).rec.Idle?
    ensures Running(run(m)) && RecKnows(run(m))
    decreases m - n
  {
    StaysRunning(run, schedule, m);
    if n < m {
      var k: nat := m - 1;
      RecKnowsFrom(run, schedule, n, k);
      assert Proceeds(run(k), schedule(k), run(k + 1));
      RecKnowsProceeds(run(k), schedule(k), run(m));
    }
  }

  lemma RecKnowsProceeds(before: World, turn: Turn, after: World)
    requires Running(before) && RecKnows(before) && Proceeds(before, turn, after)
    ensures Frozen(after) && after.InRange() && RecKnows(after)
  {
    var pick :| MayPick(before, pick) && after == Take(before, turn, pick);
    RecKnowsStays(before, turn, pick);
  }

  lemma {:induction false} KnownFrom(run: nat -> World, schedule: nat -> Turn, n: nat, m: nat)
    requires Behaviour(run, schedule) && Known(run(n)) && n <= m
    ensures Known(run(m))
    decreases m - n
  {
    if n < m {
      var k: nat := m - 1;
      KnownFrom(run, schedule, n, k);
      assert Proceeds(run(k), schedule(k), run(k + 1));
      KnownProceeds(run(k), schedule(k), run(m));
    }
  }

  lemma KnownProceeds(before: World, turn: Turn, after: World)
    requires Known(before) && Proceeds(before, turn, after)
    ensures Known(after)
  {
    var pick :| MayPick(before, pick) && after == Take(before, turn, pick);
    KnownStays(before, turn, pick);
  }

  /** The rest of a behaviour is one. */
  lemma Later(run: nat -> World, schedule: nat -> Turn, n: nat) returns (rest: nat -> World, turns: nat -> Turn)
    requires Behaviour(run, schedule) && Fair(schedule)
    ensures Behaviour(rest, turns) && Fair(turns)
    ensures forall k: nat :: rest(k) == run(n + k)
  {
    rest := (k: nat) => run(n + k);
    turns := (k: nat) => schedule(n + k);
    forall k: nat ensures Proceeds(rest(k), turns(k), rest(k + 1)) {
      assert Proceeds(run(n + k), schedule(n + k), run(n + k + 1));
    }
    forall k: nat, turn: Turn ensures Comes(turns, k, turn) {
      assert Comes(schedule, n + k, turn);
      var m: nat :| m >= n + k && schedule(m) == turn;
      assert turns(m - n) == turn;
    }
  }

  /** The handlers are stuck with this CronJob for good. */
  ghost predicate StuckFrom(run: nat -> World, n: nat)
  {
    forall m: nat | m >= n :: StuckLive(run(m))
  }

  ghost predicate Settles(run: nat -> World, goal: CronJob)
  {
    exists settled: nat :: Frozen(run(settled)) && SettledFrom(run, settled, goal)
  }

  /** A CronJob that CycleSync does not see stays stuck, whatever it finds first. */
  lemma {:induction false} UnseenStays(run: nat -> World, schedule: nat -> Turn, n: nat, m: nat)
    requires Behaviour(run, schedule) && StuckLive(run(n)) && Unseen(run(n)) && n <= m
    ensures StuckLive(run(m)) && Unseen(run(m))
    decreases m - n
  {
    if n < m {
      var k: nat := m - 1;
      UnseenStays(run, schedule, n, k);
      assert Proceeds(run(k), schedule(k), run(k + 1));
      UnseenProceeds(run(k), schedule(k), run(m));
    }
  }

  lemma UnseenProceeds(before: World, turn: Turn, after: World)
    requires StuckLive(before) && Unseen(before) && Proceeds(before, turn, after)
    ensures StuckLive(after) && Unseen(after)
  {
    var pick :| MayPick(before, pick) && after == Take(before, turn, pick);
    UnseenTurn(before, turn, pick);
  }

  lemma UnseenTurn(w: World, turn: Turn, pick: string)
    requires StuckLive(w) && Unseen(w) && MayPick(w, pick)
    ensures StuckLive(Take(w, turn, pick)) && Unseen(Take(w, turn, pick))
  {
    KnownStays(w, turn, pick);
    match turn
    case R =>
      StuckReconcileTurn(w, pick);
      assert !w.rec.Missing? && !w.rec.Rebuild?;
      assert SameObjects(w, Take(w, R, pick));
    case C => StuckSyncTurn(w, pick);
  }

  /** From any state in which a frozen cluster may be met: every fair behaviour comes to a turn at
      which both handlers have returned once, and from then on they know only what is true. Either
      the CronJob is stuck then and at every later turn, or they converge; it is the former if
      CycleSync does not see the CronJob, and the latter if it is not stuck at that turn. */
  lemma FairRunsSettle(run: nat -> World, schedule: nat -> Turn) returns (restarted: nat)
    requires Behaviour(run, schedule) && Fair(schedule) && Running(run(0))
    ensures Known(run(restarted)) && forall m: nat | m >= restarted :: Known(run(m))
    ensures StuckFrom(run, restarted) <==> !Settles(run, Wanted(run(0)))
    ensures Stuck(run(restarted)) && Unseen(run(restarted)) ==> StuckFrom(run, restarted)
    ensures !Stuck(run(restarted)) ==> Settles(run, Wanted(run(0)))
  {
    var n := ReconcileReturns(run, schedule);
    restarted := SyncReturns(run, schedule, n);
    RecKnowsFrom(run, schedule, n, restarted);
    forall m: nat | m >= restarted ensures Known(run(m)) {
      KnownFrom(run, schedule, restarted, m);
    }
    if StuckFrom(run, restarted) {
      StuckNeverSettles(run, restarted, Wanted(run(0)));
    } else {
      var freed: nat :| freed >= restarted && !StuckLive(run(freed));
      FreedRunsSettle(run, schedule, freed);
    }
    if Stuck(run(restarted)) && Unseen(run(restarted)) {
      forall m: nat | m >= restarted ensures StuckLive(run(m)) {
        UnseenStays(run, schedule, restarted, m);
      }
    }
    assert StuckFrom(run, restarted) ==> StuckLive(run(restarted));
  }

  lemma StuckNeverSettles(run: nat -> World, n: nat, goal: CronJob)
    requires StuckFrom(run, n)
    ensures !Settles(run, goal)
  {
    forall settled: nat | Frozen(run(settled)) ensures !SettledFrom(run, settled, goal) {
      var m := if settled >= n then settled else n;
      assert StuckLive(run(m));
    }
  }

  lemma FreedRunsSettle(run: nat -> World, schedule: nat -> Turn, freed: nat)
    requires Behaviour(run, schedule) && Fair(schedule) && Running(run(0)) && Known(run(freed)) &&
      !StuckLive(run(freed))
    ensures Settles(run, Wanted(run(0)))
  {
    StaysRunning(run, schedule, freed);
    var rest, turns := Later(run, schedule, freed);
    assert rest(0) == run(freed + 0);
    var later := FairRunsConverge(rest, turns);
    SettlesLater(run, rest, freed, later, Wanted(run(0)));
  }

  lemma SettlesLater(run: nat -> World, rest: nat -> World, n: nat, later: nat, goal: CronJob)
    requires (forall k: nat :: rest(k) == run(n + k)) && Frozen(rest(later)) && SettledFrom(rest, later, goal)
    ensures Frozen(run(n + later)) && SettledFrom(run, n + later, goal)
  {
    assert rest(later) == run(n + later);
    forall m: nat | m >= n + later
      ensures Live(run(m)) && Converged(run(m)) && Wanted(run(m)) == goal
      ensures run(m).versions == run(n + later).versions
      ensures Others(run(n + later)) == {} ==> run(m).cronJobs == run(n + later).cronJobs
    {
      assert rest(m - n) == run(n + (m - n));
    }
  }

  // ---------------------------------------------------------------- a stale create

  /** The user edits the spec, a Reconcile looks for the CronJob in vain, the user goes back, and the
      Reconcile makes its next call. */
  function StaleCreate(at: nat, other: Spec, back: Spec): seq<Event>
  {
    [EditSpec(other)] + ([ReconcileStart(at)] + StaleLook(ReconcileStep(Answer(Accepted, false)), back))
  }

  function StaleLook(ok: Event, back: Spec): seq<Event>
  {
    [ok] + ([ok] + ([ok] + ([EditSpec(back)] + ([ok] + []))))
  }

  lemma ExecFirst(w: World, e: Event, rest: seq<Event>, next: World)
    requires w.versions != [] && w.InRange() && next == Step(w, e)
    ensures Exec(w, [e] + rest) == Exec(next, rest)
  {
    assert ([e] + rest)[1..] == rest;
  }

  lemma LookInVain(w: World, at: nat, ok: Event, rest: seq<Event>)
    requires at + 1 == |w.versions| && w.rec == Fetched(at) && Frozen(w)
    requires ok == ReconcileStep(Answer(Accepted, false))
    ensures Exec(w, [ok] + ([ok] + ([ok] + rest))) == Exec(w.(rec := Missing(at, Wanted(w).claim)), rest)
  {
    var authorised := w.(rec := Authorised(at));
    assert Authorise(w, at, Accepted) == authorised;
    ExecFirst(w, ok, [ok] + ([ok] + rest), authorised);
    FindInVain(authorised, at, Wanted(w).claim, ok, rest);
  }

  lemma FindInVain(w: World, at: nat, claim: string, ok: Event, rest: seq<Event>)
    requires at < |w.versions| && w.rec == Authorised(at) && ok == ReconcileStep(Answer(Accepted, false))
    requires Select(w.PodsOf(w.versions[at].spec.clusterName)) == Claim(claim)
    ensures Exec(w, [ok] + ([ok] + rest)) == Exec(w.(rec := Missing(at, claim)), rest)
  {
    var located, missing := w.(rec := Located(at, claim)), w.(rec := Missing(at, claim));
    assert Locate(w, at, Accepted) == located;
    ExecFirst(w, ok, [ok] + rest, located);
    assert Find(located, at, claim, ok.answer) == missing;
    ExecFirst(located, ok, rest, missing);
  }

  /** The bad case is real, with every call accepted and every read true when it was made: from a
      rest without a CronJob, in which the recorded information is the spec's, it makes the CronJob
      for the other spec. */
  lemma StaleCreateSticks(w: World, other: Spec)
    requires Rested(w) && !w.HasCronJob() && UpToDate(w.Latest())
    requires other.Periodic() && other.clusterName == Cluster(w) && other.Info() != w.Latest().spec.Info()
    ensures var end := Exec(w, StaleCreate(|w.versions|, other, w.Latest().spec));
      Running(end) && Stuck(end)
  {
    var ok, back := ReconcileStep(Answer(Accepted, false)), w.Latest().spec;
    var fetched := w.(versions := w.versions + [RedisBackup(other, w.Latest().status)], rec := Fetched(|w.versions|));
    EditAndFetch(w, other, StaleLook(ok, back), fetched);
    EditStaysFrozen(w, fetched, other);
    StaleLookSticks(fetched, |w.versions|, ok, back);
  }

  lemma StaleLookSticks(w: World, at: nat, ok: Event, back: Spec)
    requires Frozen(w) && at + 1 == |w.versions| && w.rec == Fetched(at) && !w.HasCronJob()
    requires back.Periodic() && back.clusterName == Cluster(w) && back.Info() == w.Latest().status.lastBackupInfo
    requires back.Info() != w.Latest().spec.Info() && ok == ReconcileStep(Answer(Accepted, false))
    ensures var end := Exec(w, StaleLook(ok, back));
      Running(end) && Stuck(end)
  {
    LookInVain(w, at, ok, [EditSpec(back)] + ([ok] + []));
    StaleCreates(w.(rec := Missing(at, Wanted(w).claim)), at, back, ok);
  }

  lemma EditAndFetch(w: World, spec: Spec, rest: seq<Event>, fetched: World)
    requires w.versions != [] && w.rec.Idle? && spec != w.Latest().spec
    requires fetched
          == w.(versions := w.versions + [RedisBackup(spec, w.Latest().status)], rec := Fetched(|w.versions|))
    ensures Exec(w, [EditSpec(spec)] + ([ReconcileStart(|w.versions|)] + rest)) == Exec(fetched, rest)
  {
    var edited := w.(versions := w.versions + [RedisBackup(spec, w.Latest().status)]);
    ExecFirst(w, EditSpec(spec), [ReconcileStart(|w.versions|)] + rest, edited);
    ExecFirst(edited, ReconcileStart(|w.versions|), rest, fetched);
  }

  lemma EditStaysFrozen(w: World, after: World, spec: Spec)
    requires Frozen(w) && spec.Periodic() && spec.clusterName == Cluster(w) && SameSurroundings(w, after) &&
      after.beta == w.beta
    requires after.versions == w.versions + [RedisBackup(spec, w.Latest().status)]
    ensures Frozen(after) && Cluster(after) == Cluster(w) && Wanted(after).claim == Wanted(w).claim
  {
    assert after.Register(Cluster(w)) == w.Register(Cluster(w)) && after.PodsOf(Cluster(w)) == w.PodsOf(Cluster(w));
  }

  /** A Reconcile on its way to a create, when the user goes back to the recorded information. */
  lemma StaleCreates(w: World, at: nat, back: Spec, ok: Event)
    requires Frozen(w) && at + 1 == |w.versions| && w.rec == Missing(at, Wanted(w).claim) && !w.HasCronJob()
    requires back.Periodic() && back.clusterName == Cluster(w) && back.Info() == w.Latest().status.lastBackupInfo
    requires back.Info() != w.Latest().spec.Info() && ok == ReconcileStep(Answer(Accepted, false))
    ensures var end := Exec(w, [EditSpec(back)] + ([ok] + []));
      Running(end) && Stuck(end)
  {
    var edited := w.(versions := w.versions + [RedisBackup(back, w.Latest().status)]);
    var made := Create(edited, at, w.rec.claim, Accepted);
    ExecFirst(w, EditSpec(back), [ok] + [], edited);
    assert StepReconcile(edited, ok.answer) == made;
    ExecFirst(edited, ok, [], made);
    EditStaysFrozen(w, edited, back);
    CreateStaysIn(edited, at, w.rec.claim);
    StaysFrozen(edited, made);
  }
}
