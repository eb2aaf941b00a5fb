/** The hand-off of backup records: every backup overwrites one Redis key, Reconcile samples that
    key now and then, and Status.Conditions is what it saw. */
module BackupHistory {
  import opened Wrappers
  import opened BackupTypes
  import opened BackupMachine
  import opened ApiServer
  import opened BackupAgreement
  import opened BackupCases

  /** `a` is what is left of `b` after deleting some of its elements. */
  ghost predicate Subsequence(a: seq<Condition>, b: seq<Condition>)
    decreases b
  {
    a == [] ||
    (b != [] &&
     ((a[|a| - 1] == b[|b| - 1] && Subsequence(a[..|a| - 1], b[..|b| - 1])) ||
      Subsequence(a, b[..|b| - 1])))
  }

  lemma SubsequenceSkip(a: seq<Condition>, b: seq<Condition>, last: Condition)
    requires Subsequence(a, b)
    ensures Subsequence(a, b + [last])
  {
    assert (b + [last])[..|b + [last]| - 1] == b;
  }

  lemma SubsequenceTake(a: seq<Condition>, b: seq<Condition>, last: Condition)
    requires Subsequence(a, b)
    ensures Subsequence(a + [last], b + [last])
  {
    assert (a + [last])[..|a + [last]| - 1] == a;
    assert (b + [last])[..|b + [last]| - 1] == b;
  }

  /** If the last elements differ, the last element of `b` was one of the deleted ones. */
  lemma SubsequenceDrop(a: seq<Condition>, b: seq<Condition>, last: Condition)
    requires Subsequence(a, b + [last])
    requires a != [] ==> a[|a| - 1] != last
    ensures Subsequence(a, b)
  {
    assert (b + [last])[..|b + [last]| - 1] == b;
  }

  lemma {:induction false} SubsequenceExtend(a: seq<Condition>, b: seq<Condition>, longer: seq<Condition>)
    requires Subsequence(a, b) && b <= longer
    ensures Subsequence(a, longer)
    decreases |longer|
  {
    if longer == b {
    } else {
      var front := longer[..|longer| - 1];
      assert b <= front;
      SubsequenceExtend(a, b, front);
      assert longer == front + [longer[|longer| - 1]];
      SubsequenceSkip(a, front, longer[|longer| - 1]);
    }
  }

  lemma {:induction false} SubsequenceHas(a: seq<Condition>, b: seq<Condition>, x: Condition)
    requires Subsequence(a, b) && x in a
    ensures x in b
    decreases |b|
  {
    if a[|a| - 1] == b[|b| - 1] && Subsequence(a[..|a| - 1], b[..|b| - 1]) {
      if x in a[..|a| - 1] {
        SubsequenceHas(a[..|a| - 1], b[..|b| - 1], x);
      }
    } else {
      SubsequenceHas(a, b[..|b| - 1], x);
    }
  }

  ghost predicate DistinctFiles(list: seq<Condition>)
  {
    forall i, j | 0 <= i < j < |list| :: list[i].filePath != list[j].filePath
  }

  /** What is taken from records of distinct files has distinct files. */
  lemma {:induction false} SubsequenceDistinct(a: seq<Condition>, b: seq<Condition>)
    requires Subsequence(a, b) && DistinctFiles(b)
    ensures DistinctFiles(a)
    decreases |b|
  {
    if a != [] {
      var front := b[..|b| - 1];
      if a[|a| - 1] == b[|b| - 1] && Subsequence(a[..|a| - 1], front) {
        SubsequenceDistinct(a[..|a| - 1], front);
        forall i | 0 <= i < |a| - 1 ensures a[i].filePath != a[|a| - 1].filePath {
          assert a[i] in a[..|a| - 1];
          SubsequenceHas(a[..|a| - 1], front, a[i]);
        }
      } else {
        SubsequenceDistinct(a, front);
      }
    }
  }

  // ---------------------------------------------------------------- what the history depends on

  /** The versions of the resource, the values written to the key, and the value Reconcile has
      read but not dealt with yet. */
  datatype Trail = Trail(versions: seq<RedisBackup>, written: seq<Payload>, sample: Option<Payload>)

  function TrailOf(w: World, cluster: string): Trail
  {
    Trail(w.versions, w.WrittenTo(cluster), if w.rec.Sampled? then Some(w.rec.payload) else None)
  }

  predicate Readable(payload: Payload)
  {
    payload.Records? && payload.list != []
  }

  function Last(trail: Trail): RedisBackup
    requires trail.versions != []
  {
    trail.versions[|trail.versions| - 1]
  }

  predicate Lives(backup: RedisBackup, cluster: string)
  {
    backup.spec.Periodic() && backup.spec.clusterName == cluster
  }

  /** Every version is periodic and of this cluster, and only records are written. */
  ghost predicate Periodic(trail: Trail, cluster: string)
  {
    && trail.versions != []
    && (forall i | 0 <= i < |trail.versions| :: Lives(trail.versions[i], cluster))
    && (forall i | 0 <= i < |trail.written| :: Readable(trail.written[i]))
    && (trail.sample.Some? ==> Readable(trail.sample.value))
  }

  datatype Move = Forget | Keep | Sampling | Writing | Appending | Storing

  /** The ways a trail grows. */
  predicate Moves(before: Trail, move: Move, after: Trail, cluster: string)
    requires before.versions != []
  {
    match move
    case Keep => after == before
    case Forget => after == before.(sample := None)
    case Sampling => before.written != [] && after == before.(sample := Some(before.written[|before.written| - 1]))
    case Writing =>
      && after.written != [] && Readable(after.written[|after.written| - 1])
      && after == before.(written := before.written + [after.written[|after.written| - 1]])
    case Appending =>
      && before.sample.Some? && Readable(before.sample.value)
      && var record, last := before.sample.value.list[0], Last(before);
      && IsNews(last.status.conditions, record)
      && var status := last.status.(conditions := last.status.conditions + [record]);
      && after == Trail(before.versions + [last.(status := status)], before.written, None)
    case Storing =>
      && after.versions != [] && Lives(Last(after), cluster) && after.sample in {before.sample, None}
      && Last(after).status.conditions == Last(before).status.conditions
      && after == Trail(before.versions + [Last(after)], before.written, after.sample)
  }

  /** The backup scripts write one well-formed record at a time (python/redis_backup.py:58-79), and
      the user neither turns the schedule off nor moves the resource to another cluster. */
  predicate Steady(e: Event, cluster: string)
  {
    && (e.EditSpec? ==> e.spec.Periodic() && e.spec.clusterName == cluster)
    && (e.CronRun? && e.cluster == cluster ==> Readable(e.payload))
  }

  predicate AllSteady(run: seq<Event>, cluster: string)
  {
    forall i | 0 <= i < |run| :: Steady(run[i], cluster)
  }

  lemma ReadsMove(w: World, cluster: string, at: nat, claim: string, answer: Answer) returns (move: Move)
    requires w.versions != [] && at < |w.versions| && !w.rec.Sampled?
    ensures move == Keep
    ensures Moves(TrailOf(w, cluster), move, TrailOf(Authorise(w, at, answer.api), cluster), cluster)
    ensures Moves(TrailOf(w, cluster), move, TrailOf(Locate(w, at, answer.api), cluster), cluster)
    ensures Moves(TrailOf(w, cluster), move, TrailOf(Find(w, at, claim, answer), cluster), cluster)
  {
    move := Keep;
  }

  lemma CreateMoves(w: World, cluster: string, at: nat, claim: string, api: Api) returns (move: Move)
    requires w.versions != [] && at < |w.versions| && !w.rec.Sampled?
    ensures move == Keep && Moves(TrailOf(w, cluster), move, TrailOf(Create(w, at, claim, api), cluster), cluster)
  {
    var after := Create(w, at, claim, api);
    if w.versions[at].spec.Periodic() {
      assert after.WrittenTo(cluster) == w.WrittenTo(cluster) && !after.rec.Sampled?;
    } else {
      assert after.WrittenTo(cluster) == w.WrittenTo(cluster) && !after.rec.Sampled?;
    }
    move := Keep;
  }

  lemma InspectMoves(w: World, cluster: string, at: nat, claim: string, api: Api) returns (move: Move)
    requires w.versions != [] && at < |w.versions| && !w.rec.Sampled?
    ensures move == Keep && Moves(TrailOf(w, cluster), move, TrailOf(Inspect(w, at, claim, api), cluster), cluster)
  {
    move := Keep;
  }

  lemma DropMoves(w: World, cluster: string, at: nat, api: Api) returns (move: Move)
    requires w.versions != [] && at < |w.versions| && !w.rec.Sampled?
    ensures move == Keep && Moves(TrailOf(w, cluster), move, TrailOf(Drop(w, api), cluster), cluster)
  {
    move := Keep;
  }

  lemma SampleMoves(w: World, cluster: string, at: nat, api: Api) returns (move: Move)
    requires w.versions != [] && w.rec == Checked(at) && at < |w.versions| && Lives(w.versions[at], cluster)
    ensures Moves(TrailOf(w, cluster), move, TrailOf(Sample(w, at, api), cluster), cluster)
    ensures move != Writing
  {
    move := if Sample(w, at, api).rec.Sampled? then Sampling else Keep;
  }

  lemma AppendMoves(w: World, cluster: string, at: nat, payload: Payload, api: Api)
    requires w.versions != [] && w.rec == Sampled(at, payload) && Readable(payload) && Writable(w, at, api)
    requires IsNews(w.versions[at].status.conditions, payload.list[0])
    ensures Moves(TrailOf(w, cluster), Appending, TrailOf(Append(w, at, payload.list[0], api), cluster), cluster)
  {
  }

  lemma NoNewsMoves(w: World, cluster: string, at: nat, payload: Payload, api: Api)
    requires w.versions != [] && w.rec == Sampled(at, payload) && at < |w.versions| && Readable(payload)
    requires w.versions[at].spec.Periodic()
    requires !(IsNews(w.versions[at].status.conditions, payload.list[0]) && Writable(w, at, api))
    ensures Moves(TrailOf(w, cluster), Forget, TrailOf(Publish(w, at, payload, api), cluster), cluster)
  {
    var after := Publish(w, at, payload, api);
    assert after.versions == w.versions && !after.rec.Sampled?;
    assert after.WrittenTo(cluster) == w.WrittenTo(cluster);
  }

  lemma PublishMoves(w: World, cluster: string, at: nat, payload: Payload, api: Api) returns (move: Move)
    requires w.versions != [] && w.rec == Sampled(at, payload) && at < |w.versions|
    requires Lives(w.versions[at], cluster) && Readable(payload)
    ensures Moves(TrailOf(w, cluster), move, TrailOf(Publish(w, at, payload, api), cluster), cluster)
    ensures move != Writing
  {
    if IsNews(w.versions[at].status.conditions, payload.list[0]) && Writable(w, at, api) {
      AppendMoves(w, cluster, at, payload, api);
      move := Appending;
    } else {
      NoNewsMoves(w, cluster, at, payload, api);
      move := Forget;
    }
  }

  lemma RecordMoves(w: World, cluster: string, at: nat, created: bool, api: Api) returns (move: Move)
    requires w.versions != [] && w.rec == Recording(at, created) && at < |w.versions| && Lives(w.versions[at], cluster)
    ensures Moves(TrailOf(w, cluster), move, TrailOf(Record(w, at, created, api), cluster), cluster)
    ensures move != Writing
  {
    var after := Record(w, at, created, api);
    assert after.WrittenTo(cluster) == w.WrittenTo(cluster) && after.rec.Idle?;
    move := if |after.versions| > |w.versions| then Storing else Keep;
  }

  lemma ReconcileMoves(w: World, cluster: string, answer: Answer) returns (move: Move)
    requires w.versions != [] && w.InRange() && Periodic(TrailOf(w, cluster), cluster)
    ensures Moves(TrailOf(w, cluster), move, TrailOf(StepReconcile(w, answer), cluster), cluster)
    ensures move != Writing
  {
    assert !w.rec.Idle? ==> Lives(w.versions[w.rec.at], cluster);
    match w.rec
    case Idle(_) => move := Keep;
    case Fetched(at) => move := ReadsMove(w, cluster, at, "", answer);
    case Authorised(at) => move := ReadsMove(w, cluster, at, "", answer);
    case Located(at, claim) => move := ReadsMove(w, cluster, at, claim, answer);
    case Missing(at, claim) => move := CreateMoves(w, cluster, at, claim, answer.api);
    case Present(at, claim) => move := InspectMoves(w, cluster, at, claim, answer.api);
    case Rebuild(at) => move := DropMoves(w, cluster, at, answer.api);
    case Checked(at) => move := SampleMoves(w, cluster, at, answer.api);
    case Sampled(at, payload) => move := PublishMoves(w, cluster, at, payload, answer.api);
    case Recording(at, created) => move := RecordMoves(w, cluster, at, created, answer.api);
  }

  lemma LookMoves(w: World, cluster: string, c: string, api: Api) returns (move: Move)
    requires w.versions != []
    ensures move == Keep && Moves(TrailOf(w, cluster), move, TrailOf(Look(w, c, api), cluster), cluster)
  {
    move := Keep;
  }

  lemma ListMoves(w: World, cluster: string, c: string, claim: string, api: Api, pick: string) returns (move: Move)
    requires w.versions != []
    ensures Moves(TrailOf(w, cluster), move, TrailOf(List(w, c, claim, api, pick), cluster), cluster)
    ensures move != Writing
  {
    move := if api != Accepted then Forget else Keep;
  }

  lemma DropTargetMoves(w: World, cluster: string, target: string, api: Api) returns (move: Move)
    requires w.versions != []
    ensures Moves(TrailOf(w, cluster), move, TrailOf(DropTarget(w, target, api), cluster), cluster)
    ensures move != Writing
  {
    move := if api != Accepted || target !in w.cronJobs then Forget else Keep;
  }

  lemma SyncMoves(w: World, cluster: string, api: Api, pick: string) returns (move: Move)
    requires w.versions != []
    ensures Moves(TrailOf(w, cluster), move, TrailOf(StepSync(w, api, pick), cluster), cluster)
    ensures move != Writing
  {
    match w.sync
    case Resting(_) => move := Keep;
    case Looking(c) => move := LookMoves(w, cluster, c, api);
    case Listing(c, claim) => move := ListMoves(w, cluster, c, claim, api, pick);
    case Dropping(target) => move := DropTargetMoves(w, cluster, target, api);
  }

  lemma EditMoves(w: World, cluster: string, spec: Spec) returns (move: Move)
    requires w.versions != [] && w.InRange() && spec.Periodic() && spec.clusterName == cluster
    ensures move in {Keep, Storing} && Moves(TrailOf(w, cluster), move, TrailOf(Edit(w, spec), cluster), cluster)
  {
    move := if spec == w.Latest().spec then Keep else Storing;
  }

  lemma CronRunMoves(w: World, cluster: string, c: string, payload: Payload) returns (move: Move)
    requires w.versions != [] && w.InRange() && (c == cluster ==> Readable(payload))
    ensures Moves(TrailOf(w, cluster), move, TrailOf(Environment(w, CronRun(c, payload)), cluster), cluster)
    ensures move == Writing ==> c == cluster
  {
    move := if c == cluster then Writing else Keep;
  }

  lemma QuietMoves(w: World, cluster: string, e: Event)
    requires w.versions != [] && w.InRange()
    requires !e.ReconcileStep? && !e.SyncStep? && !e.EditSpec? && !e.CronRun? && !e.Exit?
    ensures TrailOf(Step(w, e), cluster) == TrailOf(w, cluster)
  {
  }

  /** Every event of a steady run moves the trail in one of these ways; only a write to the key
      counts as Writing. */
  lemma EventsMove(w: World, cluster: string, e: Event) returns (move: Move)
    requires w.versions != [] && w.InRange() && Periodic(TrailOf(w, cluster), cluster) && Steady(e, cluster)
    ensures Moves(TrailOf(w, cluster), move, TrailOf(Step(w, e), cluster), cluster)
    ensures move == Writing ==> e.CronRun? && e.cluster == cluster
  {
    match e
    case ReconcileStep(answer) => move := ReconcileMoves(w, cluster, answer);
    case SyncStep(api, pick) => move := SyncMoves(w, cluster, api, pick);
    case EditSpec(spec) => move := EditMoves(w, cluster, spec);
    case CronRun(c, payload) => move := CronRunMoves(w, cluster, c, payload);
    case Exit => move := Forget;
    case _ =>
      QuietMoves(w, cluster, e);
      move := Keep;
  }

  lemma MovesStayPeriodic(before: Trail, move: Move, after: Trail, cluster: string)
    requires Periodic(before, cluster) && Moves(before, move, after, cluster)
    ensures Periodic(after, cluster)
  {
    assert Lives(Last(before), cluster);
  }

  // ---------------------------------------------------------------- the refinement

  function History(trail: Trail): seq<Condition>
    requires trail.versions != []
  {
    Last(trail).status.conditions
  }

  /** The record each write to the key carries. */
  function Heads(payloads: seq<Payload>): (heads: seq<Condition>)
    requires forall i | 0 <= i < |payloads| :: Readable(payloads[i])
    ensures |heads| == |payloads|
    ensures forall i | 0 <= i < |heads| :: Readable(payloads[i]) && heads[i] == payloads[i].list[0]
  {
    seq(|payloads|, i requires 0 <= i < |payloads| && Readable(payloads[i]) => payloads[i].list[0])
  }

  lemma HeadsAppend(payloads: seq<Payload>, payload: Payload)
    requires (forall i | 0 <= i < |payloads| :: Readable(payloads[i])) && Readable(payload)
    ensures forall i | 0 <= i < |payloads + [payload]| :: Readable((payloads + [payload])[i])
    ensures Heads(payloads + [payload]) == Heads(payloads) + [payload.list[0]]
  {
  }

  ghost predicate NoStutter(list: seq<Condition>)
  {
    forall i | 0 < i < |list| :: list[i].filePath != list[i - 1].filePath
  }

  /** A record read at some time stood at some position, and the history was taken from the
      records up to that position. */
  ghost predicate SampledAt(history: seq<Condition>, records: seq<Condition>, sample: Condition, p: nat)
  {
    p < |records| && records[p] == sample && Subsequence(history, records[..p + 1])
  }

  ghost predicate Faithful(trail: Trail, cluster: string)
  {
    && Periodic(trail, cluster)
    && Subsequence(History(trail), Heads(trail.written))
    && NoStutter(History(trail))
    && (trail.sample.Some? ==>
         exists p :: SampledAt(History(trail), Heads(trail.written), trail.sample.value.list[0], p))
  }

  lemma AppendingStaysFaithful(before: Trail, after: Trail, cluster: string)
    requires Faithful(before, cluster) && Moves(before, Appending, after, cluster)
    ensures Faithful(after, cluster)
  {
    var history, records, record := History(before), Heads(before.written), before.sample.value.list[0];
    var p: nat :| SampledAt(history, records, record, p);
    AppendSampled(history, records, record, p);
    assert History(after) == history + [record];
    MovesStayPeriodic(before, Appending, after, cluster);
  }

  lemma AppendSampled(history: seq<Condition>, records: seq<Condition>, record: Condition, p: nat)
    requires SampledAt(history, records, record, p) && (history != [] ==> history[|history| - 1] != record)
    ensures Subsequence(history + [record], records)
  {
    assert records[..p + 1] == records[..p] + [record];
    SubsequenceDrop(history, records[..p], record);
    SubsequenceTake(history, records[..p], record);
    SubsequenceExtend(history + [record], records[..p + 1], records);
  }

  lemma WritingStaysFaithful(before: Trail, after: Trail, cluster: string)
    requires Faithful(before, cluster) && Moves(before, Writing, after, cluster)
    ensures Faithful(after, cluster)
  {
    MovesStayPeriodic(before, Writing, after, cluster);
    var records := Heads(before.written);
    var last := after.written[|after.written| - 1].list[0];
    HeadsAppend(before.written, after.written[|after.written| - 1]);
    assert History(after) == History(before) && Heads(after.written) == records + [last];
    SubsequenceSkip(History(before), records, last);
    if before.sample.Some? {
      var p: nat :| SampledAt(History(before), records, before.sample.value.list[0], p);
      assert (records + [last])[..p + 1] == records[..p + 1];
      assert SampledAt(History(after), Heads(after.written), after.sample.value.list[0], p);
    }
  }

  lemma SamplingStaysFaithful(before: Trail, after: Trail, cluster: string)
    requires Faithful(before, cluster) && Moves(before, Sampling, after, cluster)
    ensures Faithful(after, cluster)
  {
    MovesStayPeriodic(before, Sampling, after, cluster);
    var records := Heads(before.written);
    assert records[..|records| - 1 + 1] == records;
    assert SampledAt(History(after), records, after.sample.value.list[0], |records| - 1);
  }

  lemma MovesStayFaithful(before: Trail, move: Move, after: Trail, cluster: string)
    requires Faithful(before, cluster) && Moves(before, move, after, cluster)
    ensures Faithful(after, cluster)
  {
    match move
    case Appending => AppendingStaysFaithful(before, after, cluster);
    case Writing => WritingStaysFaithful(before, after, cluster);
    case Sampling => SamplingStaysFaithful(before, after, cluster);
    case Storing => MovesStayPeriodic(before, move, after, cluster);
    case Forget =>
    case Keep =>
  }

  lemma {:induction false} RunsStayFaithful(w: World, cluster: string, run: seq<Event>)
    requires w.versions != [] && w.InRange() && Faithful(TrailOf(w, cluster), cluster) && AllSteady(run, cluster)
    ensures Faithful(TrailOf(Exec(w, run), cluster), cluster)
    decreases run
  {
    if run != [] {
      var move := EventsMove(w, cluster, run[0]);
      MovesStayFaithful(TrailOf(w, cluster), move, TrailOf(Step(w, run[0]), cluster), cluster);
      RunsStayFaithful(Step(w, run[0]), cluster, run[1..]);
    }
  }

  /** The resource is new and its schedule is on. The key is shared by all resources of the cluster
      and never expires, so it may hold records already. */
  ghost predicate FreshPeriodic(start: World, cluster: string)
  {
    && Initial(start) && Lives(start.versions[0], cluster)
    && forall i | 0 <= i < |start.WrittenTo(cluster)| :: Readable(start.WrittenTo(cluster)[i])
  }

  lemma FreshIsFaithful(start: World, cluster: string)
    requires FreshPeriodic(start, cluster)
    ensures Faithful(TrailOf(start, cluster), cluster)
  {
  }

  /** History refinement: whatever the interleaving, Status.Conditions is an order-preserving
      subsequence of the records written to the key, without two neighbours of one file; and if
      the records written have distinct files, it holds none of them twice. */
  lemma HistoryRefinesTheWrites(start: World, cluster: string, run: seq<Event>)
    requires FreshPeriodic(start, cluster) && AllSteady(run, cluster)
    ensures var end := Exec(start, run);
      var trail, history := TrailOf(end, cluster), end.Latest().status.conditions;
      && Periodic(trail, cluster)
      && Subsequence(history, Heads(end.WrittenTo(cluster)))
      && NoStutter(history)
      && (DistinctFiles(Heads(end.WrittenTo(cluster))) ==> DistinctFiles(history))
  {
    FreshIsFaithful(start, cluster);
    RunsStayFaithful(start, cluster, run);
    var end := Exec(start, run);
    var trail := TrailOf(end, cluster);
    assert trail.written == end.WrittenTo(cluster) && History(trail) == end.Latest().status.conditions;
    if DistinctFiles(Heads(trail.written)) {
      SubsequenceDistinct(History(trail), Heads(trail.written));
    }
  }

  /** The restriction to one cluster is needed: the key of another cluster holds other records, and
      when the user moves the resource there and back, with a Reconcile after each edit and no write
      at all in between, the record found first is appended a second time. */
  lemma MovedHistoryRepeats(w: World, cluster: string)
    requires Ready(w) && !w.beta && Keeps(w) && CaughtUp(w)
    requires var home := w.Latest().spec.clusterName;
      && cluster != home && cluster in w.secrets && Select(w.PodsOf(cluster)).Claim?
      && Readable(w.Register(home)) && Readable(w.Register(cluster))
      && w.Register(home).list[0].filePath != w.Register(cluster).list[0].filePath
    ensures var spec := w.Latest().spec;
      var away := Step(w, EditSpec(spec.(clusterName := cluster)));
      && Ready(away)
      && var back := Step(FreshReconcile(away), EditSpec(spec));
      && Ready(back)
      && FreshReconcile(back).Latest().status.conditions
         == w.Latest().status.conditions + [w.Register(cluster).list[0], w.Register(spec.clusterName).list[0]]
  {
    var spec, history := w.Latest().spec, w.Latest().status.conditions;
    var first, second := w.Register(spec.clusterName).list[0], w.Register(cluster).list[0];
    var away := MoveAppends(w, spec.(clusterName := cluster));
    var there := FreshReconcile(away);
    assert there.Latest().status.conditions == history + [second];
    var back := MoveAppends(there, spec);
    assert FreshReconcile(back).Latest().status.conditions == history + [second] + [first];
    assert history + [second] + [first] == history + [second, first];
  }

  /** A move to another cluster, and the Reconcile after it. */
  lemma MoveAppends(w: World, spec: Spec) returns (edited: World)
    requires w.versions != [] && w.rec.Idle? && !w.beta && w.HasCronJob() && UpToDate(w.Latest())
    requires spec.Periodic() && spec != w.Latest().spec && spec.Info() == w.Latest().spec.Info()
    requires spec.clusterName in w.secrets && Select(w.PodsOf(spec.clusterName)).Claim? &&
      Readable(w.Register(spec.clusterName))
    requires IsNews(w.Latest().status.conditions, w.Register(spec.clusterName).list[0])
    ensures edited == Step(w, EditSpec(spec)) && Ready(edited)
    ensures var after := FreshReconcile(edited);
      && after == w.(versions := after.versions, rec := Idle(Done)) && after.versions != []
      && after.Latest().spec == spec && UpToDate(after.Latest())
      && after.Latest().status.conditions == w.Latest().status.conditions + [w.Register(spec.clusterName).list[0]]
  {
    edited := w.(versions := w.versions + [RedisBackup(spec, w.Latest().status)]);
    assert Step(w, EditSpec(spec)) == edited;
    assert edited.Register(spec.clusterName) == w.Register(spec.clusterName);
    FreshReconcileKeeps(edited);
  }

  // ---------------------------------------------------------------- no loss

  /** The history ends with the file of the last record written, if one was written. */
  predicate Seen(trail: Trail)
    requires trail.versions != []
  {
    trail.written != [] && Readable(trail.written[|trail.written| - 1]) ==>
      !IsNews(History(trail), trail.written[|trail.written| - 1].list[0])
  }

  /** Before every write to the key, the last record written is in the history already, and no two
      writes in a row are of one file. */
  ghost predicate SeenBeforeWrites(w: World, cluster: string, run: seq<Event>)
    requires w.versions != [] && w.InRange()
    decreases run
  {
    run != [] ==>
      && (run[0].CronRun? && run[0].cluster == cluster ==>
           Seen(TrailOf(w, cluster)) && NewFile(w.WrittenTo(cluster), run[0].payload))
      && SeenBeforeWrites(Step(w, run[0]), cluster, run[1..])
  }

  predicate NewFile(written: seq<Payload>, payload: Payload)
  {
    written != [] && Readable(written[|written| - 1]) && Readable(payload) ==>
      written[|written| - 1].list[0].filePath != payload.list[0].filePath
  }

  function Front(list: seq<Condition>): seq<Condition>
    requires list != []
  {
    list[..|list| - 1]
  }

  /** At most the last record is missing. A record that is read but not dealt with is the last
      one, or the one before it while the last one is missing. */
  ghost predicate Complete(trail: Trail, cluster: string)
  {
    && Periodic(trail, cluster)
    && var records, history := Heads(trail.written), History(trail);
    && (history == records || (records != [] && history == Front(records) && NewFileLast(records)))
    && (trail.sample.Some? ==> Fresh(history, records, trail.sample.value.list[0]))
  }

  predicate Fresh(history: seq<Condition>, records: seq<Condition>, sample: Condition)
  {
    && records != []
    && (sample == records[|records| - 1] ||
        (|records| > 1 && history == Front(records) && sample == records[|records| - 2]))
  }

  predicate NewFileLast(records: seq<Condition>)
    requires records != []
  {
    |records| > 1 ==> records[|records| - 2].filePath != records[|records| - 1].filePath
  }

  /** What has been seen is all there is. */
  lemma SeenIsAll(trail: Trail, cluster: string)
    requires Complete(trail, cluster) && Seen(trail)
    ensures History(trail) == Heads(trail.written)
  {
  }

  lemma WritingStaysComplete(before: Trail, after: Trail, cluster: string)
    requires Complete(before, cluster) && Moves(before, Writing, after, cluster) && Seen(before)
    requires NewFile(before.written, after.written[|after.written| - 1])
    ensures Complete(after, cluster)
  {
    MovesStayPeriodic(before, Writing, after, cluster);
    SeenIsAll(before, cluster);
    var records, payload := Heads(before.written), after.written[|after.written| - 1];
    HeadsAppend(before.written, payload);
    assert Heads(after.written) == records + [payload.list[0]];
    assert Front(records + [payload.list[0]]) == records;
    assert NewFileLast(records + [payload.list[0]]);
  }

  lemma AppendingStaysComplete(before: Trail, after: Trail, cluster: string)
    requires Complete(before, cluster) && Moves(before, Appending, after, cluster)
    ensures Complete(after, cluster)
  {
    MovesStayPeriodic(before, Appending, after, cluster);
    var records, history, record := Heads(before.written), History(before), before.sample.value.list[0];
    assert History(after) == history + [record];
    assert history == Front(records) && record == records[|records| - 1];
    assert Front(records) + [records[|records| - 1]] == records;
  }

  lemma MovesStayComplete(before: Trail, move: Move, after: Trail, cluster: string)
    requires Complete(before, cluster) && Moves(before, move, after, cluster)
    requires move == Writing ==> Seen(before) && NewFile(before.written, after.written[|after.written| - 1])
    ensures Complete(after, cluster)
  {
    match move
    case Appending => AppendingStaysComplete(before, after, cluster);
    case Writing => WritingStaysComplete(before, after, cluster);
    case Storing => MovesStayPeriodic(before, move, after, cluster);
    case Sampling =>
    case Forget =>
    case Keep =>
  }

  /** The trail without the first `n` records written. */
  function From(trail: Trail, n: nat): Trail
    requires n <= |trail.written|
  {
    trail.(written := trail.written[n..])
  }

  /** Leaving out records that have been overwritten does not matter: only the last one is read. */
  predicate Overwritten(trail: Trail, n: nat)
  {
    n == 0 || n < |trail.written|
  }

  lemma MovesFrom(before: Trail, move: Move, after: Trail, cluster: string, n: nat)
    requires before.versions != [] && Overwritten(before, n) && Moves(before, move, after, cluster)
    ensures Overwritten(after, n) && Moves(From(before, n), move, From(after, n), cluster)
  {
    if n == 0 {
      assert From(before, 0) == before && From(after, 0) == after;
    } else if move == Writing {
      assert after.written[n..] == before.written[n..] + [after.written[|after.written| - 1]];
    }
  }

  lemma MovesFromStayComplete(before: Trail, move: Move, after: Trail, cluster: string, n: nat)
    requires Periodic(before, cluster) && Moves(before, move, after, cluster)
    requires Overwritten(before, n) && Complete(From(before, n), cluster)
    requires move == Writing ==> Seen(before) && NewFile(before.written, after.written[|after.written| - 1])
    ensures Periodic(after, cluster) && Overwritten(after, n) && Complete(From(after, n), cluster)
  {
    MovesStayPeriodic(before, move, after, cluster);
    MovesFrom(before, move, after, cluster, n);
    MovesStayComplete(From(before, n), move, From(after, n), cluster);
  }

  lemma {:induction false} RunsStayComplete(w: World, cluster: string, n: nat, run: seq<Event>)
    requires w.versions != [] && w.InRange() && Periodic(TrailOf(w, cluster), cluster)
    requires Overwritten(TrailOf(w, cluster), n) && Complete(From(TrailOf(w, cluster), n), cluster)
    requires AllSteady(run, cluster) && SeenBeforeWrites(w, cluster, run)
    ensures var trail := TrailOf(Exec(w, run), cluster);
      Periodic(trail, cluster) && Overwritten(trail, n) && Complete(From(trail, n), cluster)
    decreases run
  {
    if run != [] {
      var before, after := TrailOf(w, cluster), TrailOf(Step(w, run[0]), cluster);
      var move := EventsMove(w, cluster, run[0]);
      if move == Writing {
        assert after.written == before.written + [run[0].payload];
      }
      MovesFromStayComplete(before, move, after, cluster, n);
      RunsStayComplete(Step(w, run[0]), cluster, n, run[1..]);
    }
  }

  /** The position of the record that the key holds at the start. */
  function FirstSeen(start: World, cluster: string): nat
  {
    if start.WrittenTo(cluster) == [] then 0 else |start.WrittenTo(cluster)| - 1
  }

  /** The records that a new resource can see: the one the key holds, and those written since. */
  ghost predicate KeepsUp(start: World, cluster: string, end: World)
    requires end.versions != []
  {
    var trail, n := TrailOf(end, cluster), FirstSeen(start, cluster);
    && Periodic(trail, cluster) && n <= |trail.written|
    && var records, history := Heads(trail.written[n..]), History(trail);
    && (Seen(trail) ==> history == records)
    && (!Seen(trail) ==> records != [] && history == Front(records))
  }

  lemma StartsComplete(start: World, cluster: string)
    requires FreshPeriodic(start, cluster)
    ensures var trail, n := TrailOf(start, cluster), FirstSeen(start, cluster);
      Periodic(trail, cluster) && Overwritten(trail, n) && Complete(From(trail, n), cluster)
  {
    var trail, n := TrailOf(start, cluster), FirstSeen(start, cluster);
    assert trail.versions == start.versions && Last(trail) == start.versions[0];
    BlankIsComplete(trail, cluster, n);
  }

  lemma BlankIsComplete(trail: Trail, cluster: string, n: nat)
    requires Periodic(trail, cluster) && History(trail) == [] && trail.sample == None
    requires n <= |trail.written| <= n + 1
    ensures Complete(From(trail, n), cluster)
  {
    var records := Heads(trail.written[n..]);
    if records != [] {
      assert |records| == 1 && Front(records) == [];
    }
  }

  lemma SeenRunsKeepUp(start: World, cluster: string, run: seq<Event>)
    requires FreshPeriodic(start, cluster) && AllSteady(run, cluster) && SeenBeforeWrites(start, cluster, run)
    ensures KeepsUp(start, cluster, Exec(start, run))
  {
    var n := FirstSeen(start, cluster);
    StartsComplete(start, cluster);
    RunsStayComplete(start, cluster, n, run);
    var trail := TrailOf(Exec(start, run), cluster);
    CompleteMeansSeen(From(trail, n), cluster);
    assert Seen(From(trail, n)) == Seen(trail);
  }

  lemma CompleteMeansSeen(trail: Trail, cluster: string)
    requires Complete(trail, cluster)
    ensures var records := Heads(trail.written);
      && (Seen(trail) ==> History(trail) == records)
      && (!Seen(trail) ==> records != [] && History(trail) == Front(records))
  {
  }

  // ---------------------------------------------------------------- sampling in interleaved runs

  /** How far the Reconciles have got with the last record written: nothing, read by the running
      one, in the version the running one works on, or stored by one that has returned. */
  datatype Phase = Unread | Read | Published | Recorded

  /** A write to the key makes the record new; a Reconcile whose calls go through takes it from phase
      to phase; one that ends early, or a process exit, starts over unless the record is stored. */
  function Advance(w: World, cluster: string, phase: Phase, e: Event, after: World): Phase
  {
    if e.CronRun? && e.cluster == cluster then Unread
    else if phase == Recorded then Recorded
    else if e.ReconcileStep? && w.rec.Checked? && after.rec.Sampled? then Read
    else if e.ReconcileStep? && w.rec.Sampled? && after.rec.Recording? && phase == Read then Published
    else if e.ReconcileStep? && w.rec.Recording? && after.rec == Idle(Done) && phase == Published then Recorded
    else if after.rec.Idle? then Unread
    else phase
  }

  ghost function PhaseAfter(w: World, cluster: string, phase: Phase, run: seq<Event>): Phase
    requires w.versions != [] && w.InRange()
    decreases run
  {
    if run == [] then phase
    else PhaseAfter(Step(w, run[0]), cluster, Advance(w, cluster, phase, run[0], Step(w, run[0])), run[1..])
  }

  /** Between any two writes to the key some Reconcile has sampled it and gone on to its end, whatever
      else happens in between; and no two writes in a row are of one file. */
  ghost predicate SampledBeforeWrites(w: World, cluster: string, phase: Phase, run: seq<Event>)
    requires w.versions != [] && w.InRange()
    decreases run
  {
    run != [] ==>
      && (run[0].CronRun? && run[0].cluster == cluster ==>
            (phase == Recorded || w.WrittenTo(cluster) == []) && NewFile(w.WrittenTo(cluster), run[0].payload))
      && SampledBeforeWrites(Step(w, run[0]), cluster, Advance(w, cluster, phase, run[0], Step(w, run[0])), run[1..])
  }

  /** The last record is in the history, and no other one is about to be appended. */
  predicate Stored(trail: Trail)
    requires trail.versions != []
  {
    && trail.written != [] && Seen(trail)
    && (trail.sample.Some? ==> trail.sample.value == trail.written[|trail.written| - 1])
  }

  /** What a phase means. */
  ghost predicate Knows(w: World, cluster: string, phase: Phase)
    requires w.versions != [] && w.InRange()
  {
    var written := w.WrittenTo(cluster);
    match phase
    case Unread => true
    case Read => w.rec.Sampled? && written != [] && w.rec.payload == written[|written| - 1]
    case Published =>
      && w.rec.Recording? && written != [] && Readable(written[|written| - 1])
      && !IsNews(w.versions[w.rec.at].status.conditions, written[|written| - 1].list[0])
    case Recorded => Stored(TrailOf(w, cluster))
  }

  lemma StoredStays(before: Trail, move: Move, after: Trail, cluster: string)
    requires Periodic(before, cluster) && Stored(before) && move != Writing && Moves(before, move, after, cluster)
    ensures after.versions != [] && Stored(after)
  {
  }

  /** Whatever is no call of it leaves a running Reconcile where it is, or ends it. */
  lemma OthersLeaveThread(w: World, cluster: string, e: Event)
    requires w.versions != [] && w.InRange() && !w.rec.Idle?
    requires !e.ReconcileStep? && !(e.CronRun? && e.cluster == cluster)
    ensures Step(w, e).rec == w.rec || Step(w, e).rec.Idle?
    ensures Step(w, e).WrittenTo(cluster) == w.WrittenTo(cluster)
  {
    match e
    case SyncStep(_, _) =>
    case ReconcileStart(_) =>
    case CronRun(_, _) =>
    case _ =>
  }

  lemma SampleReads(w: World, cluster: string, at: nat, api: Api)
    requires w.rec == Checked(at) && at < |w.versions| && Lives(w.versions[at], cluster)
    ensures var after := Sample(w, at, api);
      after.rec.Sampled? ==> Knows(after, cluster, Read)
  {
  }

  lemma PublishPublishes(w: World, cluster: string, at: nat, payload: Payload, api: Api)
    requires w.versions != [] && w.rec == Sampled(at, payload) && at < |w.versions|
    requires Lives(w.versions[at], cluster) && Readable(payload) && Knows(w, cluster, Read)
    ensures var after := Publish(w, at, payload, api);
      after.rec.Recording? ==> Knows(after, cluster, Published)
  {
    assert Publish(w, at, payload, api).WrittenTo(cluster) == w.WrittenTo(cluster);
  }

  lemma RecordStores(w: World, cluster: string, at: nat, created: bool, api: Api)
    requires w.versions != [] && w.rec == Recording(at, created) && at < |w.versions| && Knows(w, cluster, Published)
    ensures var after := Record(w, at, created, api);
      after.rec == Idle(Done) ==> Knows(after, cluster, Recorded)
  {
    assert Record(w, at, created, api).WrittenTo(cluster) == w.WrittenTo(cluster);
  }

  lemma CallsAdvance(w: World, cluster: string, phase: Phase, answer: Answer)
    requires w.versions != [] && w.InRange() && Periodic(TrailOf(w, cluster), cluster)
    requires Knows(w, cluster, phase) && phase != Recorded
    ensures var after := StepReconcile(w, answer);
      Knows(after, cluster, Advance(w, cluster, phase, ReconcileStep(answer), after))
  {
    assert !w.rec.Idle? ==> Lives(w.versions[w.rec.at], cluster);
    match w.rec
    case Checked(at) => SampleReads(w, cluster, at, answer.api);
    case Sampled(at, payload) =>
      if phase == Read {
        PublishPublishes(w, cluster, at, payload, answer.api);
      }
    case Recording(at, created) =>
      if phase == Published {
        RecordStores(w, cluster, at, created, answer.api);
      }
    case _ =>
  }

  lemma EventsAdvance(w: World, cluster: string, phase: Phase, e: Event)
    requires w.versions != [] && w.InRange() && Periodic(TrailOf(w, cluster), cluster) && Steady(e, cluster)
    requires Knows(w, cluster, phase)
    ensures Knows(Step(w, e), cluster, Advance(w, cluster, phase, e, Step(w, e)))
  {
    if e.CronRun? && e.cluster == cluster {
    } else if phase == Recorded {
      var move := EventsMove(w, cluster, e);
      StoredStays(TrailOf(w, cluster), move, TrailOf(Step(w, e), cluster), cluster);
    } else if e.ReconcileStep? {
      CallsAdvance(w, cluster, phase, e.answer);
    } else if phase != Unread {
      OthersLeaveThread(w, cluster, e);
    }
  }

  lemma {:induction false} SampledRunsAreSeen(w: World, cluster: string, phase: Phase, run: seq<Event>)
    requires w.versions != [] && w.InRange() && Periodic(TrailOf(w, cluster), cluster) && Knows(w, cluster, phase)
    requires AllSteady(run, cluster) && SampledBeforeWrites(w, cluster, phase, run)
    ensures SeenBeforeWrites(w, cluster, run)
    ensures Knows(Exec(w, run), cluster, PhaseAfter(w, cluster, phase, run))
    decreases run
  {
    if run != [] {
      var next := Step(w, run[0]);
      EventsAdvance(w, cluster, phase, run[0]);
      var move := EventsMove(w, cluster, run[0]);
      MovesStayPeriodic(TrailOf(w, cluster), move, TrailOf(next, cluster), cluster);
      SampledRunsAreSeen(next, cluster, Advance(w, cluster, phase, run[0], next), run[1..]);
    }
  }

  /** No loss, whatever is interleaved: if between any two writes to the key one Reconcile has sampled
      it and has gone on to its end, and no backup reuses the file of the one before, then the
      history is exactly the sequence of the records, but for the last one if that has not been
      sampled yet; and it is all of them once a Reconcile has sampled the last one too. */
  lemma NothingIsLost(start: World, cluster: string, run: seq<Event>)
    requires FreshPeriodic(start, cluster) && AllSteady(run, cluster)
    requires SampledBeforeWrites(start, cluster, Unread, run)
    ensures KeepsUp(start, cluster, Exec(start, run))
    ensures PhaseAfter(start, cluster, Unread, run) == Recorded ==> Seen(TrailOf(Exec(start, run), cluster))
  {
    FreshIsFaithful(start, cluster);
    SampledRunsAreSeen(start, cluster, Unread, run);
    SeenRunsKeepUp(start, cluster, run);
  }

  /** What sampling takes: an uninterrupted Reconcile that keeps the CronJob. */
  lemma KeepingReconcileSees(w: World)
    requires Ready(w) && Keeps(w) && WellFormed(w.Register(w.Latest().spec.clusterName))
    ensures Seen(TrailOf(FreshReconcile(w), w.Latest().spec.clusterName))
  {
    FreshReconcileKeeps(w);
  }

  /** One backup after the other, each sampled by a whole Reconcile before the next one. */
  ghost function Backups(w: World, payloads: seq<Payload>): World
    requires Ready(w)
    decreases payloads
  {
    if payloads == [] then w
    else
      var next := FreshReconcile(Step(w, CronRun(w.Latest().spec.clusterName, payloads[0])));
      if Ready(next) then Backups(next, payloads[1..]) else next
  }

  /** Each record is of another file than the one before it, `history` standing before them all. */
  ghost predicate NewFiles(history: seq<Condition>, payloads: seq<Payload>)
    decreases payloads
  {
    payloads != [] ==>
      Readable(payloads[0]) && IsNews(history, payloads[0].list[0]) &&
        NewFiles(history + [payloads[0].list[0]], payloads[1..])
  }

  lemma HeadsFirst(history: seq<Condition>, payloads: seq<Payload>)
    requires payloads != [] && Readable(payloads[0]) && forall i | 0 <= i < |payloads| :: Readable(payloads[i])
    ensures (history + [payloads[0].list[0]]) + Heads(payloads[1..]) == history + Heads(payloads)
  {
    assert Heads(payloads) == [payloads[0].list[0]] + Heads(payloads[1..]);
  }

  lemma BackupIsRecorded(w: World, payload: Payload)
    requires Ready(w) && Keeps(w) && Readable(payload) && IsNews(w.Latest().status.conditions, payload.list[0])
    ensures var next := FreshReconcile(Step(w, CronRun(w.Latest().spec.clusterName, payload)));
      && Ready(next) && Keeps(next)
      && next.Latest().status.conditions == w.Latest().status.conditions + [payload.list[0]]
  {
    var cluster := w.Latest().spec.clusterName;
    var run := w.(written := w.written[cluster := w.WrittenTo(cluster) + [payload]]);
    assert Step(w, CronRun(cluster, payload)) == run;
    assert run.Register(cluster) == payload;
    FreshReconcileKeeps(run);
  }

  /** So a kept CronJob whose backups are sampled one by one gets every record into the history:
      for any number of backups of changing files, in order, and each once. */
  lemma {:induction false} BackupsAreRecorded(w: World, payloads: seq<Payload>)
    requires Ready(w) && Keeps(w) && NewFiles(w.Latest().status.conditions, payloads)
    requires forall i | 0 <= i < |payloads| :: Readable(payloads[i])
    ensures Backups(w, payloads).versions != []
    ensures Backups(w, payloads).Latest().status.conditions == w.Latest().status.conditions + Heads(payloads)
    decreases payloads
  {
    if payloads != [] {
      var next := FreshReconcile(Step(w, CronRun(w.Latest().spec.clusterName, payloads[0])));
      BackupIsRecorded(w, payloads[0]);
      BackupsAreRecorded(next, payloads[1..]);
      assert Backups(w, payloads) == Backups(next, payloads[1..]);
      HeadsFirst(w.Latest().status.conditions, payloads);
    }
  }

  /** And such a sequence is a run of the machine. */
  lemma {:induction false} BackupsAreARun(w: World, payloads: seq<Payload>) returns (run: seq<Event>)
    requires Ready(w)
    ensures Exec(w, run) == Backups(w, payloads)
    decreases payloads
  {
    if payloads == [] {
      run := [];
    } else {
      var write := CronRun(w.Latest().spec.clusterName, payloads[0]);
      var written := Step(w, write);
      var next := FreshReconcile(written);
      var at, script := |written.versions| - 1, Smooth(written.HasCronJob(), CALLS);
      var sampling := [ReconcileStart(at)] + Calls(script);
      ReconcileRunIsARun(written, at, script);
      run := [write] + sampling;
      assert run[1..] == sampling;
      assert Exec(w, run) == next;
      if Ready(next) {
        var rest := BackupsAreARun(next, payloads[1..]);
        ExecAppend(w, run, rest);
        run := run + rest;
      }
    }
  }

  // ---------------------------------------------------------------- and meets what NothingIsLost asks for

  lemma PhaseFirst(w: World, cluster: string, phase: Phase, e: Event, rest: seq<Event>, next: World)
    requires w.versions != [] && w.InRange() && next == Step(w, e)
    ensures PhaseAfter(w, cluster, phase, [e] + rest)
      == PhaseAfter(next, cluster, Advance(w, cluster, phase, e, next), rest)
  {
    assert ([e] + rest)[1..] == rest;
  }

  /** One more accepted call of a Reconcile. */
  lemma PhaseCall(w: World, cluster: string, phase: Phase, calls: nat, next: World)
    requires w.versions != [] && w.InRange() && calls > 0 && next == StepReconcile(w, Answer(Accepted, true))
    ensures PhaseAfter(w, cluster, phase, Calls(Smooth(true, calls)))
         == PhaseAfter(next, cluster, Advance(w, cluster, phase, ReconcileStep(Answer(Accepted, true)), next),
           Calls(Smooth(true, calls - 1)))
  {
    var ok, script := Answer(Accepted, true), Smooth(true, calls);
    assert script[1..] == Smooth(true, calls - 1);
    PhaseFirst(w, cluster, phase, ReconcileStep(ok), Calls(script[1..]), next);
  }

  /** A call that only looks something up. */
  lemma PhaseRead(w: World, cluster: string, phase: Phase, calls: nat, next: World)
    requires w.versions != [] && w.InRange() && calls > 0 && next == StepReconcile(w, Answer(Accepted, true))
    requires !w.rec.Checked? && !w.rec.Sampled? && !w.rec.Recording? && !next.rec.Idle?
    ensures PhaseAfter(w, cluster, phase, Calls(Smooth(true, calls)))
         == PhaseAfter(next, cluster, phase, Calls(Smooth(true, calls - 1)))
  {
    PhaseCall(w, cluster, phase, calls, next);
  }

  lemma LocateKeepsPhase(w: World, cluster: string, phase: Phase, at: nat, calls: nat)
    requires Ready(w) && at + 1 == |w.versions|
    ensures PhaseAfter(w.(rec := Fetched(at)), cluster, phase, Calls(Smooth(true, calls + 2)))
         == PhaseAfter(w.(rec := Located(at, MasterClaim(w))), cluster, phase, Calls(Smooth(true, calls)))
  {
    var w1, w2, w3 := w.(rec := Fetched(at)), w.(rec := Authorised(at)), w.(rec := Located(at, MasterClaim(w)));
    assert Authorise(w1, at, Accepted) == w2 && Locate(w2, at, Accepted) == w3;
    PhaseRead(w1, cluster, phase, calls + 2, w2);
    PhaseRead(w2, cluster, phase, calls + 1, w3);
  }

  lemma InspectKeepsPhase(w: World, cluster: string, phase: Phase, at: nat, calls: nat)
    requires Ready(w) && Keeps(w) && at + 1 == |w.versions|
    ensures PhaseAfter(w.(rec := Located(at, MasterClaim(w))), cluster, phase, Calls(Smooth(true, calls + 2)))
         == PhaseAfter(w.(rec := Checked(at)), cluster, phase, Calls(Smooth(true, calls)))
  {
    var claim := MasterClaim(w);
    var found := w.(rec := Present(at, claim));
    PhaseRead(w.(rec := Located(at, claim)), cluster, phase, calls + 2, found);
    InspectKeeps(w, at);
    InspectKeepsPhaseOnce(found, cluster, phase, at, claim, calls);
  }

  lemma InspectKeepsPhaseOnce(w: World, cluster: string, phase: Phase, at: nat, claim: string, calls: nat)
    requires at < |w.versions| && w.rec == Present(at, claim)
      && Inspect(w, at, claim, Accepted) == w.(rec := Checked(at))
    ensures PhaseAfter(w, cluster, phase, Calls(Smooth(true, calls + 1)))
         == PhaseAfter(w.(rec := Checked(at)), cluster, phase, Calls(Smooth(true, calls)))
  {
    PhaseRead(w, cluster, phase, calls + 1, w.(rec := Checked(at)));
  }

  /** A stored record stays stored until the next write. */
  lemma {:induction false} RecordedStays(w: World, cluster: string, script: seq<Answer>)
    requires w.versions != [] && w.InRange()
    ensures PhaseAfter(w, cluster, Recorded, Calls(script)) == Recorded
    decreases script
  {
    if script != [] {
      var call, next := ReconcileStep(script[0]), StepReconcile(w, script[0]);
      PhaseFirst(w, cluster, Recorded, call, Calls(script[1..]), next);
      RecordedStays(next, cluster, script[1..]);
    }
  }

  lemma SamplingRecords(w: World, cluster: string, phase: Phase, at: nat, calls: nat)
    requires calls >= 3 && at + 1 == |w.versions| && w.rec == Checked(at) && w.Latest().spec.Periodic() &&
      phase != Recorded
    requires cluster == w.Latest().spec.clusterName && Readable(w.Register(cluster))
    ensures PhaseAfter(w, cluster, phase, Calls(Smooth(true, calls))) == Recorded
  {
    var payload := w.Register(cluster);
    var sampled := w.(rec := Sampled(at, payload));
    assert Sample(w, at, Accepted) == sampled;
    PhaseCall(w, cluster, phase, calls, sampled);
    PublishingRecords(sampled, cluster, at, payload, calls - 1);
  }

  lemma PublishingRecords(w: World, cluster: string, at: nat, payload: Payload, calls: nat)
    requires calls >= 2 && at + 1 == |w.versions| && w.rec == Sampled(at, payload) && w.Latest().spec.Periodic() &&
      Readable(payload)
    ensures PhaseAfter(w, cluster, Read, Calls(Smooth(true, calls))) == Recorded
  {
    var published := Publish(w, at, payload, Accepted);
    PublishSettles(w, at, payload);
    PhaseCall(w, cluster, Read, calls, published);
    RecordSettles(published, published.rec.at);
    var stored := Record(published, published.rec.at, false, Accepted);
    PhaseCall(published, cluster, Published, calls - 1, stored);
    RecordedStays(stored, cluster, Smooth(true, calls - 2));
  }

  /** An uninterrupted Reconcile that finds and keeps the CronJob takes the record in Redis to its last
      phase: it is all the sampling that NothingIsLost asks for. */
  lemma KeepingReconcileRecords(w: World, phase: Phase)
    requires Ready(w) && Keeps(w) && Readable(w.Register(w.Latest().spec.clusterName)) && phase != Recorded
    ensures PhaseAfter(w, w.Latest().spec.clusterName, phase,
      [ReconcileStart(|w.versions| - 1)] + Calls(Smooth(true, CALLS))) == Recorded
  {
    KeepingRecords(w, w.Latest().spec.clusterName, phase, |w.versions| - 1, 3);
  }

  lemma KeepingRecords(w: World, cluster: string, phase: Phase, at: nat, rest: nat)
    requires Ready(w) && Keeps(w) && at + 1 == |w.versions| && cluster == w.Latest().spec.clusterName && rest >= 3
    requires Readable(w.Register(cluster)) && phase != Recorded
    ensures PhaseAfter(w, cluster, phase, [ReconcileStart(at)] + Calls(Smooth(true, rest + 4))) == Recorded
  {
    StartKeepsPhase(w, cluster, phase, at, Calls(Smooth(true, rest + 4)));
    LookupThenRecords(w, cluster, phase, at, rest);
  }

  lemma LookupThenRecords(w: World, cluster: string, phase: Phase, at: nat, rest: nat)
    requires Ready(w) && Keeps(w) && at + 1 == |w.versions| && cluster == w.Latest().spec.clusterName && rest >= 3
    requires Readable(w.Register(cluster)) && phase != Recorded
    ensures PhaseAfter(w.(rec := Fetched(at)), cluster, phase, Calls(Smooth(true, rest + 4))) == Recorded
  {
    LookupKeepsPhase(w, cluster, phase, at, rest);
    var checked := w.(rec := Checked(at));
    assert checked.Register(cluster) == w.Register(cluster);
    SamplingRecords(checked, cluster, phase, at, rest);
  }

  lemma LookupKeepsPhase(w: World, cluster: string, phase: Phase, at: nat, rest: nat)
    requires Ready(w) && Keeps(w) && at + 1 == |w.versions|
    ensures PhaseAfter(w.(rec := Fetched(at)), cluster, phase, Calls(Smooth(true, rest + 4)))
         == PhaseAfter(w.(rec := Checked(at)), cluster, phase, Calls(Smooth(true, rest)))
  {
    LocateKeepsPhase(w, cluster, phase, at, rest + 2);
    InspectKeepsPhase(w, cluster, phase, at, rest);
  }

  lemma StartKeepsPhase(w: World, cluster: string, phase: Phase, at: nat, calls: seq<Event>)
    requires at < |w.versions| && w.rec.Idle?
    ensures PhaseAfter(w, cluster, phase, [ReconcileStart(at)] + calls)
         == PhaseAfter(w.(rec := Fetched(at)), cluster, phase, calls)
  {
    PhaseFirst(w, cluster, phase, ReconcileStart(at), calls, w.(rec := Fetched(at)));
  }

  predicate NoWrites(run: seq<Event>)
  {
    forall i | 0 <= i < |run| :: run[i].ReconcileStart? || run[i].ReconcileStep?
  }

  lemma {:induction false} CallsWriteNothing(script: seq<Answer>)
    ensures NoWrites(Calls(script))
  {
    if script != [] {
      CallsWriteNothing(script[1..]);
    }
  }

  lemma {:induction false} NoWritesAreSampled(w: World, cluster: string, phase: Phase, run: seq<Event>)
    requires w.versions != [] && w.InRange() && NoWrites(run)
    ensures SampledBeforeWrites(w, cluster, phase, run) && AllSteady(run, cluster)
    decreases run
  {
    if run != [] {
      NoWritesAreSampled(Step(w, run[0]), cluster, Advance(w, cluster, phase, run[0], Step(w, run[0])), run[1..]);
    }
  }

  lemma {:induction false} SampledAppend(w: World, cluster: string, phase: Phase, first: seq<Event>, second: seq<Event>)
    requires w.versions != [] && w.InRange() && SampledBeforeWrites(w, cluster, phase, first)
    requires SampledBeforeWrites(Exec(w, first), cluster, PhaseAfter(w, cluster, phase, first), second)
    ensures SampledBeforeWrites(w, cluster, phase, first + second)
    ensures PhaseAfter(w, cluster, phase, first + second)
         == PhaseAfter(Exec(w, first), cluster, PhaseAfter(w, cluster, phase, first), second)
    decreases first
  {
    if first == [] {
      assert first + second == second;
    } else {
      var next, rest := Step(w, first[0]), first[1..];
      var advanced := Advance(w, cluster, phase, first[0], next);
      assert (first + second)[0] == first[0] && (first + second)[1..] == rest + second;
      assert Exec(w, first) == Exec(next, rest);
      assert PhaseAfter(w, cluster, phase, first) == PhaseAfter(next, cluster, advanced, rest);
      SampledAppend(next, cluster, advanced, rest, second);
    }
  }

  /** One backup and the Reconcile after it, as a run. */
  lemma BackupIsSampled(w: World, payload: Payload, phase: Phase) returns (run: seq<Event>)
    requires Ready(w) && Keeps(w) && Readable(payload) && IsNews(w.Latest().status.conditions, payload.list[0])
    requires Seen(TrailOf(w, w.Latest().spec.clusterName))
    requires phase == Recorded || w.WrittenTo(w.Latest().spec.clusterName) == []
    ensures var cluster := w.Latest().spec.clusterName;
      && Exec(w, run) == FreshReconcile(Step(w, CronRun(cluster, payload)))
      && SampledBeforeWrites(w, cluster, phase, run) && AllSteady(run, cluster)
      && PhaseAfter(w, cluster, phase, run) == Recorded
  {
    var cluster := w.Latest().spec.clusterName;
    var written := w.(written := w.written[cluster := w.WrittenTo(cluster) + [payload]]);
    assert Step(w, CronRun(cluster, payload)) == written && written.Register(cluster) == payload;
    NewsIsNewFile(w, cluster, payload);
    KeepingReconcileRecords(written, Unread);
    run := WriteThenReconcile(w, cluster, phase, payload, |w.versions| - 1, Smooth(true, CALLS), written);
  }

  lemma WriteThenReconcile(w: World, cluster: string, phase: Phase, payload: Payload, at: nat, script: seq<Answer>,
    written: World) returns (run: seq<Event>)
    requires w.versions != [] && w.InRange() && Readable(payload) && NewFile(w.WrittenTo(cluster), payload)
    requires phase == Recorded || w.WrittenTo(cluster) == []
    requires written == Step(w, CronRun(cluster, payload)) && Ready(written)
    requires FreshReconcile(written) == ReconcileRun(written, at, script)
    requires PhaseAfter(written, cluster, Unread, [ReconcileStart(at)] + Calls(script)) == Recorded
    ensures Exec(w, run) == FreshReconcile(written)
    ensures SampledBeforeWrites(w, cluster, phase, run) && AllSteady(run, cluster)
    ensures PhaseAfter(w, cluster, phase, run) == Recorded
  {
    run := WriteThenCalls(w, cluster, phase, payload, at, script);
  }

  lemma NewsIsNewFile(w: World, cluster: string, payload: Payload)
    requires w.versions != [] && Seen(TrailOf(w, cluster)) && Readable(payload)
    requires IsNews(w.Latest().status.conditions, payload.list[0])
    ensures NewFile(w.WrittenTo(cluster), payload)
  {
    assert Last(TrailOf(w, cluster)) == w.Latest();
  }

  lemma WriteThenCalls(w: World, cluster: string, phase: Phase, payload: Payload, at: nat, script: seq<Answer>)
    returns (run: seq<Event>)
    requires w.versions != [] && w.InRange() && Readable(payload) && NewFile(w.WrittenTo(cluster), payload)
    requires phase == Recorded || w.WrittenTo(cluster) == []
    ensures var written := Step(w, CronRun(cluster, payload));
      && run == [CronRun(cluster, payload)] + ([ReconcileStart(at)] + Calls(script))
      && Exec(w, run) == ReconcileRun(written, at, script)
      && SampledBeforeWrites(w, cluster, phase, run) && AllSteady(run, cluster)
      && PhaseAfter(w, cluster, phase, run)
      == PhaseAfter(written, cluster, Unread, [ReconcileStart(at)] + Calls(script))
  {
    var write, calls := CronRun(cluster, payload), [ReconcileStart(at)] + Calls(script);
    var written := Step(w, write);
    ReconcileRunIsARun(written, at, script);
    CallsWriteNothing(script);
    NoWritesAreSampled(written, cluster, Unread, calls);
    PhaseFirst(w, cluster, phase, write, calls, written);
    run := [write] + calls;
    assert run[1..] == calls;
  }

  lemma BackupIsSeen(w: World, payload: Payload)
    requires Ready(w) && Keeps(w) && Readable(payload)
    ensures var cluster := w.Latest().spec.clusterName;
      var next := FreshReconcile(Step(w, CronRun(cluster, payload)));
      next.Latest().spec.clusterName == cluster && Seen(TrailOf(next, cluster))
  {
    var cluster := w.Latest().spec.clusterName;
    var written := w.(written := w.written[cluster := w.WrittenTo(cluster) + [payload]]);
    assert Step(w, CronRun(cluster, payload)) == written && written.Register(cluster) == payload;
    FreshReconcileKeeps(written);
    KeepingReconcileSees(written);
  }

  /** So the backups of BackupsAreRecorded are a run of the machine that NothingIsLost covers. */
  lemma {:induction false} BackupsAreSampled(w: World, payloads: seq<Payload>, phase: Phase) returns (run: seq<Event>)
    requires Ready(w) && Keeps(w) && NewFiles(w.Latest().status.conditions, payloads)
    requires Seen(TrailOf(w, w.Latest().spec.clusterName))
    requires phase == Recorded || w.WrittenTo(w.Latest().spec.clusterName) == []
    ensures var cluster := w.Latest().spec.clusterName;
      && Exec(w, run) == Backups(w, payloads)
      && SampledBeforeWrites(w, cluster, phase, run) && AllSteady(run, cluster)
      && PhaseAfter(w, cluster, phase, run) == (if payloads == [] then phase else Recorded)
    decreases payloads
  {
    if payloads == [] {
      run := [];
    } else {
      var cluster := w.Latest().spec.clusterName;
      var written := Step(w, CronRun(cluster, payloads[0]));
      var next := FreshReconcile(written);
      BackupIsRecorded(w, payloads[0]);
      BackupIsSeen(w, payloads[0]);
      run := BackupIsSampled(w, payloads[0], phase);
      var rest := BackupsAreSampled(next, payloads[1..], Recorded);
      ExecAppend(w, run, rest);
      SampledAppend(w, cluster, phase, run, rest);
      run := run + rest;
    }
  }
}
