/** controllers/redisclone_controller.go: two handlers rewrite one status, each from the version it
    has read, and the API server lets only writes of the latest version through. */
module CloneStatus {
  import opened Wrappers
  import opened ApiServer
  import opened InfoParser

  datatype Spec = Spec(
    sourceCluster: string, destCluster: string, sourceIP: string, sourcePort: string, clusterType: string,
      replicas: int)

  datatype CloneCondition = CloneCondition(
    sourceCluster: string, destCluster: string, sourceIPPort: string, clusterType: string,
    startTime: string, offSet: string, cloneLag: string, cloneStatus: string, replicas: int)

  datatype RedisClone = RedisClone(spec: Spec, conditions: CloneCondition)

  /** What a handler sees while it runs: the clock, the destination's pods (None if the listing
      fails), and the INFO text of the first pod, empty if the probe fails. */
  datatype Probe = Probe(now: string, podCount: Option<nat>, info: string)

  /** Whether an INFO text was got at all. */
  predicate Probed(probe: Probe)
  {
    probe.podCount.Some? && probe.podCount.value > 0 && probe.info != ""
  }

  /** The replication fields of an INFO text (lines 136-138 and 215-217). */
  function WithReplication(conditions: CloneCondition, table: map<string, string>): CloneCondition
  {
    conditions.(offSet := Lookup(table, "slave_repl_offset"),
                cloneLag := Lookup(table, "master_last_io_seconds_ago"),
                cloneStatus := Lookup(table, "master_link_status"))
  }

  function FromSpec(spec: Spec, conditions: CloneCondition, now: string): CloneCondition
  {
    conditions.(sourceCluster := spec.sourceCluster, destCluster := spec.destCluster,
                sourceIPPort := spec.sourceIP + ":" + spec.sourcePort, clusterType := spec.clusterType,
                replicas := spec.replicas, startTime := now)
  }

  /** Reconcile starts the condition anew (lines 91-142). */
  function Restarted(clone: RedisClone, probe: Probe): RedisClone
  {
    var blank := CloneCondition("", "", "", "", "", "", "", "down", 0);
    var conditions := FromSpec(clone.spec, blank, probe.now);
    clone.(conditions := if Probed(probe) then WithReplication(conditions, Table(Text.Split(probe.info, '\n')))
      else conditions)
  }

  /** CloneInfoSync refreshes it (lines 171-224). */
  function Refreshed(clone: RedisClone, probe: Probe): RedisClone
  {
    var conditions := if clone.conditions.startTime == "" then FromSpec(clone.spec, clone.conditions, probe.now)
      else clone.conditions;
    clone.(conditions := if Probed(probe) then WithReplication(conditions, Table(Text.Split(probe.info, '\n')))
                         else conditions.(cloneLag := "-1", cloneStatus := "down"))
  }

  datatype Handler = Reconcile | CloneInfoSync

  function Computed(handler: Handler, clone: RedisClone, probe: Probe): RedisClone
  {
    match handler
    case Reconcile => Restarted(clone, probe)
    case CloneInfoSync => Refreshed(clone, probe)
  }

  // ---------------------------------------------------------------- the handlers as methods

  class Controller {
    var versions: seq<RedisClone>

    constructor (clone: RedisClone)
      ensures versions == [clone]
    {
      versions := [clone];
    }

    /** r.Status().Update */
    method UpdateStatus(at: nat, next: RedisClone, api: Api)
      requires at < |versions|
      modifies this
      ensures versions == if api == Refused then old(versions) else Store(old(versions), at, next)
    {
      if api != Refused && at + 1 == |versions| && versions[at] != next {
        versions := versions + [next];
      }
    }

    /** Lines 75-150, from the version it has read on. */
    method ReconcileClone(at: nat, probe: Probe, api: Api)
      requires at < |versions|
      modifies this
      ensures versions == if probe.podCount.None? || api == Refused then old(versions)
                          else Store(old(versions), at, Restarted(old(versions)[at], probe))
    {
      var clone := versions[at];
      var conditions := CloneCondition(
        clone.spec.sourceCluster, clone.spec.destCluster, clone.spec.sourceIP + ":" + clone.spec.sourcePort,
        clone.spec.clusterType, probe.now, "", "", "down", clone.spec.replicas);
      if probe.podCount.None? {
        return;
      }
      if probe.podCount.value > 0 && probe.info != "" {
        var table := Parse(probe.info);
        conditions := conditions.(offSet := Lookup(table, "slave_repl_offset"));
        conditions := conditions.(cloneLag := Lookup(table, "master_last_io_seconds_ago"));
        conditions := conditions.(cloneStatus := Lookup(table, "master_link_status"));
      }
      UpdateStatus(at, clone.(conditions := conditions), api);
    }

    /** Lines 152-235, from the version it has read on. */
    method SyncCloneInfo(at: nat, probe: Probe, api: Api)
      requires at < |versions|
      modifies this
      ensures versions == if probe.podCount.None? || api == Refused then old(versions)
                          else Store(old(versions), at, Refreshed(old(versions)[at], probe))
    {
      var clone := versions[at];
      var conditions := clone.conditions;
      if conditions.startTime == "" {
        conditions := conditions.(sourceCluster := clone.spec.sourceCluster, destCluster := clone.spec.destCluster);
        conditions := conditions.(replicas := clone.spec.replicas, clusterType := clone.spec.clusterType);
        conditions :=
          conditions.(sourceIPPort := clone.spec.sourceIP + ":" + clone.spec.sourcePort, startTime := probe.now);
      }
      if probe.podCount.None? {
        return;
      }
      if probe.podCount.value == 0 || probe.info == "" {
        conditions := conditions.(cloneLag := "-1", cloneStatus := "down");
      } else {
        var table := Parse(probe.info);
        conditions := conditions.(offSet := Lookup(table, "slave_repl_offset"));
        conditions := conditions.(cloneLag := Lookup(table, "master_last_io_seconds_ago"));
        conditions := conditions.(cloneStatus := Lookup(table, "master_link_status"));
      }
      UpdateStatus(at, clone.(conditions := conditions), api);
    }
  }

  // ---------------------------------------------------------------- interleaved runs

  datatype Flight = Flight(handler: Handler, at: nat)

  /** Any number of handlers may be under way, each between its read and its write. */
  datatype World = World(versions: seq<RedisClone>, flights: map<nat, Flight>)

  datatype Event =
    | Read(id: nat, handler: Handler, at: nat)       // of any stored version: the cache may be stale
    | Write(id: nat, probe: Probe, api: Api)
    | Edit(spec: Spec)

  function Step(w: World, e: Event): World
    requires w.versions != []
  {
    match e
    case Read(id, handler, at) =>
      if at < |w.versions| then w.(flights := w.flights[id := Flight(handler, at)]) else w
    case Write(id, probe, api) =>
      if id !in w.flights then w
      else
        var flight := w.flights[id];
        var landed := w.(flights := w.flights - {id});
        if probe.podCount.None? || api == Refused || flight.at >= |w.versions| then landed
        else landed.(versions := Store(w.versions, flight.at, Computed(flight.handler, w.versions[flight.at], probe)))
    case Edit(spec) =>
      w.(versions := Store(w.versions, |w.versions| - 1, w.versions[|w.versions| - 1].(spec := spec)))
  }

  function Exec(w: World, run: seq<Event>): World
    requires w.versions != []
    decreases run
  {
    if run == [] then w else Exec(Step(w, run[0]), run[1..])
  }

  /** In a run, a handler that nothing comes between does what the method of the Controller does, from
      whatever version it has read: a lost answer is no refusal, and a failed listing is no write. */
  lemma UninterruptedHandler(w: World, id: nat, handler: Handler, at: nat, probe: Probe, api: Api)
    requires at < |w.versions|
    ensures Exec(w, [Read(id, handler, at)] + [Write(id, probe, api)])
         == World(if probe.podCount.None? || api == Refused then w.versions
                  else Store(w.versions, at, match handler
                                             case Reconcile => Restarted(w.versions[at], probe)
                                             case CloneInfoSync => Refreshed(w.versions[at], probe)),
                  w.flights - {id})
  {
    var read, write := Read(id, handler, at), Write(id, probe, api);
    assert ([read] + [write])[1..] == [write] && [write][1..] == [];
    var reading := w.(flights := w.flights[id := Flight(handler, at)]);
    assert Step(w, read) == reading && reading.flights - {id} == w.flights - {id};
    assert Exec(w, [read] + [write]) == Exec(reading, [write]) == Exec(Step(reading, write), []);
  }

  /** One whole handler, or one edit, with nothing in between. */
  datatype Op = Handle(handler: Handler, probe: Probe) | Change(spec: Spec)

  function Apply(clone: RedisClone, op: Op): RedisClone
  {
    match op
    case Handle(handler, probe) => Computed(handler, clone, probe)
    case Change(spec) => clone.(spec := spec)
  }

  /** The write goes through: its version is still the latest. */
  predicate Commits(w: World, e: Event)
    requires w.versions != []
  {
    e.Edit? ||
    (e.Write? && e.id in w.flights && w.flights[e.id].at + 1 == |w.versions| && e.api != Refused &&
      e.probe.podCount.Some?)
  }

  function OpOf(w: World, e: Event): Op
    requires w.versions != [] && Commits(w, e)
  {
    if e.Edit? then Change(e.spec) else Handle(w.flights[e.id].handler, e.probe)
  }

  /** The successful handlers and the edits of a run, in the order of their writes. */
  function Committed(w: World, run: seq<Event>): seq<Op>
    requires w.versions != []
    decreases run
  {
    if run == [] then []
    else (if Commits(w, run[0]) then [OpOf(w, run[0])] else []) + Committed(Step(w, run[0]), run[1..])
  }

  /** The versions a serial execution stores. */
  function Serial(versions: seq<RedisClone>, ops: seq<Op>): (after: seq<RedisClone>)
    requires versions != []
    ensures versions <= after
    decreases ops
  {
    if ops == [] then versions
    else
      var last := |versions| - 1;
      Serial(Store(versions, last, Apply(versions[last], ops[0])), ops[1..])
  }

  lemma StepIsSerial(w: World, e: Event)
    requires w.versions != []
    ensures Step(w, e).versions == Serial(w.versions, if Commits(w, e) then [OpOf(w, e)] else [])
  {
    if Commits(w, e) {
      assert [OpOf(w, e)][1..] == [];
    }
  }

  lemma {:induction false} SerialAppend(versions: seq<RedisClone>, first: seq<Op>, second: seq<Op>)
    requires versions != []
    ensures Serial(versions, first + second) == Serial(Serial(versions, first), second)
    decreases first
  {
    if first == [] {
      assert first + second == second;
    } else {
      assert (first + second)[1..] == first[1..] + second;
      var last := |versions| - 1;
      SerialAppend(Store(versions, last, Apply(versions[last], first[0])), first[1..], second);
    }
  }

  /** Serializability: over any interleaving of any number of handlers and edits, with stale reads,
      failing and unacknowledged writes, the versions stored are those of a serial execution of the
      successful handlers and the edits, each run whole, in the order of their writes. So every
      successful handler worked on exactly what the one before it left, and no update is lost. */
  lemma {:induction false} RunsAreSerializable(w: World, run: seq<Event>)
    requires w.versions != []
    ensures Exec(w, run).versions == Serial(w.versions, Committed(w, run))
    decreases run
  {
    if run != [] {
      var ops := if Commits(w, run[0]) then [OpOf(w, run[0])] else [];
      StepIsSerial(w, run[0]);
      RunsAreSerializable(Step(w, run[0]), run[1..]);
      SerialAppend(w.versions, ops, Committed(Step(w, run[0]), run[1..]));
    }
  }

  // ---------------------------------------------------------------- what the snapshot keeps

  function Latest(versions: seq<RedisClone>): RedisClone
    requires versions != []
  {
    versions[|versions| - 1]
  }

  /** The fields that describe the clone rather than its progress. */
  predicate SameSnapshot(a: CloneCondition, b: CloneCondition)
  {
    && a.sourceCluster == b.sourceCluster && a.destCluster == b.destCluster && a.sourceIPPort == b.sourceIPPort
    && a.clusterType == b.clusterType && a.replicas == b.replicas && a.startTime == b.startTime
  }

  /** They are the spec's. */
  predicate Describes(conditions: CloneCondition, spec: Spec)
  {
    && conditions.sourceCluster == spec.sourceCluster && conditions.destCluster == spec.destCluster
    && conditions.sourceIPPort == spec.sourceIP + ":" + spec.sourcePort
    && conditions.clusterType == spec.clusterType && conditions.replicas == spec.replicas
  }

  predicate NoRestart(ops: seq<Op>)
  {
    forall i | 0 <= i < |ops| :: ops[i].Change? || ops[i].handler == CloneInfoSync
  }

  predicate NoEdit(ops: seq<Op>)
  {
    forall i | 0 <= i < |ops| :: ops[i].Handle? && ops[i].probe.now != ""
  }

  /** Once the start time is set, no refresh and no edit changes the snapshot. */
  lemma {:induction false} SnapshotIsStable(versions: seq<RedisClone>, ops: seq<Op>)
    requires versions != [] && NoRestart(ops)
    requires Latest(versions).conditions.startTime != ""
    ensures SameSnapshot(Latest(Serial(versions, ops)).conditions, Latest(versions).conditions)
    decreases ops
  {
    if ops != [] {
      var last := |versions| - 1;
      SnapshotIsStable(Store(versions, last, Apply(versions[last], ops[0])), ops[1..]);
    }
  }

  /** After a successful Reconcile the snapshot is the spec's, until the next edit. */
  lemma {:induction false} ReconcileDescribesUntilEdit(versions: seq<RedisClone>, probe: Probe, ops: seq<Op>)
    requires versions != [] && probe.now != "" && NoEdit(ops)
    ensures var after := Latest(Serial(versions, [Handle(Reconcile, probe)] + ops));
      after.spec == Latest(versions).spec && Describes(after.conditions, after.spec) && after.conditions.startTime != ""
  {
    var all := [Handle(Reconcile, probe)] + ops;
    assert all[1..] == ops;
    var last := |versions| - 1;
    HandlersDescribe(Reconcile, versions[last], probe);
    HandlersKeepDescribing(Store(versions, last, Apply(versions[last], all[0])), ops);
  }

  /** A refresh takes the same fields from the spec if the clone has no start time yet, and the probe's
      time with them; a Reconcile does so in any case. Otherwise they stay as they are. */
  lemma HandlersDescribe(handler: Handler, clone: RedisClone, probe: Probe)
    ensures var after := Computed(handler, clone, probe);
      && after.spec == clone.spec
      && if handler == Reconcile || clone.conditions.startTime == ""
         then Describes(after.conditions, clone.spec) && after.conditions.startTime == probe.now
         else SameSnapshot(after.conditions, clone.conditions)
  {
    match handler
    case Reconcile => assert Restarted(clone, probe).conditions.startTime == probe.now;
    case CloneInfoSync => assert Refreshed(clone, probe).spec == clone.spec;
  }

  lemma {:induction false} HandlersKeepDescribing(versions: seq<RedisClone>, ops: seq<Op>)
    requires versions != [] && NoEdit(ops)
    requires Describes(Latest(versions).conditions, Latest(versions).spec) &&
      Latest(versions).conditions.startTime != ""
    ensures var after := Latest(Serial(versions, ops));
      after.spec == Latest(versions).spec && Describes(after.conditions, after.spec) && after.conditions.startTime != ""
    decreases ops
  {
    if ops != [] {
      var last := |versions| - 1;
      HandlersDescribe(ops[0].handler, versions[last], ops[0].probe);
      HandlersKeepDescribing(Store(versions, last, Apply(versions[last], ops[0])), ops[1..]);
    }
  }

  /** Any interleaving, seen through its successful writes: as long as no Reconcile succeeds, the
      snapshot of a started clone stays what it was. */
  lemma RunsKeepSnapshot(w: World, run: seq<Event>)
    requires w.versions != [] && Latest(w.versions).conditions.startTime != "" && NoRestart(Committed(w, run))
    ensures Exec(w, run).versions != []
    ensures SameSnapshot(Latest(Exec(w, run).versions).conditions, Latest(w.versions).conditions)
  {
    RunsAreSerializable(w, run);
    SnapshotIsStable(w.versions, Committed(w, run));
  }

  /** And in any interleaving: once a Reconcile has succeeded, the fields are those of the latest spec,
      whatever other handlers succeed, until the next edit. */
  lemma RunsDescribeUntilEdit(w: World, run: seq<Event>, before: seq<Op>, probe: Probe, ops: seq<Op>)
    requires w.versions != [] && Committed(w, run) == before + ([Handle(Reconcile, probe)] + ops)
    requires probe.now != "" && NoEdit(ops)
    ensures Exec(w, run).versions != []
    ensures var after := Latest(Exec(w, run).versions);
      Describes(after.conditions, after.spec) && after.conditions.startTime != ""
  {
    RunsAreSerializable(w, run);
    SerialAppend(w.versions, before, [Handle(Reconcile, probe)] + ops);
    ReconcileDescribesUntilEdit(Serial(w.versions, before), probe, ops);
  }

  /** `value` stands in the last line of the text that is an entry of `key`. */
  predicate LastEntry(text: string, key: string, i: nat, value: string)
  {
    var lines := Text.Split(text, '\n');
    i < |lines| && IsEntry(lines[i], key, value) && forall j | i < j < |lines| :: !HasKey(lines[j], key)
  }

  /** No line of the text is an entry of `key`. */
  ghost predicate NoEntry(text: string, key: string)
  {
    forall line, value | line in Text.Split(text, '\n') :: !IsEntry(line, key, value)
  }

  lemma NoEntryIsLookedUp(text: string, key: string)
    ensures NoEntry(text, key) ==> Lookup(Table(Text.Split(text, '\n')), key) == ""
  {
    var lines := Text.Split(text, '\n');
    var last := LookupFindsLastEntry(lines, key);
    if last.Some? {
      assert lines[last.value] in lines;
    }
  }

  /** What a probe that got a text reports, for either handler: the last entry of the field's key, or
      nothing if there is none. */
  lemma ProbeReportsLastEntries(handler: Handler, clone: RedisClone, probe: Probe, i: nat, value: string)
    requires probe.podCount.Some? && probe.podCount.value > 0 && probe.info != ""
    ensures var after := Computed(handler, clone, probe).conditions;
      && (LastEntry(probe.info, "slave_repl_offset", i, value) ==> after.offSet == value)
      && (LastEntry(probe.info, "master_last_io_seconds_ago", i, value) ==> after.cloneLag == value)
      && (LastEntry(probe.info, "master_link_status", i, value) ==> after.cloneStatus == value)
    ensures var after := Computed(handler, clone, probe).conditions;
      && (NoEntry(probe.info, "slave_repl_offset") ==> after.offSet == "")
      && (NoEntry(probe.info, "master_last_io_seconds_ago") ==> after.cloneLag == "")
      && (NoEntry(probe.info, "master_link_status") ==> after.cloneStatus == "")
  {
    NoEntryIsLookedUp(probe.info, "slave_repl_offset");
    NoEntryIsLookedUp(probe.info, "master_last_io_seconds_ago");
    NoEntryIsLookedUp(probe.info, "master_link_status");
    LastEntryIsLookedUp(probe.info, "slave_repl_offset", i, value);
    LastEntryIsLookedUp(probe.info, "master_last_io_seconds_ago", i, value);
    LastEntryIsLookedUp(probe.info, "master_link_status", i, value);
  }

  lemma LastEntryIsLookedUp(text: string, key: string, i: nat, value: string)
    ensures LastEntry(text, key, i, value) ==> Lookup(Table(Text.Split(text, '\n')), key) == value
  {
    if LastEntry(text, key, i, value) {
      var lines := Text.Split(text, '\n');
      var last := LookupFindsLastEntry(lines, key);
      EntryMeansOneColon(lines[i], key, value);
      assert last.Some?;
      EntryMeansOneColon(lines[last.value], key, Lookup(Table(lines), key));
      assert last.value == i;
    }
  }

  /** A failed probe keeps the last offset and says so in the other two fields. */
  lemma FailedProbeKeepsOffset(clone: RedisClone, probe: Probe)
    requires probe.podCount.None? || probe.podCount.value == 0 || probe.info == ""
    ensures Refreshed(clone, probe).conditions.offSet == clone.conditions.offSet
    ensures Refreshed(clone, probe).conditions.cloneLag == "-1" &&
      Refreshed(clone, probe).conditions.cloneStatus == "down"
    ensures Restarted(clone, probe).conditions.offSet == "" && Restarted(clone, probe).conditions.cloneLag == "" &&
      Restarted(clone, probe).conditions.cloneStatus == "down"
  {
  }
}
