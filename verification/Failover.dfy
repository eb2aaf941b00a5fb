/** controllers/redisoperate_controller.go: a failover is asked for by raising a flag in the spec;
    Reconcile attempts it and lowers the flag with a merge patch. */
module Failover {
  import opened ApiServer
  import opened MergePatch

  datatype Spec = Spec(clusterName: string, failoverFlag: int)

  /** The resource; everything but the spec is kept as it is. */
  datatype Redisoperate = Redisoperate(meta: map<string, Json>, spec: Spec)

  /** Fields tagged omitempty are left out when they hold their zero value. */
  function EncodeSpec(spec: Spec): map<string, Json>
  {
    (if spec.clusterName == "" then map[] else map["clusterName" := Text(spec.clusterName)])
    + (if spec.failoverFlag == 0 then map[] else map["failoverFlag" := Number(spec.failoverFlag)])
  }

  /** A field that is missing is read as its zero value. */
  function DecodeSpec(fields: map<string, Json>): Spec
  {
    Spec(if "clusterName" in fields && fields["clusterName"].Text? then fields["clusterName"].text else "",
         if "failoverFlag" in fields && fields["failoverFlag"].Number? then fields["failoverFlag"].number else 0)
  }

  function Encode(resource: Redisoperate): map<string, Json>
  {
    resource.meta["spec" := Object(EncodeSpec(resource.spec))]
  }

  function Decode(fields: map<string, Json>): Redisoperate
  {
    Redisoperate(fields - {"spec"},
      DecodeSpec(if "spec" in fields && fields["spec"].Object? then fields["spec"].fields else map[]))
  }

  /** "spec" is no part of the rest of the resource. */
  predicate WellFormed(resource: Redisoperate)
  {
    "spec" !in resource.meta
  }

  lemma DecodeEncode(resource: Redisoperate)
    requires WellFormed(resource)
    ensures Decode(Encode(resource)) == resource
  {
    assert Encode(resource) - {"spec"} == resource.meta;
  }

  /** The patch between the copy Reconcile has read and the same copy with the flag lowered. */
  function LoweringPatch(seen: Redisoperate): Json
  {
    Object(Diff(Encode(seen), Encode(seen.(spec := seen.spec.(failoverFlag := 0)))))
  }

  /** The server's answer to r.Patch: the stored resource with the patch applied. */
  function Patched(stored: Redisoperate, patch: Json): Redisoperate
  {
    var result := Apply(Object(Encode(stored)), patch);
    if result.Object? then Decode(result.fields) else stored
  }

  lemma LoweringPatchIsNull(seen: Redisoperate)
    requires seen.spec.failoverFlag == 1
    ensures LoweringPatch(seen) == Object(map["spec" := Object(map["failoverFlag" := Null])])
  {
    var lowered := seen.spec.(failoverFlag := 0);
    assert Diff(EncodeSpec(seen.spec), EncodeSpec(lowered)) == map["failoverFlag" := Null];
    var before, after := Encode(seen), Encode(seen.(spec := lowered));
    assert "failoverFlag" in EncodeSpec(seen.spec) && "failoverFlag" !in EncodeSpec(lowered);
    assert forall name :: DiffersAt(before, after, name) <==> name == "spec";
  }

  lemma SpecLosesFlag(spec: Spec)
    ensures Apply(Object(EncodeSpec(spec)), Object(map["failoverFlag" := Null]))
      == Object(EncodeSpec(spec.(failoverFlag := 0)))
  {
    assert EncodeSpec(spec) - {"failoverFlag"} == EncodeSpec(spec.(failoverFlag := 0));
    assert Apply(Object(EncodeSpec(spec)), Object(map["failoverFlag" := Null]))
      == Object(EncodeSpec(spec) - {"failoverFlag"});
  }

  /** A patch of one member that is an object merges that member and keeps the others. */
  lemma ApplyToMember(fields: map<string, Json>, name: string, patch: map<string, Json>)
    requires name in fields
    ensures Apply(Object(fields), Object(map[name := Object(patch)]))
         == Object(fields[name := Apply(fields[name], Object(patch))])
  {
    var result := Apply(Object(fields), Object(map[name := Object(patch)])).fields;
    assert result == fields[name := Apply(fields[name], Object(patch))];
  }

  /** The patch lowers the flag and touches nothing else, whatever was edited since the read:
      the cluster's name and the rest of the resource are those of the stored version. */
  lemma PatchLowersOnlyTheFlag(seen: Redisoperate, stored: Redisoperate)
    requires WellFormed(stored) && seen.spec.failoverFlag == 1
    ensures Patched(stored, LoweringPatch(seen)) == stored.(spec := stored.spec.(failoverFlag := 0))
    ensures WellFormed(Patched(stored, LoweringPatch(seen)))
  {
    LoweringPatchIsNull(seen);
    var lowered := stored.(spec := stored.spec.(failoverFlag := 0));
    ApplyToMember(Encode(stored), "spec", map["failoverFlag" := Null]);
    SpecLosesFlag(stored.spec);
    DecodeEncode(lowered);
    assert Encode(stored)["spec" := Object(EncodeSpec(lowered.spec))] == Encode(lowered);
  }

  // ---------------------------------------------------------------- the handler

  class Controller {
    var stored: Redisoperate
    var attempts: nat

    constructor (stored: Redisoperate)
      ensures this.stored == stored && attempts == 0
    {
      this.stored, this.attempts := stored, 0;
    }

    /** Reconcile (lines 54-103). An empty sentinel list ends the process; the failover's own
        result is logged and otherwise ignored. */
    method Reconcile(sentinels: nat, api: Api) returns (crashed: bool)
      requires WellFormed(stored)
      modifies this
      ensures WellFormed(stored)
      ensures crashed <==> old(stored).spec.failoverFlag == 1 && sentinels == 0
      ensures attempts == old(attempts) + if old(stored).spec.failoverFlag == 1 && sentinels > 0 then 1 else 0
      ensures stored == if old(stored).spec.failoverFlag == 1 && sentinels > 0 && api != Refused
                        then old(stored).(spec := old(stored).spec.(failoverFlag := 0)) else old(stored)
    {
      var instance := stored;
      crashed := false;
      if instance.spec.failoverFlag == 1 {
        if sentinels == 0 {
          return true;
        }
        attempts := attempts + 1;
        var original := instance;
        instance := instance.(spec := instance.spec.(failoverFlag := 0));
        var patch := Object(Diff(Encode(original), Encode(instance)));
        if api != Refused {
          PatchLowersOnlyTheFlag(original, stored);
          stored := Patched(stored, patch);
        }
      }
    }
  }

  // ---------------------------------------------------------------- runs

  datatype Flight = Resting | Attempted(seen: Redisoperate)

  /** The stored versions of the resource and the handler under way. */
  datatype World = World(versions: seq<Redisoperate>, flight: Flight)
  {
    function Stored(): Redisoperate
      requires versions != []
    {
      versions[|versions| - 1]
    }
  }

  datatype Event =
    | Edit(resource: Redisoperate)           // the user, at any time
    | Begin(at: nat, sentinels: nat)         // the read, of any version, and the failover if the flag is raised
    | Finish(api: Api)                       // the patch, which is applied to the latest version
    | Exit

  predicate Valid(w: World)
  {
    && w.versions != [] && (forall i | 0 <= i < |w.versions| :: WellFormed(w.versions[i]))
    && (w.flight.Attempted? ==> w.flight.seen.spec.failoverFlag == 1)
  }

  predicate Raised(w: World)
    requires w.versions != []
  {
    w.Stored().spec.failoverFlag == 1
  }

  /** The handler reads a raised flag and has a sentinel to ask. */
  predicate Attempts(w: World, e: Event)
  {
    e.Begin? && w.flight.Resting? && e.at < |w.versions| && w.versions[e.at].spec.failoverFlag == 1 && e.sentinels > 0
  }

  function Lowered(resource: Redisoperate): Redisoperate
  {
    resource.(spec := resource.spec.(failoverFlag := 0))
  }

  /** A patch that lands gives the latest version with the flag lowered: FinishAppliesPatch. */
  function Step(w: World, e: Event): (after: World)
    requires Valid(w)
    ensures Valid(after)
  {
    match e
    case Edit(resource) =>
      if !WellFormed(resource) then w else w.(versions := Store(w.versions, |w.versions| - 1, resource))
    case Begin(at, _) => if Attempts(w, e) then w.(flight := Attempted(w.versions[at])) else w
    case Finish(api) =>
      if w.flight.Resting? then w
      else if api == Refused then w.(flight := Resting)
      else World(Store(w.versions, |w.versions| - 1, Lowered(w.Stored())), Resting)
    case Exit => w.(flight := Resting)
  }

  /** What the server makes of the patch that the handler has computed from the version it has seen. */
  lemma FinishAppliesPatch(w: World, api: Api)
    requires Valid(w) && w.flight.Attempted? && api != Refused
    ensures Step(w, Finish(api)).Stored() == Patched(w.Stored(), LoweringPatch(w.flight.seen))
  {
    PatchLowersOnlyTheFlag(w.flight.seen, w.Stored());
  }

  function Exec(w: World, run: seq<Event>): (after: World)
    requires Valid(w)
    ensures Valid(after)
    decreases run
  {
    if run == [] then w else Exec(Step(w, run[0]), run[1..])
  }

  // ---------------------------------------------------------------- what happens in a run

  function If(b: bool): nat
  {
    if b then 1 else 0
  }

  /** The user's edits to 1 and away from it; the attempts, and those of them made while the flag was
      down already; and what becomes of the patches: they lower the flag, find it down, or are lost. */
  datatype Tally = Tally(raises: nat, withdrawals: nat, attempts: nat, late: nat, lowered: nat, idle: nat, lost: nat)
  {
    function Plus(other: Tally): Tally
    {
      Tally(raises + other.raises, withdrawals + other.withdrawals, attempts + other.attempts, late + other.late,
            lowered + other.lowered, idle + other.idle, lost + other.lost)
    }
  }

  function One(w: World, e: Event): Tally
    requires Valid(w)
  {
    var edits := e.Edit? && WellFormed(e.resource);
    var ends := w.flight.Attempted?;
    var lands := ends && e.Finish? && e.api != Refused;
    Tally(If(edits && e.resource.spec.failoverFlag == 1 && !Raised(w)),
          If(edits && e.resource.spec.failoverFlag != 1 && Raised(w)),
          If(Attempts(w, e)), If(Attempts(w, e) && !Raised(w)),
          If(lands && Raised(w)), If(lands && !Raised(w)),
          If(ends && ((e.Finish? && e.api == Refused) || e.Exit?)))
  }

  function Count(w: World, run: seq<Event>): Tally
    requires Valid(w)
    decreases run
  {
    if run == [] then Tally(0, 0, 0, 0, 0, 0, 0) else One(w, run[0]).Plus(Count(Step(w, run[0]), run[1..]))
  }

  lemma FirstEvent(w: World, e: Event, rest: seq<Event>)
    requires Valid(w)
    ensures Exec(w, [e] + rest) == Exec(Step(w, e), rest)
    ensures Count(w, [e] + rest) == One(w, e).Plus(Count(Step(w, e), rest))
  {
    assert ([e] + rest)[1..] == rest;
  }

  lemma OneEvent(w: World, e: Event)
    requires Valid(w)
    ensures Exec(w, [e]) == Step(w, e)
    ensures Count(w, [e]) == One(w, e)
  {
    assert [e][1..] == [];
  }

  /** Two events, one after the other. */
  lemma TwoEvents(w: World, first: Event, second: Event)
    requires Valid(w)
    ensures Exec(w, [first] + [second]) == Step(Step(w, first), second)
    ensures Count(w, [first] + [second]) == One(w, first).Plus(One(Step(w, first), second))
  {
    FirstEvent(w, first, [second]);
    OneEvent(Step(w, first), second);
  }

  lemma LastStored(versions: seq<Redisoperate>, next: Redisoperate)
    requires versions != []
    ensures var stored := Store(versions, |versions| - 1, next); stored[|stored| - 1] == next
  {
  }

  /** The first half of a handler that reads the latest version. */
  lemma FreshRead(w: World, begin: Event)
    requires Valid(w) && w.flight.Resting? && begin.Begin? && begin.at + 1 == |w.versions|
    ensures var asked := w.Stored().spec.failoverFlag == 1 && begin.sentinels > 0;
      && One(w, begin).attempts == (if asked then 1 else 0)
      && Step(w, begin) == w.(flight := if asked then Attempted(w.Stored()) else Resting)
  {
  }

  /** The second half of any handler. */
  lemma PatchEnds(w: World, finish: Event)
    requires Valid(w) && finish.Finish?
    ensures One(w, finish).attempts == 0 && Step(w, finish).flight.Resting?
    ensures Step(w, finish).Stored()
         == if w.flight.Attempted? && finish.api != Refused then Lowered(w.Stored()) else w.Stored()
  {
    LastStored(w.versions, Lowered(w.Stored()));
  }

  /** Uninterrupted, such a handler does what Controller.Reconcile does. */
  lemma UninterruptedHandler(w: World, run: seq<Event>)
    requires Valid(w) && w.flight.Resting?
    requires |run| == 2 && run[0].Begin? && run[0].at + 1 == |w.versions| && run[1].Finish?
    ensures var asked := w.Stored().spec.failoverFlag == 1 && run[0].sentinels > 0;
      var after := Exec(w, run);
      && Count(w, run).attempts == (if asked then 1 else 0) && after.flight.Resting?
      && after.Stored().meta == w.Stored().meta
      && after.Stored().spec.clusterName == w.Stored().spec.clusterName
      && after.Stored().spec.failoverFlag
         == if asked && run[1].api != Refused then 0 else w.Stored().spec.failoverFlag
  {
    var first, second := run[0], run[1];
    assert run == [first] + [second];
    TwoEvents(w, first, second);
    FreshRead(w, first);
    PatchEnds(Step(w, first), second);
  }

  function UnderWay(w: World): nat
  {
    If(w.flight.Attempted?)
  }

  /** A handler under way whose patch would find the flag down. */
  function TooLate(w: World): nat
    requires w.versions != []
  {
    If(w.flight.Attempted? && !Raised(w))
  }

  /** Every raise is taken back by the user, lowered by a patch, or still up; every attempt has its
      patch, landed or lost, or is still under way; and a patch finds the flag down at most once for
      each time the user has taken it back and each attempt that was made too late. */
  predicate Balanced(w: World, t: Tally, end: World)
    requires w.versions != [] && end.versions != []
  {
    && If(Raised(w)) + t.raises == t.withdrawals + t.lowered + If(Raised(end))
    && UnderWay(w) + t.attempts == t.lowered + t.idle + t.lost + UnderWay(end)
    && t.idle + TooLate(end) <= TooLate(w) + t.withdrawals + t.late
  }

  lemma StepBalances(w: World, e: Event)
    requires Valid(w)
    ensures Balanced(w, One(w, e), Step(w, e))
  {
  }

  lemma {:induction false} RunsBalance(w: World, run: seq<Event>)
    requires Valid(w)
    ensures Balanced(w, Count(w, run), Exec(w, run))
    decreases run
  {
    if run != [] {
      StepBalances(w, run[0]);
      RunsBalance(Step(w, run[0]), run[1..]);
    }
  }

  /** Exactly one attempt per raise and one more per lost patch: in every run from a lowered flag,
      once no handler is under way, the attempts are the raises that are not up any more plus the
      patches that were lost, if the user takes no raise back and no attempt is made on a stale read
      after the flag has dropped. In general each of these makes a difference of at most one. */
  lemma OneAttemptPerRaise(start: World, run: seq<Event>)
    requires Valid(start) && !Raised(start) && start.flight.Resting?
    ensures var end, t := Exec(start, run), Count(start, run);
      var expected := t.raises - If(Raised(end)) + t.lost;
      end.flight.Resting? ==>
        && (t.withdrawals == 0 && t.late == 0 ==> t.attempts == expected)
        && expected - t.withdrawals <= t.attempts <= expected + t.late
        && t.attempts == expected - t.withdrawals + t.idle
  {
    RunsBalance(start, run);
  }

  /** The user neither raises the flag nor takes it back during the run; anything else may be edited. */
  predicate FlagUntouched(w: World, run: seq<Event>)
    requires Valid(w)
  {
    Count(w, run).raises == 0 && Count(w, run).withdrawals == 0
  }

  /** The same for a single raise, from any point at which the flag is up and no handler is under way:
      as long as the user leaves the flag alone, every attempt but one has lost its patch, the one
      whose patch lands lowers the flag, and only attempts made after that on a stale read come on
      top. */
  lemma OneAttemptUntilDrop(w: World, run: seq<Event>)
    requires Valid(w) && Raised(w) && w.flight.Resting? && FlagUntouched(w, run)
    ensures var end, t := Exec(w, run), Count(w, run);
      end.flight.Resting? ==>
        && t.lost + If(!Raised(end)) <= t.attempts <= t.lost + If(!Raised(end)) + t.late
        && t.attempts == t.lost + If(!Raised(end)) + t.idle
  {
    RunsBalance(w, run);
  }

  /** Every read is of the latest version. */
  predicate ReadsFresh(w: World, run: seq<Event>)
    requires Valid(w)
    decreases run
  {
    run != [] ==> (run[0].Begin? ==> run[0].at + 1 == |w.versions|) && ReadsFresh(Step(w, run[0]), run[1..])
  }

  lemma FreshReadIsNotLate(w: World, e: Event)
    requires Valid(w) && (e.Begin? ==> e.at + 1 == |w.versions|)
    ensures One(w, e).late == 0
  {
  }

  /** With such reads no attempt comes too late. */
  lemma {:induction false} FreshReadsAreNotLate(w: World, run: seq<Event>)
    requires Valid(w) && ReadsFresh(w, run)
    ensures Count(w, run).late == 0
    decreases run
  {
    if run != [] {
      FreshReadIsNotLate(w, run[0]);
      FreshReadsAreNotLate(Step(w, run[0]), run[1..]);
    }
  }

  lemma CountFirst(w: World, e: Event, rest: seq<Event>, next: World)
    requires Valid(w) && next == Step(w, e)
    ensures Count(w, [e] + rest) == One(w, e).Plus(Count(next, rest)) && Exec(w, [e] + rest) == Exec(next, rest)
  {
    assert ([e] + rest)[1..] == rest;
  }

  /** The flag is down at every point of the run. */
  predicate DownThroughout(w: World, run: seq<Event>)
    requires Valid(w)
    decreases run
  {
    !Raised(w) && (run != [] ==> DownThroughout(Step(w, run[0]), run[1..]))
  }

  lemma {:induction false} AttemptsWhileDownAreLate(w: World, run: seq<Event>)
    requires Valid(w) && DownThroughout(w, run)
    ensures Count(w, run).attempts == Count(w, run).late
    decreases run
  {
    if run != [] {
      AttemptsWhileDownAreLate(Step(w, run[0]), run[1..]);
    }
  }

  lemma {:induction false} StaysDown(w: World, run: seq<Event>)
    requires Valid(w) && !Raised(w) && Count(w, run).raises == 0
    ensures DownThroughout(w, run)
    decreases run
  {
    if run != [] {
      StepBalances(w, run[0]);
      StaysDown(Step(w, run[0]), run[1..]);
    }
  }

  /** While the flag is down and nobody raises it, no attempt is made but on a stale read. */
  lemma NoAttemptWithoutFlag(w: World, run: seq<Event>)
    requires Valid(w) && !Raised(w) && Count(w, run).raises == 0
    ensures Count(w, run).attempts == Count(w, run).late && !Raised(Exec(w, run))
    ensures ReadsFresh(w, run) ==> Count(w, run).attempts == 0
  {
    StaysDown(w, run);
    AttemptsWhileDownAreLate(w, run);
    RunsBalance(w, run);
    if ReadsFresh(w, run) {
      FreshReadsAreNotLate(w, run);
    }
  }

  lemma LateBegin(w: World, e: Event)
    requires Valid(w) && !Raised(w) && Attempts(w, e)
    ensures One(w, e) == Tally(0, 0, 1, 1, 0, 0, 0)
  {
  }

  lemma Lands(w: World)
    requires Valid(w) && Raised(w) && w.flight.Attempted?
    ensures One(w, Finish(Accepted)) == Tally(0, 0, 0, 0, 1, 0, 0)
    ensures var after := Step(w, Finish(Accepted));
      !Raised(after) && after.flight.Resting? && w.versions <= after.versions
  {
  }

  lemma CountLast(w: World, e: Event)
    requires Valid(w)
    ensures Count(w, [e] + []) == One(w, e)
  {
    CountFirst(w, e, [], Step(w, e));
  }

  lemma CountPlus(w: World, e: Event, rest: seq<Event>, a: Tally, b: Tally)
    requires Valid(w) && One(w, e) == a && Count(Step(w, e), rest) == b
    ensures Count(w, [e] + rest) == a.Plus(b)
  {
    CountFirst(w, e, rest, Step(w, e));
  }

  lemma LandsThenLate(w: World, begin: Event)
    requires Valid(w) && Raised(w) && w.flight.Attempted? && begin.Begin? && begin.sentinels > 0
    requires begin.at < |w.versions| && w.versions[begin.at].spec.failoverFlag == 1
    ensures Count(w, [Finish(Accepted)] + ([begin] + [])) == Tally(0, 0, 1, 1, 1, 0, 0)
  {
    Lands(w);
    LateBegin(Step(w, Finish(Accepted)), begin);
    CountLast(Step(w, Finish(Accepted)), begin);
    CountPlus(w, Finish(Accepted), [begin] + [], Tally(0, 0, 0, 0, 1, 0, 0), Tally(0, 0, 1, 1, 0, 0, 0));
  }

  lemma Begins(w: World, e: Event)
    requires Valid(w) && Raised(w) && Attempts(w, e)
    ensures One(w, e) == Tally(0, 0, 1, 0, 0, 0, 0) && Step(w, e) == World(w.versions, Attempted(w.versions[e.at]))
  {
  }

  /** The stale read is real: from any raised flag, an attempt whose patch lands, and one more attempt
      on the version that the cache still holds. */
  lemma StaleReadAttemptsAgain(w: World, begin: Event)
    requires Valid(w) && Raised(w) && Attempts(w, begin)
    ensures Count(w, [begin] + ([Finish(Accepted)] + ([begin] + []))) == Tally(0, 0, 2, 1, 1, 0, 0)
  {
    Begins(w, begin);
    LandsThenLate(Step(w, begin), begin);
    CountPlus(w, begin, [Finish(Accepted)] + ([begin] + []), Tally(0, 0, 1, 0, 0, 0, 0), Tally(0, 0, 1, 1, 1, 0, 0));
  }
}
