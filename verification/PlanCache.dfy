/** The coordinator's worker registry and the session's cached route plan, stamped with the
    registry's generation (dist_coordinator_add_worker, dist_coordinator_remove_worker,
    dist_coordinator_forget_route_workers, dist_session_ensure_route,
    dist_coordinator_rebuild_from_transcript and the session calls in ds4_distributed.c). */
module PlanCache {
  import opened Wrappers
  import opened Bytes
  import opened RouteSearch
  import opened RouteBlob
  import opened RoutePlan

  // ------------------------------------------------------------------------------
  // The registry
  // ------------------------------------------------------------------------------

  /** A registration that a new one for the same slice of the same host replaces. */
  predicate IsStale(known: WorkerEntry, e: WorkerEntry) {
    && known.host == e.host && known.modelId == e.modelId
    && known.first == e.first && known.last == e.last && known.hasOutput == e.hasOutput
  }

  function Current(registry: seq<WorkerEntry>, e: WorkerEntry): seq<WorkerEntry> {
    if registry == [] then []
    else if IsStale(registry[0], e) then Current(registry[1..], e)
    else [registry[0]] + Current(registry[1..], e)
  }

  /** Exactly the replaced registrations are gone. */
  lemma {:induction false} CurrentKeeps(registry: seq<WorkerEntry>, e: WorkerEntry)
    ensures forall w :: w in Current(registry, e) <==> w in registry && !IsStale(w, e)
  {
    hide IsStale;
    if registry != [] {
      CurrentKeeps(registry[1..], e);
      assert forall w :: w in registry <==> w == registry[0] || w in registry[1..];
    }
  }

  /** One turn of the loop that drops stale registrations: what is decided plus what is still
      to be looked at stays the same. */
  lemma CurrentStep(registry: seq<WorkerEntry>, i: nat, e: WorkerEntry)
    requires i < |registry|
    ensures var dropped := registry[..i] + registry[i + 1..];
            registry[..i] + Current(registry[i..], e) ==
            if IsStale(registry[i], e) then dropped[..i] + Current(dropped[i..], e)
            else registry[..i + 1] + Current(registry[i + 1..], e)
  {
    hide IsStale;
    var dropped := registry[..i] + registry[i + 1..];
    assert registry[i..][1..] == registry[i + 1..] && registry[..i + 1] == registry[..i] + [registry[i]];
    assert dropped[..i] == registry[..i] && dropped[i..] == registry[i + 1..];
  }

  predicate MatchesEntry(r: Entry, w: WorkerEntry) {
    && r.port == w.port && r.host == w.host
    && r.first == w.first && r.last == w.last
    && (r.flags == OUTPUT_LOGITS) == w.hasOutput
  }

  /** Where the first match is, or the length when there is none. */
  function FirstConn(registry: seq<WorkerEntry>, conn: nat): (i: nat)
    ensures i <= |registry| && (forall j | 0 <= j < i :: registry[j].conn != conn)
    ensures i < |registry| ==> registry[i].conn == conn
  {
    if registry == [] || registry[0].conn == conn then 0 else 1 + FirstConn(registry[1..], conn)
  }

  function FirstMatch(registry: seq<WorkerEntry>, r: Entry): (i: nat)
    ensures i <= |registry| && (forall j | 0 <= j < i :: !MatchesEntry(r, registry[j]))
    ensures i < |registry| ==> MatchesEntry(r, registry[i])
  {
    if registry == [] || MatchesEntry(r, registry[0]) then 0 else 1 + FirstMatch(registry[1..], r)
  }

  function Without(registry: seq<WorkerEntry>, i: nat): (r: seq<WorkerEntry>)
    ensures forall w | w in r :: w in registry
    ensures |r| == if i < |registry| then |registry| - 1 else |registry|
  {
    if i < |registry| then registry[..i] + registry[i + 1..] else registry
  }

  /** The registry once one worker has been struck out for each entry of a failed route. */
  function Forgotten(registry: seq<WorkerEntry>, es: seq<Entry>): (r: seq<WorkerEntry>)
    ensures (forall w | w in r :: w in registry) && |r| <= |registry|
    decreases es
  {
    if es == [] then registry else Forgotten(Without(registry, FirstMatch(registry, es[0])), es[1..])
  }

  lemma {:induction false} ForgottenSplit(registry: seq<WorkerEntry>, es: seq<Entry>, i: nat)
    requires i < |es|
    ensures var before := Forgotten(registry, es[..i]);
            Forgotten(registry, es[..i + 1]) == Without(before, FirstMatch(before, es[i]))
    decreases es
  {
    hide Without, FirstMatch;
    if i == 0 {
      assert es[..1][1..] == [];
    } else {
      ForgottenSplit(Without(registry, FirstMatch(registry, es[0])), es[1..], i - 1);
      assert es[1..][..i - 1] == es[..i][1..] && es[1..][..i] == es[..i + 1][1..];
    }
  }

  // ------------------------------------------------------------------------------
  // Which workers go, field by field
  // ------------------------------------------------------------------------------

  /** How many workers take connections at this host and port for these layers and this output. */
  ghost function WorkersAt(registry: seq<WorkerEntry>, host: Host, port: U32, first: U32, last: U32, output: bool): nat {
    if registry == [] then 0
    else
      var w := registry[0];
      (if w.host == host && w.port == port && w.first == first && w.last == last && w.hasOutput == output then 1 else 0) +
      WorkersAt(registry[1..], host, port, first, last, output)
  }

  /** How many route entries name such a worker. */
  ghost function EntriesAt(es: seq<Entry>, host: Host, port: U32, first: U32, last: U32, output: bool): nat {
    if es == [] then 0
    else
      var r := es[0];
      (if r.host == host && r.port == port && r.first == first && r.last == last && (r.flags == OUTPUT_LOGITS) == output then 1 else 0) +
      EntriesAt(es[1..], host, port, first, last, output)
  }

  lemma {:induction false} WorkersAtAppend(a: seq<WorkerEntry>, b: seq<WorkerEntry>, host: Host, port: U32, first: U32, last: U32, output: bool)
    ensures WorkersAt(a + b, host, port, first, last, output) ==
            WorkersAt(a, host, port, first, last, output) + WorkersAt(b, host, port, first, last, output)
  {
    if a == [] {
      assert a + b == b;
    } else {
      assert (a + b)[1..] == a[1..] + b;
      WorkersAtAppend(a[1..], b, host, port, first, last, output);
    }
  }

  lemma {:induction false} NoneAt(registry: seq<WorkerEntry>, host: Host, port: U32, first: U32, last: U32, output: bool)
    requires forall i | 0 <= i < |registry| ::
               !(registry[i].host == host && registry[i].port == port && registry[i].first == first &&
                 registry[i].last == last && registry[i].hasOutput == output)
    ensures WorkersAt(registry, host, port, first, last, output) == 0
  {
    if registry != [] {
      assert forall i | 0 <= i < |registry[1..]| :: registry[1..][i] == registry[i + 1];
      NoneAt(registry[1..], host, port, first, last, output);
    }
  }

  /** Striking out for one entry: one worker goes where the entry points, if there is one, and
      none anywhere else. */
  lemma StrikingCounts(registry: seq<WorkerEntry>, r: Entry, host: Host, port: U32, first: U32, last: U32, output: bool)
    ensures var n := WorkersAt(registry, host, port, first, last, output);
            WorkersAt(Without(registry, FirstMatch(registry, r)), host, port, first, last, output) ==
            if r.host == host && r.port == port && r.first == first && r.last == last && (r.flags == OUTPUT_LOGITS) == output && 0 < n
            then n - 1 else n
  {
    var i := FirstMatch(registry, r);
    if i < |registry| {
      assert registry == registry[..i] + ([registry[i]] + registry[i + 1..]);
      WorkersAtAppend(registry[..i], [registry[i]] + registry[i + 1..], host, port, first, last, output);
      WorkersAtAppend(registry[..i], registry[i + 1..], host, port, first, last, output);
      assert ([registry[i]] + registry[i + 1..])[1..] == registry[i + 1..];
    } else if r.host == host && r.port == port && r.first == first && r.last == last && (r.flags == OUTPUT_LOGITS) == output {
      NoneAt(registry, host, port, first, last, output);
    }
  }

  /** Forgetting a route: wherever its entries point, as many workers go as entries point there,
      as far as there are any; everywhere else all stay. */
  lemma {:induction false} ForgettingCounts(registry: seq<WorkerEntry>, es: seq<Entry>, host: Host, port: U32, first: U32, last: U32, output: bool)
    ensures var workers, named := WorkersAt(registry, host, port, first, last, output), EntriesAt(es, host, port, first, last, output);
            WorkersAt(Forgotten(registry, es), host, port, first, last, output) == if named <= workers then workers - named else 0
    decreases es
  {
    hide Without, FirstMatch, WorkersAt;
    if es != [] {
      StrikingCounts(registry, es[0], host, port, first, last, output);
      ForgettingCounts(Without(registry, FirstMatch(registry, es[0])), es[1..], host, port, first, last, output);
    }
  }

  /** A worker that no entry names stays registered. */
  lemma {:induction false} UnnamedStays(registry: seq<WorkerEntry>, es: seq<Entry>, w: WorkerEntry)
    requires w in registry
    requires forall r | r in es ::
               r.host != w.host || r.port != w.port || r.first != w.first || r.last != w.last || (r.flags == OUTPUT_LOGITS) != w.hasOutput
    ensures w in Forgotten(registry, es)
    decreases es
  {
    if es != [] {
      assert es[0] in es && forall r | r in es[1..] :: r in es;
      var i := FirstMatch(registry, es[0]);
      var k :| 0 <= k < |registry| && registry[k] == w;
      if i < |registry| {
        assert i != k;
        assert Without(registry, i)[if k < i then k else k - 1] == w;
      }
      UnnamedStays(Without(registry, i), es[1..], w);
    }
  }

  /** After a registration no other worker stands for the same slice of the same host, and
      nothing else was dropped. */
  lemma NoSecondRegistration(registry: seq<WorkerEntry>, e: WorkerEntry, w: WorkerEntry)
    ensures w in Current(registry, e) <==>
      w in registry && (w.host != e.host || w.modelId != e.modelId || w.first != e.first || w.last != e.last || w.hasOutput != e.hasOutput)
  {
    CurrentKeeps(registry, e);
  }

  class Coordinator {
    const setup: Setup
    var registry: seq<WorkerEntry>
    var generation: nat
    var shuttingDown: bool

    ghost predicate Valid()
      reads this
    {
      Registered(setup, registry)
    }

    constructor (setup: Setup)
      requires Registered(setup, [])
      ensures Valid() && this.setup == setup && registry == [] && generation == 0 && !shuttingDown
    {
      this.setup := setup;
      registry := [];
      generation := 0;
      shuttingDown := false;
    }

    method AddWorker(e: WorkerEntry)
      requires Valid() && EntryOk(setup, e)
      modifies this`registry, this`generation
      ensures Valid()
      ensures if shuttingDown then registry == old(registry) && generation == old(generation)
              else registry == [e] + Current(old(registry), e) && generation == old(generation) + 1
    {
      if shuttingDown {
        return;
      }
      hide IsStale, EntryOk;
      assert registry[..0] + Current(registry[0..], e) == Current(registry, e) by {
        assert registry[0..] == registry;
      }
      var i := 0;
      while i < |registry|
        modifies this`registry
        invariant 0 <= i <= |registry|
        invariant registry[..i] + Current(registry[i..], e) == Current(old(registry), e)
        decreases |registry| - i
      {
        CurrentStep(registry, i, e);
        if IsStale(registry[i], e) {
          registry := registry[..i] + registry[i + 1..];
        } else {
          i := i + 1;
        }
      }
      assert registry[..i] == registry && registry[i..] == [];
      CurrentKeeps(old(registry), e);
      registry := [e] + registry;
      generation := generation + 1;
    }

    method RemoveWorker(conn: nat)
      requires Valid()
      modifies this`registry, this`generation
      ensures Valid()
      ensures var i := FirstConn(old(registry), conn);
              && registry == Without(old(registry), i)
              && generation == old(generation) + (if i < |old(registry)| then 1 else 0)
    {
      var i := 0;
      while i < |registry|
        invariant 0 <= i <= |registry| && forall j | 0 <= j < i :: registry[j].conn != conn
        invariant registry == old(registry) && generation == old(generation)
      {
        if registry[i].conn == conn {
          assert i == FirstConn(registry, conn);
          registry := registry[..i] + registry[i + 1..];
          generation := generation + 1;
          return;
        }
        i := i + 1;
      }
    }

    /** The walk along the registry to the first worker of a route entry. */
    method LinkTo(r: Entry) returns (i: nat)
      ensures i == FirstMatch(registry, r)
    {
      i := 0;
      while i < |registry| && !MatchesEntry(r, registry[i])
        invariant 0 <= i <= |registry| && forall j | 0 <= j < i :: !MatchesEntry(r, registry[j])
      {
        i := i + 1;
      }
    }

    method ForgetRouteWorkers(plan: Plan)
      requires Valid()
      modifies this`registry, this`generation
      ensures Valid() && registry == Forgotten(old(registry), plan.entries)
      ensures generation == old(generation) + (if |registry| < |old(registry)| then 1 else 0)
    {
      assert plan.entries[..0] == [] && Forgotten(registry, plan.entries[..0]) == registry;
      hide Forgotten, FirstMatch, MatchesEntry, EntryOk;
      var removedAny := false;
      for k := 0 to |plan.entries|
        invariant Valid() && registry == Forgotten(old(registry), plan.entries[..k])
        invariant generation == old(generation) && (removedAny <==> |registry| < |old(registry)|)
      {
        ForgottenSplit(old(registry), plan.entries, k);
        var i := LinkTo(plan.entries[k]);
        if i < |registry| {
          registry := registry[..i] + registry[i + 1..];
          removedAny := true;
        }
      }
      assert plan.entries[..|plan.entries|] == plan.entries;
      if removedAny {
        generation := generation + 1;
      }
    }

    /** The plan together with the generation it was made under, in one critical section. */
    method BuildRoutePlan(sorted: seq<WorkerEntry>, blank: WorkerEntry) returns (r: PlanResult, g: nat)
      requires Valid() && multiset(sorted) == multiset(registry) && Sorted(sorted)
      ensures BuildOk(setup, registry, r) && g == if r.Planned? then generation else 0
    {
      g := 0;
      r := BuildPlan(setup, registry, sorted, blank);
      if r.Planned? {
        g := generation;
      }
    }
  }

  // ------------------------------------------------------------------------------
  // Session calls, one step per critical section
  // ------------------------------------------------------------------------------

  /** Where the thread inside a session call is. */
  datatype Phase = Returned | Checking | Building | Evaluating | Rebuilding | Replaying

  datatype State = State(
    registry: seq<WorkerEntry>,
    generation: nat,
    shuttingDown: bool,
    plan: Plan,
    planReady: bool,
    planGeneration: nat,
    phase: Phase)

  /** How an evaluation ends: it may also be given up before any work is sent. */
  datatype Outcome = Finished | GivenUp | RemoteError | RouteFailure

  datatype Step =
    | Register(entry: WorkerEntry)
    | Unregister(conn: nat)
    | ShutDown
    | Call
    | Check
    | Build(built: PlanResult)
    | Evaluate(outcome: Outcome)
    | Rebuild(rebuilt: PlanResult)
    | Replay(ok: bool)

  const NO_PLAN := Plan([], [], [])

  ghost predicate Enabled(setup: Setup, s: State, step: Step)
    requires Registered(setup, s.registry)
  {
    match step
    case Register(e) => EntryOk(setup, e)
    case Unregister(_) => true
    case ShutDown => true
    case Call => s.phase == Returned
    case Check => s.phase == Checking
    case Build(r) => s.phase == Building && BuildOk(setup, s.registry, r)
    case Evaluate(_) => s.phase == Evaluating
    case Rebuild(r) => s.phase == Rebuilding && BuildOk(setup, s.registry, r)
    case Replay(_) => s.phase == Replaying
  }

  function Apply(s: State, step: Step): State {
    match step
    case Register(e) =>
      if s.shuttingDown then s
      else s.(registry := [e] + Current(s.registry, e), generation := s.generation + 1)
    case Unregister(conn) =>
      var i := FirstConn(s.registry, conn);
      if i < |s.registry| then s.(registry := Without(s.registry, i), generation := s.generation + 1) else s
    case ShutDown => s.(shuttingDown := true)
    case Call => s.(phase := Checking)
    case Check =>
      if s.planReady && s.planGeneration == s.generation then s.(phase := Evaluating)
      else s.(plan := NO_PLAN, phase := Building)
    case Build(Planned(plan)) =>
      s.(plan := plan, planReady := true, planGeneration := s.generation, phase := Evaluating)
    case Build(Failed(_)) => Dropped(s.(plan := NO_PLAN))
    case Evaluate(Finished) => s.(phase := Returned)
    case Evaluate(GivenUp) => s.(phase := Returned)
    case Evaluate(RemoteError) => s.(phase := if s.plan.entries == [] then Rebuilding else Replaying)
    case Evaluate(RouteFailure) => AfterForgetting(s).(plan := NO_PLAN, phase := Rebuilding)
    case Rebuild(Planned(plan)) => s.(plan := plan, planGeneration := s.generation, phase := Replaying)
    case Rebuild(Failed(_)) => Dropped(s.(plan := NO_PLAN))
    case Replay(ok) => if ok then s.(planReady := true, phase := Returned) else Dropped(s)
  }

  function Dropped(s: State): State {
    s.(planReady := false, planGeneration := 0, phase := Returned)
  }

  function AfterForgetting(s: State): State {
    var left := Forgotten(s.registry, s.plan.entries);
    s.(registry := left, generation := s.generation + if |left| < |s.registry| then 1 else 0)
  }

  // ------------------------------------------------------------------------------
  // The cached plan is never stale
  // ------------------------------------------------------------------------------

  /** A plan marked ready under the present generation is a valid complete route of workers
      registered now. */
  ghost predicate NeverStale(setup: Setup, s: State)
    requires Registered(setup, s.registry)
  {
    s.planReady && s.planGeneration == s.generation ==> PlanOk(setup, s.registry, s.plan)
  }

  ghost predicate Inv(setup: Setup, s: State) {
    && Registered(setup, s.registry)
    && s.planGeneration <= s.generation
    && (s.phase == Evaluating || s.phase == Rebuilding || s.phase == Replaying ==> s.planReady)
    && NeverStale(setup, s)
  }

  ghost predicate Init(setup: Setup, s: State) {
    && Registered(setup, []) && s.registry == [] && s.generation == 0
    && s.plan == NO_PLAN && !s.planReady && s.planGeneration == 0 && s.phase == Returned
  }

  /** A current plan with workers always loses at least one of them when it is forgotten. */
  lemma CurrentPlanIsForgotten(setup: Setup, registry: seq<WorkerEntry>, plan: Plan)
    requires Registered(setup, registry) && PlanOk(setup, registry, plan) && plan.entries != []
    ensures |Forgotten(registry, plan.entries)| < |registry|
  {
    var w := plan.workers[0];
    assert w in registry && MatchesEntry(plan.entries[0], w);
    var i :| 0 <= i < |registry| && registry[i] == w;
    assert FirstMatch(registry, plan.entries[0]) <= i;
  }

  lemma StepKeepsInv(setup: Setup, s: State, step: Step)
    requires Inv(setup, s) && Enabled(setup, s, step)
    ensures Inv(setup, Apply(s, step))
  {
    hide PlanOk, ErrorOk;
    match step
    case Evaluate(RouteFailure) =>
      if s.planGeneration == s.generation && s.plan.entries != [] {
        CurrentPlanIsForgotten(setup, s.registry, s.plan);
      } else if s.planGeneration == s.generation {
        EmptyPlan(setup, s.registry, s.plan);
      }
    case Register(e) => CurrentKeeps(s.registry, e);
    case Unregister(_) =>
    case ShutDown =>
    case Call =>
    case Check =>
    case Build(_) =>
    case Evaluate(Finished) =>
    case Evaluate(GivenUp) =>
    case Evaluate(RemoteError) =>
    case Rebuild(_) =>
    case Replay(_) =>
  }

  lemma EmptyPlan(setup: Setup, registry: seq<WorkerEntry>, plan: Plan)
    requires Registered(setup, registry) && PlanOk(setup, registry, plan) && plan.entries == []
    ensures plan == NO_PLAN
  {
  }

  /** States reached by letting the steps happen one after another. */
  ghost predicate IsRun(setup: Setup, states: seq<State>, steps: seq<Step>) {
    && |states| == |steps| + 1
    && Init(setup, states[0])
    && forall i | 0 <= i < |steps| ::
         && Registered(setup, states[i].registry)
         && Enabled(setup, states[i], steps[i])
         && states[i + 1] == Apply(states[i], steps[i])
  }

  lemma {:induction false} RunKeepsInv(setup: Setup, states: seq<State>, steps: seq<Step>, i: nat)
    requires IsRun(setup, states, steps) && i <= |steps|
    ensures Inv(setup, states[i])
    decreases i
  {
    hide Apply, Enabled, NeverStale;
    if i == 0 {
      assert Inv(setup, states[0]) by { InitInv(setup, states[0]); }
    } else {
      RunKeepsInv(setup, states, steps, i - 1);
      StepKeepsInv(setup, states[i - 1], steps[i - 1]);
    }
  }

  lemma InitInv(setup: Setup, s: State)
    requires Init(setup, s)
    ensures Inv(setup, s)
  {
  }

  /** In any interleaving of session calls with registrations and removals: whenever work is
      sent out straight after the generation check, and whenever a call has returned with the
      plan still marked as current, that plan is a valid complete route of registered workers. */
  lemma PlanIsNeverStale(setup: Setup, states: seq<State>, steps: seq<Step>, i: nat)
    requires IsRun(setup, states, steps) && i <= |steps|
    ensures Registered(setup, states[i].registry) && NeverStale(setup, states[i])
    ensures i < |steps| && steps[i] == Check && states[i + 1].phase == Evaluating ==>
              PlanOk(setup, states[i].registry, states[i].plan)
  {
    hide PlanOk;
    RunKeepsInv(setup, states, steps, i);
    if i < |steps| {
      assert states[i + 1] == Apply(states[i], steps[i]);
    }
  }

  /** No change of the registry goes unnoticed: it always comes with a new generation. */
  lemma EveryChangeCounts(s: State, step: Step)
    ensures Apply(s, step).generation >= s.generation
    ensures Apply(s, step).registry != s.registry ==> Apply(s, step).generation > s.generation
  {
    match step
    case Evaluate(RouteFailure) => ForgottenIsShorter(s.registry, s.plan.entries);
    case _ =>
  }

  lemma {:induction false} ForgottenIsShorter(registry: seq<WorkerEntry>, es: seq<Entry>)
    ensures Forgotten(registry, es) == registry || |Forgotten(registry, es)| < |registry|
    decreases es
  {
    if es != [] {
      ForgottenIsShorter(Without(registry, FirstMatch(registry, es[0])), es[1..]);
    }
  }

  // ------------------------------------------------------------------------------
  // The cached plan is used
  // ------------------------------------------------------------------------------

  /** Calls that go well, one after another, while no worker comes or goes. */
  predicate IsQuiet(steps: seq<Step>) {
    forall step | step in steps :: step in {Call, Check, Evaluate(Finished), Evaluate(GivenUp)}
  }

  function AfterAll(s: State, steps: seq<Step>): State
    decreases steps
  {
    if steps == [] then s else AfterAll(Apply(s, steps[0]), steps[1..])
  }

  /** As long as all is quiet, a current plan is kept and never built again. */
  lemma {:induction false} PlanIsReused(s: State, steps: seq<Step>)
    requires s.planReady && s.planGeneration == s.generation && s.phase in {Returned, Checking, Evaluating} && IsQuiet(steps)
    ensures AfterAll(s, steps) == s.(phase := AfterAll(s, steps).phase)
    ensures AfterAll(s, steps).phase in {Returned, Checking, Evaluating}
    decreases steps
  {
    if steps != [] {
      assert steps[0] in steps && forall step | step in steps[1..] :: step in steps;
      PlanIsReused(Apply(s, steps[0]), steps[1..]);
    }
  }

  /** A route that failed is replaced within the same call: its workers are forgotten, and the new
      plan is current for the next call, which evaluates with it at once. */
  lemma FailedRouteIsReplaced(s: State, plan: Plan)
    requires s.phase == Evaluating
    ensures var t := AfterAll(s, [Evaluate(RouteFailure), Rebuild(Planned(plan)), Replay(true), Call, Check]);
            t.plan == plan && t.phase == Evaluating && t.registry == Forgotten(s.registry, s.plan.entries)
  {
    hide Forgotten;
    var s1 := Apply(s, Evaluate(RouteFailure));
    var s2 := Apply(s1, Rebuild(Planned(plan)));
    var s3 := Apply(s2, Replay(true));
    var s4 := Apply(s3, Call);
    Unrolled(s, Evaluate(RouteFailure), [Rebuild(Planned(plan)), Replay(true), Call, Check]);
    Unrolled(s1, Rebuild(Planned(plan)), [Replay(true), Call, Check]);
    Unrolled(s2, Replay(true), [Call, Check]);
    Unrolled(s3, Call, [Check]);
    Unrolled(s4, Check, []);
  }

  lemma Unrolled(s: State, step: Step, more: seq<Step>)
    ensures AfterAll(s, [step] + more) == AfterAll(Apply(s, step), more)
  {
    assert ([step] + more)[1..] == more;
  }
}
