/** Building the coordinator's route plan from the workers registered with it
    (dist_worker_route_cmp, dist_route_plan_append_blob and dist_coordinator_build_route_plan
    in ds4_distributed.c). */
module RoutePlan {
  import opened Wrappers
  import opened Bytes
  import opened RouteSearch
  import opened RouteBlob

  /** A plan: the chain of workers, what the WORK frames say about it, and those bytes. */
  datatype Plan = Plan(workers: seq<WorkerEntry>, entries: seq<Entry>, blob: seq<Byte>)

  datatype PlanError = NotAtLayerZero | Incomplete(missing: nat) | InvalidHost | TooLarge

  datatype PlanResult = Planned(plan: Plan) | Failed(error: PlanError)

  // ------------------------------------------------------------------------------
  // What a plan must be
  // ------------------------------------------------------------------------------

  /** The order the workers are tried in: earlier layers first, then workers that produce
      logits, then the longer slices. */
  ghost predicate InOrder(a: WorkerEntry, b: WorkerEntry) {
    || a.first < b.first
    || (a.first == b.first && a.hasOutput && !b.hasOutput)
    || (a.first == b.first && a.hasOutput == b.hasOutput && b.last <= a.last)
  }

  ghost predicate Sorted(workers: seq<WorkerEntry>) {
    forall i, j | 0 <= i < j < |workers| :: InOrder(workers[i], workers[j])
  }

  ghost predicate Registered(setup: Setup, registry: seq<WorkerEntry>) {
    && 0 < setup.nLayers && setup.localLast < setup.nLayers
    && forall w | w in registry :: EntryOk(setup, w)
  }

  /** The coordinator's own slice already ends in logits. */
  predicate LocalOnly(setup: Setup)
    requires 0 < setup.nLayers
  {
    setup.localLast == setup.Top() && (setup.localHasOutput || setup.canOutputHead)
  }

  function EntryFor(w: WorkerEntry): Entry {
    Entry(w.host, w.port, w.first, w.last, if w.hasOutput then OUTPUT_LOGITS else 0)
  }

  function EntriesFor(chain: seq<WorkerEntry>): (r: seq<Entry>)
    ensures |r| == |chain| && forall i | 0 <= i < |chain| :: r[i] == EntryFor(chain[i])
  {
    seq(|chain|, i requires 0 <= i < |chain| => EntryFor(chain[i]))
  }

  /** Whether a whole route can be made of the registered workers. */
  ghost predicate RouteExists(setup: Setup, registry: seq<WorkerEntry>, next: nat)
    requires 0 < setup.nLayers
  {
    exists chain :: IsCompleteRoute(setup, registry, chain, next)
  }

  ghost predicate PlanOk(setup: Setup, registry: seq<WorkerEntry>, plan: Plan)
    requires Registered(setup, registry)
  {
    && setup.localFirst == 0
    && plan.entries == EntriesFor(plan.workers)
    && (if LocalOnly(setup) then plan.workers == []
        else IsCompleteRoute(setup, registry, plan.workers, setup.localLast + 1))
    && HostsOk(plan.entries)
    && plan.blob == Encode(plan.entries)
    && |plan.blob| <= BLOB_LIMIT
  }

  /** When each error is reported. */
  ghost predicate ErrorOk(setup: Setup, registry: seq<WorkerEntry>, error: PlanError)
    requires Registered(setup, registry)
  {
    var next, top := setup.localLast + 1, setup.Top();
    if setup.localFirst != 0 then error == NotAtLayerZero
    else
      && !LocalOnly(setup)
      && match error
         case NotAtLayerZero => false
         case Incomplete(missing) => !RouteExists(setup, registry, next) && IsFrontier(setup, registry, next, top, missing)
         case InvalidHost =>
           exists chain :: IsCompleteRoute(setup, registry, chain, next) && !HostsOk(EntriesFor(chain))
         case TooLarge =>
           exists chain :: IsCompleteRoute(setup, registry, chain, next) && AllFit(EntriesFor(chain)) &&
                           BLOB_LIMIT < |Encode(EntriesFor(chain))|
  }

  /** What building a plan may give: a plan that is in order, or an error that applies. */
  ghost predicate BuildOk(setup: Setup, registry: seq<WorkerEntry>, r: PlanResult)
    requires Registered(setup, registry)
  {
    if r.Planned? then PlanOk(setup, registry, r.plan) else ErrorOk(setup, registry, r.error)
  }

  // ------------------------------------------------------------------------------
  // Sorting does not change what can be built
  // ------------------------------------------------------------------------------

  ghost predicate SameWorkers(a: seq<WorkerEntry>, b: seq<WorkerEntry>) {
    forall w :: w in a <==> w in b
  }

  lemma PermutedSame(a: seq<WorkerEntry>, b: seq<WorkerEntry>)
    requires multiset(a) == multiset(b)
    ensures SameWorkers(a, b)
  {
    forall w ensures w in a <==> w in b {
      assert w in a <==> w in multiset(a);
      assert w in b <==> w in multiset(b);
    }
  }

  lemma {:induction false} ReachesSame(setup: Setup, a: seq<WorkerEntry>, b: seq<WorkerEntry>,
                                       chain: seq<WorkerEntry>, next: nat, top: nat, f: nat)
    requires SameWorkers(a, b)
    ensures Reaches(setup, a, chain, next, top, f) <==> Reaches(setup, b, chain, next, top, f)
    decreases chain
  {
    hide CandidateOk;
    if chain != [] {
      ReachesSame(setup, a, b, chain[1..], chain[0].last + 1, top, f);
    }
  }

  lemma FrontierSame(setup: Setup, a: seq<WorkerEntry>, b: seq<WorkerEntry>, next: nat, top: nat, f: nat)
    requires SameWorkers(a, b) && IsFrontier(setup, a, next, top, f)
    ensures IsFrontier(setup, b, next, top, f)
  {
    hide Reaches;
    forall chain, g: nat
      ensures Reaches(setup, a, chain, next, top, g) <==> Reaches(setup, b, chain, next, top, g)
    {
      ReachesSame(setup, a, b, chain, next, top, g);
    }
  }

  lemma CompleteSame(setup: Setup, a: seq<WorkerEntry>, b: seq<WorkerEntry>, chain: seq<WorkerEntry>, next: nat)
    requires SameWorkers(a, b) && 0 < setup.nLayers
    ensures IsCompleteRoute(setup, a, chain, next) <==> IsCompleteRoute(setup, b, chain, next)
  {
  }

  lemma ExistsSame(setup: Setup, a: seq<WorkerEntry>, b: seq<WorkerEntry>)
    requires SameWorkers(a, b) && 0 < setup.nLayers && forall w | w in a :: EntryOk(setup, w)
    ensures HasChain(setup, a, setup.localLast + 1, setup.Top()) <==> RouteExists(setup, b, setup.localLast + 1)
  {
    hide IsChain, IsCompleteRoute, EntryOk;
    var next := setup.localLast + 1;
    if HasChain(setup, a, next, setup.Top()) {
      var chain :| IsChain(setup, a, chain, next, setup.Top());
      ChainIsCompleteRoute(setup, a, chain, next);
      CompleteSame(setup, a, b, chain, next);
    }
    if RouteExists(setup, b, next) {
      var chain :| IsCompleteRoute(setup, b, chain, next);
      CompleteSame(setup, a, b, chain, next);
      CompleteRouteIsChain(setup, a, chain, next);
    }
  }

  // ------------------------------------------------------------------------------
  // Which of the routes is planned
  // ------------------------------------------------------------------------------

  /** Wherever a route could also go on with another worker, the planned one has output if that
      one has, and among those that agree in this it reaches at least as far. */
  ghost predicate BestAtEveryStep(setup: Setup, registry: seq<WorkerEntry>, chain: seq<WorkerEntry>)
    requires 0 < setup.nLayers
  {
    forall i, other: seq<WorkerEntry> | 0 <= i < |chain| && IsCompleteRoute(setup, registry, other, chain[i].first) ::
      && (other[0].hasOutput ==> chain[i].hasOutput)
      && (other[0].hasOutput == chain[i].hasOutput ==> other[0].last <= chain[i].last)
  }

  lemma InFront(workers: seq<WorkerEntry>, i: nat)
    requires i <= |workers|
    ensures forall k | 0 <= k < i :: workers[k] in workers[..i]
  {
    assert forall k | 0 <= k < i :: workers[k] == workers[..i][k];
  }

  lemma {:induction false} PreferredIsBest(setup: Setup, registry: seq<WorkerEntry>, sorted: seq<WorkerEntry>,
                                           chain: seq<WorkerEntry>, next: nat)
    requires Registered(setup, registry) && SameWorkers(sorted, registry) && Sorted(sorted)
    requires IsPreferred(setup, sorted, chain, next, setup.Top()) && IsChain(setup, sorted, chain, next, setup.Top())
    ensures BestAtEveryStep(setup, registry, chain)
    decreases chain
  {
    hide IsCompleteRoute, CandidateOk;
    var best := chain[0];
    assert best.first == next;
    forall other: seq<WorkerEntry> | IsCompleteRoute(setup, registry, other, next)
      ensures other != []
      ensures (other[0].hasOutput ==> best.hasOutput) && (other[0].hasOutput == best.hasOutput ==> other[0].last <= best.last)
    {
      CompleteSame(setup, sorted, registry, other, next);
      CompleteRouteIsChain(setup, sorted, other, next);
      var i :| 0 <= i < |sorted| && sorted[i] == best && NoneStartsIn(setup, sorted, sorted[..i], next, setup.Top());
      var k :| 0 <= k < |sorted| && sorted[k] == other[0];
      InFront(sorted, i);
      assert i <= k;
    }
    if best.last < setup.Top() {
      PreferredIsBest(setup, registry, sorted, chain[1..], best.last + 1);
      assert forall i | 0 < i < |chain| :: chain[i] == chain[1..][i - 1];
    }
  }

  // ------------------------------------------------------------------------------
  // The planner
  // ------------------------------------------------------------------------------

  lemma EntriesGrow(es: seq<Entry>, e: Entry)
    requires AllFit(es) && FitsWord(e.host)
    ensures EncodeEntries(es + [e]) == EncodeEntries(es) + EncodeEntry(e)
  {
    hide EncodeEntry;
    if es == [] {
      assert es + [e] == [e] && [e][1..] == [];
    } else {
      EntriesGrow(es[1..], e);
      assert (es + [e])[1..] == es[1..] + [e];
    }
  }

  /** `sorted` is whatever the library sort makes of the registry. */
  method BuildPlan(setup: Setup, registry: seq<WorkerEntry>, sorted: seq<WorkerEntry>, blank: WorkerEntry)
    returns (r: PlanResult)
    requires Registered(setup, registry) && multiset(sorted) == multiset(registry) && Sorted(sorted)
    ensures BuildOk(setup, registry, r)
    ensures r.Planned? && !LocalOnly(setup) ==>
              IsPreferred(setup, sorted, r.plan.workers, setup.localLast + 1, setup.Top())
    ensures r.Planned? ==> BestAtEveryStep(setup, registry, r.plan.workers)
    // no worker is asked for exactly when the coordinator can do everything itself
    ensures r.Planned? && r.plan.workers == [] <==>
            && setup.localFirst == 0 && setup.localLast == setup.nLayers - 1
            && (setup.localHasOutput || setup.canOutputHead)
  {
    if setup.localFirst != 0 {
      return Failed(NotAtLayerZero);
    }
    if LocalOnly(setup) {
      return Planned(Plan([], [], []));
    }
    hide IsCompleteRoute, IsPreferred, BuildOk, BestAtEveryStep, Registered, Sorted;
    r := SearchPlan(setup, registry, sorted, blank);
  }

  /** The layers behind the coordinator's own have to be found. */
  method SearchPlan(setup: Setup, registry: seq<WorkerEntry>, sorted: seq<WorkerEntry>, blank: WorkerEntry)
    returns (r: PlanResult)
    requires Registered(setup, registry) && multiset(sorted) == multiset(registry) && Sorted(sorted)
    requires setup.localFirst == 0 && !LocalOnly(setup)
    ensures BuildOk(setup, registry, r)
    ensures r.Planned? ==>
              && IsPreferred(setup, sorted, r.plan.workers, setup.localLast + 1, setup.Top())
              && BestAtEveryStep(setup, registry, r.plan.workers) && r.plan.workers != []
  {
    var last := setup.Top();
    PermutedSame(sorted, registry);
    assert forall w | w in sorted :: w in registry;
    var next := setup.localLast + 1;
    var search := new Search(setup, sorted, blank);
    var found, missing := search.Run(next);
    ExistsSame(setup, sorted, registry);
    if !found {
      hide IsCompleteRoute, IsPreferred, IsChain, Sorted;
      FrontierSame(setup, sorted, registry, next, last, missing);
      return Failed(Incomplete(missing));
    }
    hide RouteExists, HasChain, Sorted;
    var chain := search.path[..search.pathLen];
    assert chain == search.path[0..search.pathLen];
    ChainIsCompleteRoute(setup, sorted, chain, next);
    CompleteSame(setup, sorted, registry, chain, next);
    PreferredIsBest(setup, registry, sorted, chain, next);
    r := WritePlan(setup, registry, chain);
  }

  /** Turn a chain into route entries and their bytes. */
  method WritePlan(setup: Setup, registry: seq<WorkerEntry>, chain: seq<WorkerEntry>) returns (r: PlanResult)
    requires Registered(setup, registry) && setup.localFirst == 0 && !LocalOnly(setup)
    requires IsCompleteRoute(setup, registry, chain, setup.localLast + 1)
    ensures BuildOk(setup, registry, r)
    ensures if r.Planned? then r.plan.workers == chain else r.error.InvalidHost? || r.error.TooLarge?
  {
    hide IsCompleteRoute, EncodeEntry, EncodeReturn;
    ghost var all := EntriesFor(chain);
    forall e | e in all ensures PeerHost(e.host) && FitsWord(e.host) {
      ChainHosts(setup, registry, chain);
    }
    var entries: seq<Entry>, blob: seq<Byte> := [], [];
    for i := 0 to |chain|
      invariant entries == all[..i] && HostsOk(entries)
      invariant blob == EncodeEntries(all[..i])
    {
      var e := EntryFor(chain[i]);
      entries := entries + [e];
      assert all[..i + 1] == all[..i] + [e];
      if e.host == [] || NI_MAXHOST <= |e.host| {
        assert e == all[i] && !HostsOk(all);
        return Failed(InvalidHost);
      }
      EntriesGrow(all[..i], e);
      if BLOB_LIMIT - (ENTRY_FIXED + |e.host|) < |blob| {
        Overflow(setup, registry, chain, i);
        return Failed(TooLarge);
      }
      blob := blob + EncodeEntry(e);
    }
    assert all[..|chain|] == all;
    assert all != [] by { ChainHosts(setup, registry, chain); }
    if BLOB_LIMIT - RETURN_FIXED < |blob| {
      assert BLOB_LIMIT < |Encode(EntriesFor(chain))|;
      return Failed(TooLarge);
    }
    blob := blob + EncodeReturn(UPSTREAM);
    r := Planned(Plan(chain, entries, blob));
  }

  lemma ChainHosts(setup: Setup, registry: seq<WorkerEntry>, chain: seq<WorkerEntry>)
    requires Registered(setup, registry) && IsCompleteRoute(setup, registry, chain, setup.localLast + 1)
    ensures chain != [] && forall e | e in EntriesFor(chain) :: PeerHost(e.host)
  {
    forall e | e in EntriesFor(chain) ensures PeerHost(e.host) {
      var i :| 0 <= i < |chain| && EntriesFor(chain)[i] == e;
      assert chain[i] in registry;
    }
  }

  lemma Overflow(setup: Setup, registry: seq<WorkerEntry>, chain: seq<WorkerEntry>, i: nat)
    requires Registered(setup, registry) && IsCompleteRoute(setup, registry, chain, setup.localLast + 1)
    requires i < |chain| && AllFit(EntriesFor(chain))
    requires BLOB_LIMIT < |EncodeEntries(EntriesFor(chain)[..i])| + |EncodeEntry(EntriesFor(chain)[i])|
    ensures BLOB_LIMIT < |Encode(EntriesFor(chain))|
  {
    hide EncodeEntry, EncodeReturn, IsCompleteRoute;
    EntriesSplit(EntriesFor(chain), i);
  }

  // ------------------------------------------------------------------------------
  // Every plan is read back by the workers as it was built
  // ------------------------------------------------------------------------------

  lemma {:induction false} PlanEntriesOk(setup: Setup, registry: seq<WorkerEntry>, chain: seq<WorkerEntry>, from: nat, previous: Option<U32>)
    requires Registered(setup, registry) && IsCompleteRoute(setup, registry, chain, setup.localLast + 1)
    requires HostsOk(EntriesFor(chain)) && from <= |chain|
    requires if from == 0 then previous.None? else previous == Some(chain[from - 1].last)
    ensures RouteOk(EntriesFor(chain)[from..], previous, setup.nLayers)
    decreases |chain| - from
  {
    if from < |chain| {
      PlanEntriesOk(setup, registry, chain, from + 1, Some(chain[from].last));
      assert chain[from] in registry && EntriesFor(chain)[from] in EntriesFor(chain);
      assert EntriesFor(chain)[from..][1..] == EntriesFor(chain)[from + 1..];
    }
  }

  /** Every entry of a plan says what its worker registered. */
  lemma EntriesNameWorkers(setup: Setup, registry: seq<WorkerEntry>, plan: Plan, i: nat)
    requires Registered(setup, registry) && PlanOk(setup, registry, plan) && i < |plan.workers|
    ensures var e, w := plan.entries[i], plan.workers[i];
            && |plan.entries| == |plan.workers| && w in registry
            && e.host == w.host && e.port == w.port && e.first == w.first && e.last == w.last
            && e.flags in {0, 1} && (e.flags == 1 <==> w.hasOutput)
  {
  }

  /** The validator accepts every plan that has workers, entry `i` reads back as the plan's
      entry `i` and nothing else, and the final destination reads back as "upstream". */
  lemma PlannedRouteIsAccepted(setup: Setup, registry: seq<WorkerEntry>, plan: Plan)
    requires Registered(setup, registry) && PlanOk(setup, registry, plan)
    ensures IsRoute(plan.blob, |plan.workers|, setup.nLayers)
    ensures forall i, e | 0 <= i < |plan.workers| :: IsEntryAt(plan.blob, i, e) <==> e == plan.entries[i]
    ensures plan.workers != [] ==> forall t :: IsReturn(plan.blob, |plan.workers|, t) <==> t == UPSTREAM
  {
    hide Encode, IsEntryAt, IsReturn;
    if LocalOnly(setup) {
      EmptyRoute([], setup.nLayers);
      assert plan.blob == [] by { EncodeNothing(plan.entries); }
    } else {
      PlanEntriesOk(setup, registry, plan.workers, 0, None);
      assert plan.entries[0..] == plan.entries;
      forall i, e | 0 <= i < |plan.workers|
        ensures IsEntryAt(plan.blob, i, e) <==> e == plan.entries[i]
      {
        ReadsWhatWasWritten(plan.entries, None, setup.nLayers, i, e, UPSTREAM);
      }
      forall t ensures IsReturn(plan.blob, |plan.workers|, t) <==> t == UPSTREAM {
        ReadsWhatWasWritten(plan.entries, None, setup.nLayers, 0, plan.entries[0], t);
      }
    }
  }

  lemma EncodeNothing(es: seq<Entry>)
    requires es == []
    ensures AllFit(es) && Encode(es) == []
  {
  }
}
