/** Workers the coordinator knows, and the backtracking search for a chain of them that
    continues its own layer slice (dist_coordinator_client_main,
    dist_worker_route_candidate_ok and dist_route_search_workers in ds4_distributed.c). */
module RouteSearch {

  import opened Bytes

  /** A host name as the C string holds it, without its terminator. */
  type Host = seq<Byte>

  const NI_MAXHOST := 1025

  /** A registered worker.  `conn` identifies its control connection. */
  datatype WorkerEntry = WorkerEntry(
    conn: nat,
    host: Host,
    port: U32,
    modelId: U32,
    first: U32,
    last: U32,
    hasOutput: bool,
    hasHidden: bool)

  datatype Setup = Setup(
    modelId: U32,
    modelName: Host,
    nLayers: U32,
    ctxSize: U32,
    localFirst: U32,
    localLast: U32,
    localHasOutput: bool,
    canOutputHead: bool)
  {
    function Top(): U32
      requires 0 < nLayers
    {
      nLayers - 1
    }
  }

  // ------------------------------------------------------------------------------
  // Registration
  // ------------------------------------------------------------------------------

  datatype Hello = Hello(
    modelId: U32, modelName: Host, quantBits: U32, first: U32, last: U32,
    hasOutput: U32, hasHidden: U32, ctxSize: U32, nLayers: U32, listenPort: U32)

  datatype HelloError =
    | ModelIdMismatch | ModelNameMismatch | LayerCountMismatch | UnsupportedQuant
    | BadOutputFlag | BadHiddenFlag | BadLayerRange | OutputNeedsFinalLayer
    | ContextTooSmall | BadPort

  datatype Admission = Admitted | Refused(error: HelloError)

  function Admit(setup: Setup, h: Hello): Admission {
    if h.modelId != setup.modelId then Refused(ModelIdMismatch)
    else if h.modelName != setup.modelName then Refused(ModelNameMismatch)
    else if h.nLayers != setup.nLayers then Refused(LayerCountMismatch)
    else if h.quantBits != 2 && h.quantBits != 4 then Refused(UnsupportedQuant)
    else if 1 < h.hasOutput then Refused(BadOutputFlag)
    else if 1 < h.hasHidden then Refused(BadHiddenFlag)
    else if h.nLayers <= h.first || h.nLayers <= h.last || h.last < h.first then Refused(BadLayerRange)
    else if h.hasOutput != 0 && h.last + 1 != h.nLayers then Refused(OutputNeedsFinalLayer)
    else if setup.ctxSize != 0 && h.ctxSize < setup.ctxSize then Refused(ContextTooSmall)
    else if h.listenPort == 0 || 65535 < h.listenPort then Refused(BadPort)
    else Admitted
  }

  function EntryOf(h: Hello, conn: nat, host: Host): WorkerEntry {
    WorkerEntry(conn, host, h.listenPort, h.modelId, h.first, h.last, h.hasOutput != 0, h.hasHidden != 0)
  }

  /** What every registered worker satisfies. */
  ghost predicate EntryOk(setup: Setup, w: WorkerEntry) {
    && w.first <= w.last < setup.nLayers
    && (w.hasOutput ==> w.last + 1 == setup.nLayers)
    && 0 < w.port <= 65535
    && PeerHost(w.host)
  }

  /** What a peer's host buffer of NI_MAXHOST characters can hold. */
  predicate PeerHost(host: Host) {
    |host| < NI_MAXHOST && 0 !in host
  }

  lemma AdmittedIsOk(setup: Setup, h: Hello, conn: nat, host: Host)
    requires Admit(setup, h).Admitted? && PeerHost(host)
    ensures EntryOk(setup, EntryOf(h, conn, host))
  {
  }

  /** Exactly the workers that serve the coordinator's model over a range of its layers, with
      room for its context, are admitted. */
  lemma AdmittedExactly(setup: Setup, h: Hello)
    ensures Admit(setup, h) == Admitted <==>
            && h.modelId == setup.modelId && h.modelName == setup.modelName && h.nLayers == setup.nLayers
            && h.quantBits in {2, 4} && h.hasOutput in {0, 1} && h.hasHidden in {0, 1}
            && h.first <= h.last < setup.nLayers && (h.hasOutput == 1 ==> h.last == setup.nLayers - 1)
            && setup.ctxSize <= h.ctxSize && 1 <= h.listenPort <= 65535
    ensures forall conn, host | Admit(setup, h).Admitted? && PeerHost(host) ::
              var w := EntryOf(h, conn, host);
              && w.conn == conn && w.host == host && w.port == h.listenPort && w.modelId == setup.modelId
              && w.first == h.first && w.last == h.last
              && (w.hasOutput <==> h.hasOutput == 1) && (w.hasHidden <==> h.hasHidden == 1)
  {
  }

  // ------------------------------------------------------------------------------
  // Chains
  // ------------------------------------------------------------------------------

  /** A worker that can stand where its layers say: it passes hidden state on unless it ends
      the route with logits, and somebody produces logits at the end. */
  predicate CandidateOk(setup: Setup, w: WorkerEntry, top: nat) {
    var needsHidden := w.last < top || !w.hasOutput;
    && (needsHidden ==> w.hasHidden)
    && !(top <= w.last && !w.hasOutput && !setup.canOutputHead)
  }

  ghost predicate IsLink(setup: Setup, workers: seq<WorkerEntry>, w: WorkerEntry, next: nat, top: nat) {
    w in workers && w.first == next && CandidateOk(setup, w, top)
  }

  /** A complete chain: acceptable workers, each starting where the one before ended, the last
      one reaching the top layer. */
  ghost predicate IsChain(setup: Setup, workers: seq<WorkerEntry>, chain: seq<WorkerEntry>, next: nat, top: nat)
    decreases chain
  {
    && chain != []
    && IsLink(setup, workers, chain[0], next, top)
    && (if top <= chain[0].last then |chain| == 1
        else IsChain(setup, workers, chain[1..], chain[0].last + 1, top))
  }

  /** An unfinished chain, after which layer `frontier` is the next one needed. */
  ghost predicate Reaches(setup: Setup, workers: seq<WorkerEntry>, chain: seq<WorkerEntry>, next: nat, top: nat, frontier: nat)
    decreases chain
  {
    if chain == [] then frontier == next
    else
      && IsLink(setup, workers, chain[0], next, top)
      && chain[0].last < top
      && Reaches(setup, workers, chain[1..], chain[0].last + 1, top, frontier)
  }

  ghost predicate HasChain(setup: Setup, workers: seq<WorkerEntry>, next: nat, top: nat) {
    exists chain :: IsChain(setup, workers, chain, next, top)
  }

  /** No unfinished chain gets further than `frontier`, and some chain gets there. */
  ghost predicate IsFrontier(setup: Setup, workers: seq<WorkerEntry>, next: nat, top: nat, frontier: nat) {
    && (exists chain :: Reaches(setup, workers, chain, next, top, frontier))
    && (forall chain, f: nat | Reaches(setup, workers, chain, next, top, f) :: f <= frontier)
  }

  /** The chain a search in list order must return: at every step, no worker listed before the
      chosen one begins a complete chain. */
  ghost predicate IsPreferred(setup: Setup, workers: seq<WorkerEntry>, chain: seq<WorkerEntry>, next: nat, top: nat)
    decreases chain
  {
    && chain != []
    && (exists i | 0 <= i < |workers| :: workers[i] == chain[0] && NoneStartsIn(setup, workers, workers[..i], next, top))
    && (if top <= chain[0].last then |chain| == 1
        else IsPreferred(setup, workers, chain[1..], chain[0].last + 1, top))
  }

  /** No complete chain begins with one of `tried`. */
  ghost predicate NoneStartsIn(setup: Setup, workers: seq<WorkerEntry>, tried: seq<WorkerEntry>, next: nat, top: nat) {
    forall chain | IsChain(setup, workers, chain, next, top) :: chain[0] !in tried
  }

  /** The same chain described position by position: contiguous from `next` to the top layer,
      every worker registered, hidden state passed on wherever somebody needs it, and somebody
      at the end to produce logits. */
  ghost predicate IsCompleteRoute(setup: Setup, workers: seq<WorkerEntry>, chain: seq<WorkerEntry>, next: nat)
    requires 0 < setup.nLayers
  {
    && chain != []
    && (forall w | w in chain :: w in workers)
    && chain[0].first == next
    && (forall i | 0 < i < |chain| :: chain[i].first == chain[i - 1].last + 1)
    && chain[|chain| - 1].last == setup.Top()
    && (chain[|chain| - 1].hasOutput || setup.canOutputHead)
    && (forall i | 0 <= i < |chain| :: (i + 1 < |chain| || !chain[i].hasOutput) ==> chain[i].hasHidden)
  }

  lemma {:induction false} ChainIsCompleteRoute(setup: Setup, workers: seq<WorkerEntry>, chain: seq<WorkerEntry>, next: nat)
    requires 0 < setup.nLayers && forall w | w in workers :: EntryOk(setup, w)
    requires IsChain(setup, workers, chain, next, setup.Top())
    ensures IsCompleteRoute(setup, workers, chain, next)
    decreases chain
  {
    assert chain[0] in workers;
    if chain[0].last < setup.Top() {
      var rest := chain[1..];
      ChainIsCompleteRoute(setup, workers, rest, chain[0].last + 1);
      assert forall i | 0 < i < |chain| :: chain[i] == rest[i - 1];
    }
  }

  lemma {:induction false} CompleteRouteIsChain(setup: Setup, workers: seq<WorkerEntry>, chain: seq<WorkerEntry>, next: nat)
    requires 0 < setup.nLayers && forall w | w in workers :: EntryOk(setup, w)
    requires IsCompleteRoute(setup, workers, chain, next)
    ensures IsChain(setup, workers, chain, next, setup.Top())
    decreases chain
  {
    assert chain[0] in workers;
    if 1 < |chain| {
      var rest := chain[1..];
      assert chain[1] in workers;
      assert forall i | 0 <= i < |rest| :: rest[i] == chain[i + 1];
      CompleteRouteIsChain(setup, workers, rest, chain[0].last + 1);
    }
  }

  /** Starts rise strictly along a chain, so no worker appears twice. */
  lemma {:induction false} ChainRises(setup: Setup, workers: seq<WorkerEntry>, chain: seq<WorkerEntry>, next: nat, top: nat)
    requires IsChain(setup, workers, chain, next, top)
    requires forall w | w in workers :: EntryOk(setup, w)
    ensures forall i, j | 0 <= i < j < |chain| :: chain[i].last < chain[j].first
    ensures forall i | 0 <= i < |chain| :: chain[i] in workers && next <= chain[i].first <= chain[i].last
    decreases chain
  {
    if chain[0].last < top {
      ChainRises(setup, workers, chain[1..], chain[0].last + 1, top);
      assert forall i | 0 < i < |chain| :: chain[i] == chain[1..][i - 1];
    }
  }

  // ------------------------------------------------------------------------------
  // The search
  // ------------------------------------------------------------------------------

  ghost predicate SortedByStart(workers: seq<WorkerEntry>) {
    forall i, j | 0 <= i < j < |workers| :: workers[i].first <= workers[j].first
  }

  /** Workers that start before a layer; in a sorted list, also the index where that layer's
      workers begin. */
  ghost function Before(workers: seq<WorkerEntry>, layer: nat): (n: nat)
    ensures n <= |workers|
  {
    if workers == [] || layer <= workers[0].first then 0 else 1 + Before(workers[1..], layer)
  }

  lemma {:induction false} BeforeIsBoundary(workers: seq<WorkerEntry>, layer: nat)
    requires SortedByStart(workers)
    ensures forall i | 0 <= i < |workers| :: workers[i].first < layer <==> i < Before(workers, layer)
  {
    if workers != [] && workers[0].first < layer {
      BeforeIsBoundary(workers[1..], layer);
      forall i | 0 <= i < |workers|
        ensures workers[i].first < layer <==> i < Before(workers, layer)
      {
        if 0 < i { assert workers[i] == workers[1..][i - 1]; }
      }
    }
  }

  /** A worker of the layer `next` leaves room on the path for itself. */
  lemma RoomForOneMore(workers: seq<WorkerEntry>, i: nat, next: nat, after: nat)
    requires SortedByStart(workers) && i < |workers| && workers[i].first == next < after
    ensures Before(workers, next) < Before(workers, after)
  {
    BeforeIsBoundary(workers, next);
    BeforeIsBoundary(workers, after);
  }

  /** What the loop knows after trying the first `upTo` workers at layer `next`. */
  ghost predicate TriedAll(setup: Setup, workers: seq<WorkerEntry>, next: nat, top: nat, upTo: nat, missing: nat)
    requires upTo <= |workers|
  {
    && NoneStartsIn(setup, workers, workers[..upTo], next, top)
    && (forall chain, f: nat | Reaches(setup, workers, chain, next, top, f) ::
          chain == [] || chain[0] in workers[..upTo] ==> f <= missing)
    && (exists chain :: Reaches(setup, workers, chain, next, top, missing))
  }

  lemma NothingTried(setup: Setup, workers: seq<WorkerEntry>, next: nat, top: nat)
    ensures TriedAll(setup, workers, next, top, 0, next)
  {
    assert Reaches(setup, workers, [], next, top, next);
  }

  /** A worker that cannot stand at `next` starts no chain. */
  lemma SkipOk(setup: Setup, workers: seq<WorkerEntry>, next: nat, top: nat, i: nat, missing: nat)
    requires i < |workers| && TriedAll(setup, workers, next, top, i, missing)
    requires workers[i].first != next || !CandidateOk(setup, workers[i], top)
    ensures TriedAll(setup, workers, next, top, i + 1, missing)
  {
    assert workers[..i + 1] == workers[..i] + [workers[i]];
  }

  lemma ChainGoesOn(setup: Setup, workers: seq<WorkerEntry>, chain: seq<WorkerEntry>, next: nat, top: nat)
    requires IsChain(setup, workers, chain, next, top) && chain[0].last < top
    ensures HasChain(setup, workers, chain[0].last + 1, top)
  {
  }

  /** A worker behind which nothing completes raises the frontier to the one found behind it. */
  lemma TriedOk(setup: Setup, workers: seq<WorkerEntry>, next: nat, top: nat, i: nat, missing: nat, childMissing: nat)
    requires i < |workers| && TriedAll(setup, workers, next, top, i, missing)
    requires IsLink(setup, workers, workers[i], next, top) && workers[i].last < top
    requires !HasChain(setup, workers, workers[i].last + 1, top)
    requires IsFrontier(setup, workers, workers[i].last + 1, top, childMissing)
    ensures TriedAll(setup, workers, next, top, i + 1, if missing < childMissing then childMissing else missing)
  {
    var w := workers[i];
    assert workers[..i + 1] == workers[..i] + [w];
    var behind :| Reaches(setup, workers, behind, w.last + 1, top, childMissing);
    assert ([w] + behind)[1..] == behind;
    assert Reaches(setup, workers, [w] + behind, next, top, childMissing);
    forall chain: seq<WorkerEntry> | IsChain(setup, workers, chain, next, top)
      ensures chain[0] !in workers[..i + 1]
    {
      if chain[0].last < top { ChainGoesOn(setup, workers, chain, next, top); }
    }
    forall chain, f: nat | Reaches(setup, workers, chain, next, top, f) && chain != [] && chain[0] == w
      ensures f <= childMissing
    {
      assert Reaches(setup, workers, chain[1..], w.last + 1, top, f);
    }
  }

  /** The loop may stop at the first worker that starts later, because the list is sorted. */
  lemma ExhaustedOk(setup: Setup, workers: seq<WorkerEntry>, next: nat, top: nat, i: nat, missing: nat)
    requires SortedByStart(workers) && i <= |workers|
    requires TriedAll(setup, workers, next, top, i, missing)
    requires i < |workers| ==> next < workers[i].first
    ensures !HasChain(setup, workers, next, top)
    ensures IsFrontier(setup, workers, next, top, missing)
  {
    forall w | w in workers && w.first == next ensures w in workers[..i] {
      var k :| 0 <= k < |workers| && workers[k] == w;
      assert k < i;
    }
  }

  /** What a successful search has put on the path. */
  ghost predicate Found(setup: Setup, workers: seq<WorkerEntry>, chain: seq<WorkerEntry>, next: nat, top: nat) {
    && IsChain(setup, workers, chain, next, top)
    && IsPreferred(setup, workers, chain, next, top)
  }

  lemma FoundOk(setup: Setup, workers: seq<WorkerEntry>, chain: seq<WorkerEntry>,
                next: nat, top: nat, i: nat, missing: nat)
    requires i < |workers| && chain != [] && chain[0] == workers[i]
    requires TriedAll(setup, workers, next, top, i, missing)
    requires IsLink(setup, workers, workers[i], next, top)
    requires if top <= workers[i].last then |chain| == 1
             else Found(setup, workers, chain[1..], workers[i].last + 1, top)
    ensures Found(setup, workers, chain, next, top) && HasChain(setup, workers, next, top)
  {
    assert IsChain(setup, workers, chain, next, top);
    assert workers[i] == chain[0] && NoneStartsIn(setup, workers, workers[..i], next, top);
  }

  /** The search state shared by the recursive calls. */
  class Search {
    const setup: Setup
    const workers: seq<WorkerEntry>
    const path: array<WorkerEntry>
    var pathLen: nat

    ghost predicate Valid()
      reads this
    {
      && 0 < setup.nLayers
      && SortedByStart(workers)
      && (forall w | w in workers :: EntryOk(setup, w))
      && path.Length == |workers|
      && pathLen <= path.Length
    }

    constructor (setup: Setup, workers: seq<WorkerEntry>, blank: WorkerEntry)
      requires 0 < setup.nLayers && SortedByStart(workers)
      requires forall w | w in workers :: EntryOk(setup, w)
      ensures Valid() && fresh(path) && pathLen == 0
      ensures this.setup == setup && this.workers == workers
    {
      this.setup := setup;
      this.workers := workers;
      path := new WorkerEntry[|workers|](_ => blank);
      pathLen := 0;
    }

    /** Extend the path from layer `next` to the top.  The path is a stack: on failure it is
        left as it was found. */
    method Run(next: nat) returns (found: bool, missing: nat)
      requires Valid() && pathLen <= Before(workers, next)
      modifies path, this`pathLen
      ensures Valid()
      ensures old(pathLen) <= pathLen && path[..old(pathLen)] == old(path[..pathLen])
      ensures found == HasChain(setup, workers, next, setup.Top())
      ensures found ==> Found(setup, workers, path[old(pathLen)..pathLen], next, setup.Top())
      ensures !found ==> pathLen == old(pathLen) && IsFrontier(setup, workers, next, setup.Top(), missing)
      decreases setup.nLayers - next
    {
      hide HasChain, IsFrontier, IsPreferred, Before, IsChain, CandidateOk, TriedAll;
      var last := setup.Top();
      ghost var base := pathLen;
      missing := next;
      var sawStart := false;
      NothingTried(setup, workers, next, last);
      var i := 0;
      while i < |workers|
        invariant 0 <= i <= |workers|
        invariant Valid() && pathLen == base && path[..base] == old(path[..pathLen])
        invariant next <= missing
        invariant TriedAll(setup, workers, next, last, i, missing)
      {
        var w := workers[i];
        if w.first < next {
          SkipOk(setup, workers, next, last, i, missing);
          i := i + 1;
          continue;
        }
        if next < w.first {
          break;
        }
        sawStart := true;
        if !CandidateOk(setup, w, last) {
          SkipOk(setup, workers, next, last, i, missing);
          i := i + 1;
          continue;
        }
        assert w in workers;
        RoomForOneMore(workers, i, next, w.last + 1);
        path[pathLen] := w;
        pathLen := pathLen + 1;
        if last <= w.last {
          FoundOk(setup, workers, path[base..pathLen], next, last, i, missing);
          return true, missing;
        }
        var deeper, childMissing := Run(w.last + 1);
        if deeper {
          assert path[..base + 1][base] == w;
          assert path[base..pathLen][1..] == path[base + 1..pathLen];
          FoundOk(setup, workers, path[base..pathLen], next, last, i, missing);
          return true, missing;
        }
        TriedOk(setup, workers, next, last, i, missing, childMissing);
        if missing < childMissing {
          missing := childMissing;
        }
        pathLen := pathLen - 1;
        i := i + 1;
      }
      if !sawStart && missing < next {
        missing := next;
      }
      ExhaustedOk(setup, workers, next, last, i, missing);
      found := false;
    }
  }
}
