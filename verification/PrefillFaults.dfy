/** What every step keeps once something may have failed: frames are never counted twice, a
    worker whose upstream is there loses none, and threads only end under a lost socket. */
module PrefillFaults {
  import opened Wrappers
  import opened PrefillRing
  import opened PrefillPipeline

  lemma TailBelow(ids: seq<nat>, limit: nat)
    requires AllBelow(ids, limit) && ids != []
    ensures ids[0] < limit && AllBelow(ids[1..], limit)
  {
  }

  lemma MoreBelow(ids: seq<nat>, r: nat, limit: nat)
    requires AllBelow(ids, limit) && r < limit
    ensures AllBelow(ids + [r], limit)
  {
  }

  lemma FewerBelow(ids: seq<nat>, n: nat, limit: nat)
    requires AllBelow(ids, limit) && n <= |ids|
    ensures AllBelow(ids[..n], limit)
  {
  }

  /** Losing the upstream, or sending more requests, breaks nothing. */
  lemma Weaken(w: Worker, last: bool, fed: nat, drained: nat, up: bool, limit: nat, now: bool, more: nat)
    requires FaultOk(w, last, fed, drained, up, limit) && (up ==> now) && limit <= more
    ensures FaultOk(w, last, fed, drained, now, more)
  {
  }

  lemma FeedKeeps(w: Worker, last: bool, fed: nat, drained: nat, up: bool, limit: nat, r: nat)
    requires FaultOk(w, last, fed, drained, up, limit) && r < limit
    ensures FaultOk(Fed(w, r), last, fed + 1, drained, up, limit)
  {
    MoreBelow(w.inbox, r, limit);
  }

  lemma DrainKeeps(w: Worker, last: bool, fed: nat, drained: nat, up: bool, limit: nat)
    requires FaultOk(w, last, fed, drained, up, limit) && w.outbox != []
    ensures FaultOk(Drained(w), last, fed, drained + 1, up, limit)
    ensures w.outbox[0].Some? ==> w.outbox[0].value < limit
    ensures Drained(w).passed == w.passed && Drained(w).cut == w.cut
  {
  }

  // What each action does to the worker that takes it

  lemma ReceiveKeeps(w: Worker, last: bool, fed: nat, drained: nat, up: bool, limit: nat)
    requires FaultOk(w, last, fed, drained, up, limit) && w.inbox != [] && w.held.None?
    ensures FaultOk(Received(w), last, fed, drained, up, limit)
  {
    TailBelow(w.inbox, limit);
  }

  lemma QueueKeeps(w: Worker, last: bool, fed: nat, drained: nat, up: bool, limit: nat)
    requires FaultOk(w, last, fed, drained, up, limit) && w.held.Some?
    ensures FaultOk(QueuedJob(w), last, fed, drained, up, limit)
  {
    MoreBelow(w.jobs, w.held.value, limit);
  }

  lemma PopKeeps(w: Worker, last: bool, fed: nat, drained: nat, up: bool, limit: nat)
    requires FaultOk(w, last, fed, drained, up, limit) && w.eval.Idle? && w.jobs != []
    ensures FaultOk(PoppedJob(w), last, fed, drained, up, limit)
  {
    TailBelow(w.jobs, limit);
  }

  lemma EvaluateKeeps(w: Worker, last: bool, fed: nat, drained: nat, up: bool, limit: nat)
    requires FaultOk(w, last, fed, drained, up, limit) && w.eval.Running?
    ensures FaultOk(EvaluatedJob(w), last, fed, drained, up, limit)
    ensures FaultOk(FailedJob(w), last, fed, drained, up, limit)
  {
  }

  lemma ForwarderFailsKeeps(w: Worker, fed: nat, drained: nat, up: bool, limit: nat)
    requires FaultOk(w, false, fed, drained, up, limit) && w.eval.Evaluated?
    ensures FaultOk(FailedJob(w), false, fed, drained, up, limit)
  {
  }

  lemma SendKeeps(w: Worker, fed: nat, drained: nat, up: bool, limit: nat)
    requires FaultOk(w, true, fed, drained, up, limit) && w.eval.Evaluated?
    ensures FaultOk(SentResult(w), true, fed, drained, up, limit)
  {
  }

  lemma SendErrorKeeps(w: Worker, last: bool, fed: nat, drained: nat, up: bool, limit: nat)
    requires FaultOk(w, last, fed, drained, up, limit) && w.eval.Failing?
    ensures FaultOk(SentError(w), last, fed, drained, up, limit)
  {
  }

  lemma TrackKeeps(w: Worker, fed: nat, drained: nat, up: bool, limit: nat)
    requires FaultOk(w, false, fed, drained, up, limit) && w.eval.Evaluated? && w.relaying
    ensures FaultOk(TrackedJob(w), false, fed, drained, up, limit)
  {
    MoreBelow(w.pending, w.eval.r, limit);
  }

  lemma RelayWriteKeeps(w: Worker, fed: nat, drained: nat, up: bool, limit: nat)
    requires FaultOk(w, false, fed, drained, up, limit) && w.relay.Some?
    ensures FaultOk(RelayWrote(w), false, fed, drained, up, limit)
  {
  }

  lemma ForwardFailsKeeps(w: Worker, fed: nat, drained: nat, up: bool, limit: nat, told: bool)
    requires FaultOk(w, false, fed, drained, up, limit) && w.eval.Tracked?
    ensures FaultOk(ForwardFailed(w, told), false, fed, drained, true, limit)
  {
    if w.pending != [] { FewerBelow(w.pending, |w.pending| - 1, limit); }
  }

  lemma RelayEndsKeeps(w: Worker, fed: nat, drained: nat, up: bool, limit: nat, told: bool)
    requires FaultOk(w, false, fed, drained, up, limit) && w.relaying && w.relay.None?
    ensures FaultOk(RelayStopped(w, told), false, fed, drained, true, limit)
    ensures FaultOk(RelayFaulted(w, told), false, fed, drained, true, limit) && RelayFaulted(w, told).cut
    ensures RelayFaulted(w, told).passed == w.passed.(faulted := w.passed.faulted + 1)
  {
    if w.pending != [] { TailBelow(w.pending, limit); }
  }

  lemma ThreadsEnd(w: Worker, last: bool, fed: nat, drained: nat, limit: nat)
    requires FaultOk(w, last, fed, drained, true, limit)
    ensures FaultOk(w.(relay := None, relaying := false), last, fed, drained, true, limit)
    ensures FaultOk(w.(reading := false, held := None), last, fed, drained, true, limit)
    ensures FaultOk(w.(reading := false, held := None, jobs := []), last, fed, drained, true, limit)
    ensures FaultOk(EvaluatorEnded(w), last, fed, drained, true, limit)
    ensures FaultOk(w.(cut := true), last, fed, drained, true, limit)
  {
  }

  lemma LocalKeeps(c: Config, workers: seq<Worker>, broken: bool, k: nat, action: WorkerStep,
                   fed: nat, drained: nat, limit: nat)
    requires c.Ok() && |workers| == c.Workers() && k < c.Workers()
    requires WorkerEnabled(c, workers, broken, k, action) && IsLocal(action)
    requires FaultOk(workers[k], k + 1 == c.Workers(), fed, drained, Cut(workers, broken, k), limit)
    ensures var w := LocalApply(c, workers, broken, k, action);
            FaultOk(w, k + 1 == c.Workers(), fed, drained, Cut(workers[k := w], broken || (k == 0 && CutsUpstream(action)), k), limit)
  {
    hide Counted, Exact, Known;
    var w, last, up := workers[k], k + 1 == c.Workers(), Cut(workers, broken, k);
    match action
    case Receive => ReceiveKeeps(w, last, fed, drained, up, limit);
    case QueueJob => QueueKeeps(w, last, fed, drained, up, limit);
    case PopJob => PopKeeps(w, last, fed, drained, up, limit);
    case Evaluate => EvaluateKeeps(w, last, fed, drained, up, limit);
    case SendResult => SendKeeps(w, fed, drained, up, limit);
    case Track => TrackKeeps(w, fed, drained, up, limit);
    case RelayWrite => RelayWriteKeeps(w, fed, drained, up, limit);
    case EvalFails => EvaluateKeeps(w, last, fed, drained, up, limit);
    case ForwarderFails => ForwarderFailsKeeps(w, fed, drained, up, limit);
    case SendError => SendErrorKeeps(w, last, fed, drained, up, limit);
    case ForwardFails(told) => ForwardFailsKeeps(w, fed, drained, up, limit, told);
    case RelayEnds(told) => RelayEndsKeeps(w, fed, drained, up, limit, told);
    case RelayGivesUp => ThreadsEnd(w, last, fed, drained, limit);
    case LinkCut =>
      Weaken(w, last, fed, drained, up, limit, true, limit);
      ThreadsEnd(w, last, fed, drained, limit);
    case EvaluatorEnds => ThreadsEnd(w, last, fed, drained, limit);
    case ReceiverEnds(_) => ThreadsEnd(w, last, fed, drained, limit);
  }

  // ------------------------------------------------------------------------------
  // The whole chain
  // ------------------------------------------------------------------------------

  ghost predicate AllFaultInv(c: Config, s: State)
    requires Shaped(c, s)
  {
    forall k | 0 <= k < c.Workers() :: FaultInv(c, s, k)
  }

  /** A local step changes nothing that a neighbour's invariant depends on. */
  lemma LocalStepIsLocal(c: Config, workers: seq<Worker>, broken: bool, k: nat, action: WorkerStep)
    requires c.Ok() && |workers| == c.Workers() && k < c.Workers()
    requires WorkerEnabled(c, workers, broken, k, action) && IsLocal(action)
    ensures var w := LocalApply(c, workers, broken, k, action);
      && w.passed.taken == workers[k].passed.taken && w.passed.faulted == workers[k].passed.faulted
      && (k + 1 < c.Workers() ==> w.passed.sent == workers[k].passed.sent)
      && WorkerApply(c, workers, broken, k, action) == workers[k := w]
  {
  }

  lemma LocalStepKeepsFaultInv(c: Config, s: State, k: nat, action: WorkerStep)
    requires Shaped(c, s) && AllFaultInv(c, s) && Enabled(c, s, AtWorker(k, action)) && IsLocal(action)
    ensures AllFaultInv(c, Apply(c, s, AtWorker(k, action)))
  {
    hide FaultOk, LocalApply, WorkerApply, WorkerEnabled, RingOk;
    var s' := Apply(c, s, AtWorker(k, action));
    assert FaultInv(c, s, k);
    LocalStepIsLocal(c, s.workers, s.broken, k, action);
    LocalKeeps(c, s.workers, s.broken, k, action, FedTo(s, k), DrainedFrom(s, k), c.first + s.sent);
    forall j | 0 <= j < c.Workers()
      ensures FaultInv(c, s', j)
    {
      assert FaultInv(c, s, j);
      assert FedTo(s', j) == FedTo(s, j) && DrainedFrom(s', j) == DrainedFrom(s, j);
      if j != k {
        assert s'.workers[j] == s.workers[j];
        assert Cut(s'.workers, s'.broken, j) == Cut(s.workers, s.broken, j);
      }
    }
  }

  /** Two neighbours change together. */
  lemma PairStepKeepsFaultInv(c: Config, s: State, k: nat, w: Worker, next: Worker, broken: bool)
    requires Shaped(c, s) && AllFaultInv(c, s) && k + 1 < c.Workers()
    requires s.broken ==> broken
    requires broken ==> s.broken || k == 0
    requires next.passed == s.workers[k + 1].passed
    requires FaultOk(w, false, FedTo(s, k), DrainedFrom(s, k), if k == 0 then broken else w.cut, c.first + s.sent)
    requires FaultOk(next, k + 2 == c.Workers(), w.passed.sent, w.passed.taken + w.passed.faulted, next.cut, c.first + s.sent)
    ensures AllFaultInv(c, s.(workers := s.workers[k := w][k + 1 := next], broken := broken))
  {
    hide FaultOk, RingOk;
    var s' := s.(workers := s.workers[k := w][k + 1 := next], broken := broken);
    forall j | 0 <= j < c.Workers()
      ensures FaultInv(c, s', j)
    {
      assert FaultInv(c, s, j);
      if j != k && j != k + 1 {
        assert s'.workers[j] == s.workers[j];
        assert FedTo(s', j) == FedTo(s, j) && DrainedFrom(s', j) == DrainedFrom(s, j);
        assert Cut(s'.workers, s'.broken, j) == Cut(s.workers, s.broken, j);
      }
    }
  }

  lemma ForwardKeeps(w: Worker, fed: nat, drained: nat, up: bool, limit: nat)
    requires FaultOk(w, false, fed, drained, up, limit) && w.eval.Tracked?
    ensures w.eval.r < limit
    ensures FaultOk(ForwardedJob(w), false, fed, drained, up, limit)
  {
  }

  lemma RelayTakeKeeps(w: Worker, fed: nat, drained: nat, up: bool, limit: nat, result: Option<nat>)
    requires FaultOk(w, false, fed, drained, up, limit) && w.relaying && w.relay.None? && w.pending != []
    requires result.Some? ==> result.value < limit
    ensures FaultOk(RelayTook(w, result), false, fed, drained, up, limit)
  {
    TailBelow(w.pending, limit);
  }

  lemma TeardownKeeps(w: Worker, fed: nat, drained: nat, up: bool, limit: nat)
    requires FaultOk(w, false, fed, drained, up, limit) && !w.reading
    ensures up && FaultOk(EvaluatorEnded(w), false, fed, drained, true, limit)
  {
    ThreadsEnd(w, false, fed, drained, limit);
  }

  lemma ForwardKeepsFaultInv(c: Config, s: State, k: nat)
    requires Shaped(c, s) && AllFaultInv(c, s) && k + 1 < c.Workers() && s.workers[k].eval.Tracked?
    ensures AllFaultInv(c, s.(workers := s.workers[k := ForwardedJob(s.workers[k])][k + 1 := Fed(s.workers[k + 1], s.workers[k].eval.r)]))
  {
    hide FaultOk, RingOk;
    var w, next, limit := s.workers[k], s.workers[k + 1], c.first + s.sent;
    assert FaultInv(c, s, k) && FaultInv(c, s, k + 1);
    ForwardKeeps(w, FedTo(s, k), DrainedFrom(s, k), Cut(s.workers, s.broken, k), limit);
    FeedKeeps(next, k + 2 == c.Workers(), FedTo(s, k + 1), DrainedFrom(s, k + 1), next.cut, limit, w.eval.r);
    PairStepKeepsFaultInv(c, s, k, ForwardedJob(w), Fed(next, w.eval.r), s.broken);
  }

  lemma RelayTakeKeepsFaultInv(c: Config, s: State, k: nat)
    requires Shaped(c, s) && AllFaultInv(c, s) && k + 1 < c.Workers()
    requires s.workers[k].relaying && s.workers[k].relay.None? && Expected(s.workers[k], s.workers[k + 1])
    ensures AllFaultInv(c, s.(workers := s.workers[k := RelayTook(s.workers[k], s.workers[k + 1].outbox[0])]
                                                  [k + 1 := Drained(s.workers[k + 1])]))
  {
    hide FaultOk, RingOk;
    var w, next, limit := s.workers[k], s.workers[k + 1], c.first + s.sent;
    assert FaultInv(c, s, k) && FaultInv(c, s, k + 1);
    DrainKeeps(next, k + 2 == c.Workers(), FedTo(s, k + 1), DrainedFrom(s, k + 1), next.cut, limit);
    RelayTakeKeeps(w, FedTo(s, k), DrainedFrom(s, k), Cut(s.workers, s.broken, k), limit, next.outbox[0]);
    PairStepKeepsFaultInv(c, s, k, RelayTook(w, next.outbox[0]), Drained(next), s.broken);
  }

  lemma RelayFaultsKeepsFaultInv(c: Config, s: State, k: nat, told: bool)
    requires Shaped(c, s) && AllFaultInv(c, s) && k + 1 < c.Workers()
    requires s.workers[k].relaying && s.workers[k].relay.None? && s.workers[k + 1].outbox != []
    ensures AllFaultInv(c, s.(workers := s.workers[k := RelayFaulted(s.workers[k], told)][k + 1 := Drained(s.workers[k + 1])],
                              broken := s.broken || k == 0))
  {
    hide FaultOk, RingOk, RelayFaulted, Drained;
    var w, next, limit := s.workers[k], s.workers[k + 1], c.first + s.sent;
    assert FaultInv(c, s, k) && FaultInv(c, s, k + 1);
    DrainKeeps(next, k + 2 == c.Workers(), FedTo(s, k + 1), DrainedFrom(s, k + 1), next.cut, limit);
    RelayEndsKeeps(w, FedTo(s, k), DrainedFrom(s, k), Cut(s.workers, s.broken, k), limit, told);
    PairStepKeepsFaultInv(c, s, k, RelayFaulted(w, told), Drained(next), s.broken || k == 0);
  }

  lemma TeardownKeepsFaultInv(c: Config, s: State, k: nat)
    requires Shaped(c, s) && AllFaultInv(c, s) && k + 1 < c.Workers() && !s.workers[k].reading
    ensures AllFaultInv(c, s.(workers := s.workers[k := EvaluatorEnded(s.workers[k])][k + 1 := s.workers[k + 1].(cut := true)]))
  {
    hide FaultOk, RingOk;
    var w, next, limit := s.workers[k], s.workers[k + 1], c.first + s.sent;
    var last := k + 2 == c.Workers();
    assert FaultInv(c, s, k) && FaultInv(c, s, k + 1);
    TeardownKeeps(w, FedTo(s, k), DrainedFrom(s, k), Cut(s.workers, s.broken, k), limit);
    Weaken(next, last, FedTo(s, k + 1), DrainedFrom(s, k + 1), next.cut, limit, true, limit);
    ThreadsEnd(next, last, FedTo(s, k + 1), DrainedFrom(s, k + 1), limit);
    PairStepKeepsFaultInv(c, s, k, EvaluatorEnded(w), next.(cut := true), s.broken);
  }

  lemma WorkerStepKeepsFaultInv(c: Config, s: State, k: nat, action: WorkerStep)
    requires Shaped(c, s) && AllFaultInv(c, s) && Enabled(c, s, AtWorker(k, action))
    ensures AllFaultInv(c, Apply(c, s, AtWorker(k, action)))
  {
    hide AllFaultInv, RingOk, LocalApply;
    if IsLocal(action) {
      LocalStepKeepsFaultInv(c, s, k, action);
    } else {
      match action
      case Forward => ForwardKeepsFaultInv(c, s, k);
      case RelayTake => RelayTakeKeepsFaultInv(c, s, k);
      case RelayFaults(told) => RelayFaultsKeepsFaultInv(c, s, k, told);
      case Teardown => TeardownKeepsFaultInv(c, s, k);
    }
  }

  /** Coordinator threads that move no frame can at most shut down the first socket. */
  lemma QuietStepKeepsFaultInv(c: Config, s: State, s': State)
    requires Shaped(c, s) && Shaped(c, s') && AllFaultInv(c, s)
    requires s'.workers == s.workers && s'.sent == s.sent && s'.completed == s.completed && (s.broken ==> s'.broken)
    ensures AllFaultInv(c, s')
  {
    hide FaultOk, RingOk;
    forall j | 0 <= j < c.Workers()
      ensures FaultInv(c, s', j)
    {
      assert FaultInv(c, s, j);
      Weaken(s.workers[j], j + 1 == c.Workers(), FedTo(s, j), DrainedFrom(s, j), Cut(s.workers, s.broken, j), c.first + s.sent,
             Cut(s'.workers, s'.broken, j), c.first + s'.sent);
    }
  }

  /** A frame passes between the coordinator and the first worker. */
  lemma FrameStepKeepsFaultInv(c: Config, s: State, s': State, w: Worker)
    requires Shaped(c, s) && Shaped(c, s') && AllFaultInv(c, s)
    requires s'.workers == s.workers[0 := w] && w.passed == s.workers[0].passed && s'.broken == s.broken && s.sent <= s'.sent
    requires FaultOk(w, 1 == c.Workers(), s'.sent, s'.completed, s.broken, c.first + s'.sent)
    ensures AllFaultInv(c, s')
  {
    hide FaultOk, RingOk;
    forall j | 0 <= j < c.Workers()
      ensures FaultInv(c, s', j)
    {
      assert FaultInv(c, s, j);
      if j != 0 {
        Weaken(s.workers[j], j + 1 == c.Workers(), FedTo(s, j), DrainedFrom(s, j), s.workers[j].cut, c.first + s.sent,
               s.workers[j].cut, c.first + s'.sent);
      }
    }
  }
}
