/** What every step of pipelined prefill keeps.  As long as nothing has failed, each queue holds
    consecutive requests; what is left of that afterwards is in PrefillFaults. */
module PrefillSafety {
  import opened Wrappers
  import opened PrefillRing
  import opened PrefillPipeline
  import opened PrefillFaults

  // ------------------------------------------------------------------------------
  // One worker
  // ------------------------------------------------------------------------------

  lemma ReceiveKeepsWorker(c: Config, k: nat, w: Worker, fed: nat, drained: nat)
    requires c.Ok() && k < c.Workers() && WorkerOk(c, k, w, fed, drained)
    requires w.inbox != [] && w.held.None?
    ensures WorkerOk(c, k, Received(w), fed, drained)
  {
    IdsShrink(c, w.passed.received, fed);
  }

  lemma QueueKeepsWorker(c: Config, k: nat, w: Worker, fed: nat, drained: nat)
    requires c.Ok() && k < c.Workers() && WorkerOk(c, k, w, fed, drained)
    requires w.held.Some? && |w.jobs| < c.jobDepth[k]
    ensures WorkerOk(c, k, QueuedJob(w), fed, drained)
  {
    IdsGrow(c, w.passed.popped, w.passed.queued);
  }

  lemma PopKeepsWorker(c: Config, k: nat, w: Worker, fed: nat, drained: nat)
    requires c.Ok() && k < c.Workers() && WorkerOk(c, k, w, fed, drained)
    requires w.eval.Idle? && w.jobs != []
    ensures WorkerOk(c, k, PoppedJob(w), fed, drained)
  {
    IdsShrink(c, w.passed.popped, w.passed.queued);
  }

  lemma SendKeepsWorker(c: Config, k: nat, w: Worker, fed: nat, drained: nat)
    requires c.Ok() && k + 1 == c.Workers() && WorkerOk(c, k, w, fed, drained)
    requires w.eval.Evaluated? && |w.outbox| < c.outboxFrames[k]
    ensures WorkerOk(c, k, SentResult(w), fed, drained)
  {
    FilledGrows(c, drained, w.passed.sent);
  }

  lemma TrackKeepsWorker(c: Config, k: nat, w: Worker, fed: nat, drained: nat)
    requires c.Ok() && k + 1 < c.Workers() && WorkerOk(c, k, w, fed, drained)
    requires w.eval.Evaluated? && |w.pending| < c.forwardWindow[k]
    ensures WorkerOk(c, k, TrackedJob(w), fed, drained)
  {
    IdsGrow(c, w.passed.taken, w.passed.tracked);
  }

  lemma RelayWriteKeepsWorker(c: Config, k: nat, w: Worker, fed: nat, drained: nat)
    requires c.Ok() && k + 1 < c.Workers() && WorkerOk(c, k, w, fed, drained)
    requires w.relay.Some? && |w.outbox| < c.outboxFrames[k]
    ensures WorkerOk(c, k, RelayWrote(w), fed, drained)
  {
    FilledGrows(c, drained, w.passed.relayed);
  }

  lemma LocalStepKeepsWorker(c: Config, workers: seq<Worker>, broken: bool, k: nat, action: WorkerStep, fed: nat, drained: nat)
    requires c.Ok() && |workers| == c.Workers() && k < c.Workers()
    requires WorkerEnabled(c, workers, broken, k, action) && IsLocal(action) && IsRegular(action)
    requires WorkerOk(c, k, workers[k], fed, drained)
    ensures WorkerOk(c, k, LocalApply(c, workers, broken, k, action), fed, drained)
  {
    var w := workers[k];
    match action
    case Receive => ReceiveKeepsWorker(c, k, w, fed, drained);
    case QueueJob => QueueKeepsWorker(c, k, w, fed, drained);
    case PopJob => PopKeepsWorker(c, k, w, fed, drained);
    case Evaluate =>
    case SendResult => SendKeepsWorker(c, k, w, fed, drained);
    case Track => TrackKeepsWorker(c, k, w, fed, drained);
    case RelayWrite => RelayWriteKeepsWorker(c, k, w, fed, drained);
  }

  lemma ForwardKeepsWorkers(c: Config, k: nat, w: Worker, next: Worker, fed: nat, drained: nat)
    requires c.Ok() && k + 1 < c.Workers() && WorkerOk(c, k, w, fed, drained)
    requires WorkerOk(c, k + 1, next, w.passed.sent, w.passed.taken)
    requires w.eval.Tracked? && |next.inbox| < c.inboxFrames[k + 1]
    ensures WorkerOk(c, k, ForwardedJob(w), fed, drained)
    ensures WorkerOk(c, k + 1, Fed(next, w.eval.r), w.passed.sent + 1, w.passed.taken)
  {
    FeedKeepsWorker(c, k + 1, next, w.passed.sent, w.passed.taken);
  }

  lemma FeedKeepsWorker(c: Config, k: nat, w: Worker, fed: nat, drained: nat)
    requires c.Ok() && k < c.Workers()
    requires WorkerOk(c, k, w, fed, drained) && |w.inbox| < c.inboxFrames[k]
    ensures WorkerOk(c, k, Fed(w, c.first + fed), fed + 1, drained)
  {
    IdsGrow(c, w.passed.received, fed);
  }

  lemma DrainKeepsWorker(c: Config, k: nat, w: Worker, fed: nat, drained: nat)
    requires c.Ok() && k < c.Workers()
    requires WorkerOk(c, k, w, fed, drained) && w.outbox != []
    ensures w.outbox[0] == Some(c.first + drained)
    ensures drained < Results(c, k, w) <= fed
    ensures WorkerOk(c, k, Drained(w), fed, drained + 1)
  {
    FilledShrinks(c, drained, Results(c, k, w));
  }

  lemma RelayTakeKeepsWorkers(c: Config, k: nat, w: Worker, next: Worker, fed: nat, drained: nat)
    requires c.Ok() && k + 1 < c.Workers() && WorkerOk(c, k, w, fed, drained)
    requires WorkerOk(c, k + 1, next, w.passed.sent, w.passed.taken)
    requires w.relay.None? && next.outbox != []
    ensures w.pending != [] && next.outbox[0] == Some(w.pending[0])
    ensures WorkerOk(c, k, RelayTook(w, next.outbox[0]), fed, drained)
    ensures WorkerOk(c, k + 1, Drained(next), w.passed.sent, w.passed.taken + 1)
  {
    hide WorkerOk;
    DrainKeepsWorker(c, k + 1, next, w.passed.sent, w.passed.taken);
    TakeKeepsWorker(c, k, w, fed, drained, Results(c, k + 1, next));
  }

  /** A result of something sent is the one announced first. */
  lemma TakeKeepsWorker(c: Config, k: nat, w: Worker, fed: nat, drained: nat, back: nat)
    requires c.Ok() && k + 1 < c.Workers() && WorkerOk(c, k, w, fed, drained)
    requires w.relay.None? && w.passed.taken < back <= w.passed.sent
    ensures w.pending != [] && w.pending[0] == c.first + w.passed.taken
    ensures WorkerOk(c, k, RelayTook(w, Some(w.pending[0])), fed, drained)
  {
    IdsShrink(c, w.passed.taken, w.passed.tracked);
  }

  /** As long as nothing has failed, a relay never meets a result it did not expect: results
      come back in the order in which the evaluator announced them. */
  lemma RelayNeverFaults(c: Config, s: State, k: nat, told: bool)
    requires Inv(c, s) && Clean(s) && k < c.Workers()
    ensures !WorkerEnabled(c, s.workers, s.broken, k, RelayFaults(told))
  {
    if k + 1 < c.Workers() && s.workers[k + 1].outbox != [] {
      assert WorkerInv(c, s, k) && WorkerInv(c, s, k + 1);
      if s.workers[k].relay.None? {
        RelayTakeKeepsWorkers(c, k, s.workers[k], s.workers[k + 1], FedTo(s, k), DrainedFrom(s, k));
      }
    }
  }

  lemma WorkersDoNotTouchCoordinator(c: Config, s: State, workers: seq<Worker>, broken: bool)
    requires Shaped(c, s) && CoordinatorInv(c, s) && |workers| == |s.workers| && (s.broken ==> broken)
    ensures CoordinatorInv(c, s.(workers := workers, broken := broken))
  {
  }

  ghost predicate AllWorkerInv(c: Config, s: State)
    requires Shaped(c, s)
  {
    forall k | 0 <= k < c.Workers() :: WorkerInv(c, s, k)
  }

  lemma LocalStepKeepsInv(c: Config, s: State, k: nat, action: WorkerStep)
    requires Shaped(c, s) && AllWorkerInv(c, s) && k < c.Workers()
    requires WorkerEnabled(c, s.workers, s.broken, k, action) && IsLocal(action) && IsRegular(action)
    ensures AllWorkerInv(c, s.(workers := WorkerApply(c, s.workers, s.broken, k, action)))
  {
    hide WorkerOk, LocalApply, WorkerApply, WorkerEnabled, RingOk;
    var w := LocalApply(c, s.workers, s.broken, k, action);
    var s' := s.(workers := s.workers[k := w]);
    assert WorkerInv(c, s, k);
    LocalStepIsLocal(c, s.workers, s.broken, k, action);
    LocalStepKeepsWorker(c, s.workers, s.broken, k, action, FedTo(s, k), DrainedFrom(s, k));
    forall j | 0 <= j < c.Workers()
      ensures WorkerInv(c, s', j)
    {
      assert WorkerInv(c, s, j);
      assert FedTo(s', j) == FedTo(s, j) && DrainedFrom(s', j) == DrainedFrom(s, j);
    }
  }

  /** Two neighbours change together: worker k announces or takes, worker k+1 is fed or drained. */
  lemma PairStepKeepsInv(c: Config, s: State, k: nat, w: Worker, next: Worker)
    requires Shaped(c, s) && AllWorkerInv(c, s) && k + 1 < c.Workers()
    requires WorkerOk(c, k, w, FedTo(s, k), DrainedFrom(s, k))
    requires WorkerOk(c, k + 1, next, w.passed.sent, w.passed.taken)
    requires next.passed == s.workers[k + 1].passed
    requires w.passed.faulted == 0
    ensures AllWorkerInv(c, s.(workers := s.workers[k := w][k + 1 := next]))
  {
    hide WorkerOk, RingOk;
    var s' := s.(workers := s.workers[k := w][k + 1 := next]);
    forall j | 0 <= j < c.Workers()
      ensures WorkerInv(c, s', j)
    {
      if j != k && j != k + 1 {
        assert WorkerInv(c, s, j);
        assert s'.workers[j] == s.workers[j];
        assert FedTo(s', j) == FedTo(s, j) && DrainedFrom(s', j) == DrainedFrom(s, j);
      }
    }
  }

  lemma ForwardKeepsInv(c: Config, s: State, k: nat)
    requires Shaped(c, s) && AllWorkerInv(c, s) && k + 1 < c.Workers()
    requires s.workers[k].eval.Tracked? && |s.workers[k + 1].inbox| < c.inboxFrames[k + 1]
    ensures AllWorkerInv(c, s.(workers := s.workers[k := ForwardedJob(s.workers[k])]
                                                   [k + 1 := Fed(s.workers[k + 1], s.workers[k].eval.r)]))
  {
    var w, next := s.workers[k], s.workers[k + 1];
    assert WorkerInv(c, s, k) && WorkerInv(c, s, k + 1);
    ForwardKeepsWorkers(c, k, w, next, FedTo(s, k), DrainedFrom(s, k));
    PairStepKeepsInv(c, s, k, ForwardedJob(w), Fed(next, w.eval.r));
  }

  lemma RelayTakeKeepsInv(c: Config, s: State, k: nat)
    requires Shaped(c, s) && AllWorkerInv(c, s) && k + 1 < c.Workers()
    requires s.workers[k].relay.None? && s.workers[k].pending != [] && s.workers[k + 1].outbox != []
    ensures AllWorkerInv(c, s.(workers := s.workers[k := RelayTook(s.workers[k], s.workers[k + 1].outbox[0])]
                                                   [k + 1 := Drained(s.workers[k + 1])]))
  {
    var w, next := s.workers[k], s.workers[k + 1];
    assert WorkerInv(c, s, k) && WorkerInv(c, s, k + 1);
    RelayTakeKeepsWorkers(c, k, w, next, FedTo(s, k), DrainedFrom(s, k));
    PairStepKeepsInv(c, s, k, RelayTook(w, next.outbox[0]), Drained(next));
  }

  /** What failed once stays failed, so a clean state was reached by regular steps only. */
  lemma StaysUnclean(c: Config, s: State, k: nat, action: WorkerStep)
    requires Shaped(c, s) && Enabled(c, s, AtWorker(k, action)) && Clean(Apply(c, s, AtWorker(k, action)))
    ensures Clean(s) && IsRegular(action)
  {
    hide RingOk;
    var after := Apply(c, s, AtWorker(k, action)).workers;
    assert Sound(after[k]);
    forall j | 0 <= j < c.Workers() ensures Sound(s.workers[j]) {
      assert Sound(after[j]);
    }
  }

  lemma WorkerStepKeepsInv(c: Config, s: State, k: nat, action: WorkerStep)
    requires Inv(c, s) && Enabled(c, s, AtWorker(k, action))
    ensures Inv(c, Apply(c, s, AtWorker(k, action)))
  {
    hide WorkerInv, FaultInv, Clean, RingOk, LocalApply;
    var s' := Apply(c, s, AtWorker(k, action));
    WorkerStepKeepsFaultInv(c, s, k, action);
    WorkersDoNotTouchCoordinator(c, s, s'.workers, s'.broken);
    if Clean(s') {
      StaysUnclean(c, s, k, action);
      assert s' == s.(workers := s'.workers);
      if action.Forward? {
        ForwardKeepsInv(c, s, k);
      } else if action.RelayTake? {
        RelayTakeKeepsInv(c, s, k);
      } else {
        LocalStepKeepsInv(c, s, k, action);
      }
    }
  }

  // ------------------------------------------------------------------------------
  // Coordinator threads
  // ------------------------------------------------------------------------------

  /** The coordinator threads move no frame in this step. */
  ghost predicate SameTraffic(s: State, s': State) {
    s'.workers == s.workers && s'.sent == s.sent && s'.completed == s.completed
  }

  lemma EvalKeepsCoordinator(c: Config, s: State, ok: bool)
    requires Shaped(c, s) && CoordinatorInv(c, s) && ProducerEnabled(c, s, EvalChunk(ok))
    ensures var s' := ProducerApply(c, s, EvalChunk(ok));
      Shaped(c, s') && CoordinatorInv(c, s')
  {
    FillKeepsQueue(s.ring, c.first + s.submitted);
  }

  lemma PutKeepsCoordinator(c: Config, s: State)
    requires Shaped(c, s) && CoordinatorInv(c, s) && ProducerEnabled(c, s, PutChunk)
    ensures var s' := ProducerApply(c, s, PutChunk);
      Shaped(c, s') && CoordinatorInv(c, s')
  {
    if !s.ring.stop {
      EnqueueAppends(s.ring);
      FilledGrows(c, ReleasedBySender(s), s.submitted);
    }
  }

  lemma WaitKeepsCoordinator(c: Config, s: State, step: ProducerStep)
    requires Shaped(c, s) && CoordinatorInv(c, s) && ProducerEnabled(c, s, step)
    requires step.WaitWindow? || step.TakeSlot?
    ensures var s' := ProducerApply(c, s, step);
      Shaped(c, s') && CoordinatorInv(c, s')
  {
  }

  lemma ProducerEndKeepsCoordinator(c: Config, s: State, step: ProducerStep)
    requires Shaped(c, s) && CoordinatorInv(c, s) && ProducerEnabled(c, s, step)
    requires step.Finished? || step.Cancelled? || step.JoinedSender? || step.JoinedReader?
    ensures var s' := ProducerApply(c, s, step);
      Shaped(c, s') && CoordinatorInv(c, s')
  {
  }

  lemma ProducerStepKeepsInv(c: Config, s: State, step: ProducerStep)
    requires Inv(c, s) && ProducerEnabled(c, s, step)
    ensures Inv(c, ProducerApply(c, s, step))
  {
    match step {
      case EvalChunk(ok) => EvalKeepsCoordinator(c, s, ok);
      case PutChunk => PutKeepsCoordinator(c, s);
      case WaitWindow => WaitKeepsCoordinator(c, s, step);
      case TakeSlot => WaitKeepsCoordinator(c, s, step);
      case _ => ProducerEndKeepsCoordinator(c, s, step);
    }
    QuietStepKeepsInv(c, s, ProducerApply(c, s, step));
  }

  lemma SenderStepKeepsCoordinator(c: Config, s: State, step: SenderStep)
    requires Shaped(c, s) && CoordinatorInv(c, s) && SenderEnabled(c, s, step) && !step.SendFrame?
    ensures var s' := SenderApply(c, s, step);
      Shaped(c, s') && CoordinatorInv(c, s') && SameTraffic(s, s')
  {
    if step.FreeSlot? {
      ReleaseDropsOldest(s.ring);
      FilledShrinks(c, ReleasedBySender(s), s.submitted);
    }
  }

  lemma QuietStepKeepsInv(c: Config, s: State, s': State)
    requires Inv(c, s)
    requires Shaped(c, s') && CoordinatorInv(c, s') && SameTraffic(s, s') && (s.broken ==> s'.broken)
    ensures Inv(c, s')
  {
    hide WorkerOk, FaultInv, CoordinatorInv, RingOk;
    QuietStepKeepsFaultInv(c, s, s');
    if Clean(s') {
      assert Clean(s);
      forall j | 0 <= j < c.Workers()
        ensures WorkerInv(c, s', j)
      {
        assert WorkerInv(c, s, j);
      }
    }
  }

  lemma SenderSendsInOrder(c: Config, s: State)
    requires Shaped(c, s) && CoordinatorInv(c, s) && s.sender.Sending?
    ensures s.ring.slots[s.ring.head] == Some(c.first + s.sent)
  {
    ReleaseDropsOldest(s.ring);
    FilledShrinks(c, ReleasedBySender(s), s.submitted);
  }

  /** A frame passes between the coordinator and the first worker. */
  lemma FrameStepKeepsInv(c: Config, s: State, s': State, w: Worker)
    requires Inv(c, s)
    requires s'.workers == s.workers[0 := w] && w.passed == s.workers[0].passed && s'.broken == s.broken && s.sent <= s'.sent
    requires Sound(w) <==> Sound(s.workers[0])
    requires Shaped(c, s') && CoordinatorInv(c, s') && s'.completed <= s'.sent
    requires FaultOk(w, 1 == c.Workers(), s'.sent, s'.completed, s.broken, c.first + s'.sent)
    requires Clean(s) ==> WorkerOk(c, 0, w, s'.sent, s'.completed)
    ensures Inv(c, s')
  {
    hide WorkerOk, FaultInv, FaultOk, CoordinatorInv, RingOk, Sound;
    FrameStepKeepsFaultInv(c, s, s', w);
    if Clean(s') {
      forall j | 0 <= j < c.Workers() ensures Sound(s.workers[j]) {
        assert Sound(s'.workers[j]);
      }
      forall j | 0 <= j < c.Workers()
        ensures WorkerInv(c, s', j)
      {
        if j != 0 {
          assert WorkerInv(c, s, j);
          assert FedTo(s', j) == FedTo(s, j) && DrainedFrom(s', j) == DrainedFrom(s, j);
        }
      }
    }
  }

  lemma SendKeepsInv(c: Config, s: State)
    requires Inv(c, s) && SenderEnabled(c, s, SendFrame)
    ensures Inv(c, SenderApply(c, s, SendFrame))
  {
    hide WorkerOk, FaultOk;
    var w, s' := s.workers[0], SenderApply(c, s, SendFrame);
    assert FaultInv(c, s, 0);
    SenderSendsInOrder(c, s);
    SendKeepsCoordinator(c, s);
    Weaken(w, 1 == c.Workers(), s.sent, s.completed, s.broken, c.first + s.sent, s.broken, c.first + s'.sent);
    FeedKeeps(w, 1 == c.Workers(), s.sent, s.completed, s.broken, c.first + s'.sent, c.first + s.sent);
    if Clean(s) {
      assert WorkerInv(c, s, 0);
      FeedKeepsWorker(c, 0, w, s.sent, s.completed);
    }
    FrameStepKeepsInv(c, s, s', Fed(w, c.first + s.sent));
  }

  lemma SendKeepsCoordinator(c: Config, s: State)
    requires Shaped(c, s) && CoordinatorInv(c, s) && SenderEnabled(c, s, SendFrame)
    ensures var s' := SenderApply(c, s, SendFrame);
      Shaped(c, s') && CoordinatorInv(c, s')
  {
  }

  lemma AcceptKeepsInv(c: Config, s: State)
    requires Inv(c, s) && ReaderEnabled(c, s, AcceptResult)
    ensures Inv(c, ReaderApply(c, s, AcceptResult))
  {
    hide WorkerOk, FaultOk;
    var w, s' := s.workers[0], ReaderApply(c, s, AcceptResult);
    assert FaultInv(c, s, 0);
    AcceptKeepsCoordinator(c, s);
    DrainKeeps(w, 1 == c.Workers(), s.sent, s.completed, s.broken, c.first + s.sent);
    if Clean(s) {
      assert WorkerInv(c, s, 0);
      DrainKeepsWorker(c, 0, w, s.sent, s.completed);
    }
    FrameStepKeepsInv(c, s, s', Drained(w));
  }

  lemma AcceptKeepsCoordinator(c: Config, s: State)
    requires Shaped(c, s) && CoordinatorInv(c, s) && ReaderEnabled(c, s, AcceptResult)
    ensures var s' := ReaderApply(c, s, AcceptResult);
      Shaped(c, s') && CoordinatorInv(c, s')
  {
  }

  lemma StepKeepsInv(c: Config, s: State, step: Step)
    requires Inv(c, s) && Enabled(c, s, step)
    ensures Inv(c, Apply(c, s, step))
  {
    match step
    case AtProducer(producing) =>
      ProducerStepKeepsInv(c, s, producing);
    case AtSender(sending) =>
      if sending.SendFrame? {
        SendKeepsInv(c, s);
      } else {
        SenderStepKeepsCoordinator(c, s, sending);
        QuietStepKeepsInv(c, s, Apply(c, s, step));
      }
    case AtReader(reading) =>
      if reading.AcceptResult? {
        AcceptKeepsInv(c, s);
      } else {
        QuietStepKeepsInv(c, s, Apply(c, s, step));
      }
    case AtWorker(k, action) => WorkerStepKeepsInv(c, s, k, action);
    case LinkBreaks => QuietStepKeepsInv(c, s, Apply(c, s, step));
  }
}
