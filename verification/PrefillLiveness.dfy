/** Pipelined prefill always finishes: whatever the interleaving and whatever fails, a run is
    bounded, and it can only stop once the call has returned.  Without failures it returns
    success, with every chunk's result accepted. */
module PrefillLiveness {
  import opened Wrappers
  import opened PrefillRing
  import opened PrefillPipeline
  import opened PrefillFaults
  import opened PrefillSafety

  // ------------------------------------------------------------------------------
  // Runs
  // ------------------------------------------------------------------------------

  ghost predicate Next(c: Config, s: State, step: Step, s': State) {
    Shaped(c, s) && Enabled(c, s, step) && s' == Apply(c, s, step)
  }

  ghost predicate IsRun(c: Config, states: seq<State>, steps: seq<Step>) {
    && c.Ok()
    && |states| == |steps| + 1
    && states[0] == Init(c)
    && forall i | 0 <= i < |steps| :: Next(c, states[i], steps[i], states[i + 1])
  }

  lemma {:induction false} RunKeepsInv(c: Config, states: seq<State>, steps: seq<Step>)
    requires IsRun(c, states, steps)
    ensures forall i | 0 <= i < |states| :: Inv(c, states[i])
  {
    if |steps| == 0 {
      InitInv(c);
    } else {
      var last := |steps| - 1;
      assert Next(c, states[last], steps[last], states[last + 1]);
      RunKeepsInv(c, states[..|steps|], steps[..last]);
      assert states[..|steps|][last] == states[last];
      StepKeepsInv(c, states[last], steps[last]);
      forall i | 0 <= i < |states| ensures Inv(c, states[i]) {
        if i < |steps| { assert states[..|steps|][i] == states[i]; }
      }
    }
  }

  // ------------------------------------------------------------------------------
  // Buffer discipline
  // ------------------------------------------------------------------------------

  /** What the buffers look like in every reachable state, failures included. */
  lemma BufferDiscipline(c: Config, states: seq<State>, steps: seq<Step>, i: nat)
    requires IsRun(c, states, steps) && i < |states|
    ensures var s := states[i];
      && Shaped(c, s)
      // at most a window of chunks is between submission and completion
      && s.completed <= s.submitted <= s.completed + c.window
      // the ring's indices agree with its count
      && s.ring.head < c.ringSlots && s.ring.tail < c.ringSlots && s.ring.queued <= c.ringSlots
      && s.ring.tail == (s.ring.head + s.ring.queued) % c.ringSlots
      // the sender transmits chunks in order, with contiguous request ids
      && (s.sender.Sending? ==> s.ring.slots[s.ring.head] == Some(c.first + s.sent))
      // the slot the producer is writing is not the one the sender is transmitting
      && (s.producer.EvalLocal? && (s.sender.Sending? || s.sender.Sent?) ==> s.ring.tail != s.ring.head)
      // as long as nothing failed, a relay that finds a result finds the request it announced first
      && (Clean(s) ==> forall k, told | 0 <= k < c.Workers() :: !WorkerEnabled(c, s.workers, s.broken, k, RelayFaults(told)))
  {
    RunKeepsInv(c, states, steps);
    var s := states[i];
    if s.sender.Sending? { SenderSendsInOrder(c, s); }
    if s.producer.EvalLocal? { FillKeepsQueue(s.ring, 0); }
    if Clean(s) {
      forall k, told | 0 <= k < c.Workers() ensures !WorkerEnabled(c, s.workers, s.broken, k, RelayFaults(told)) {
        RelayNeverFaults(c, s, k, told);
      }
    }
  }

  // ------------------------------------------------------------------------------
  // Deadlock freedom
  // ------------------------------------------------------------------------------

  /** Failures that nothing calls for: an evaluation goes wrong, a connection cannot be opened,
      a good result is rejected, or a socket is lost. */
  predicate IsSpontaneous(c: Config, s: State, step: Step) {
    match step
    case AtProducer(producing) => producing == EvalChunk(false)
    case AtSender(_) => false
    case AtReader(reading) =>
      && reading.RejectResult? && !s.broken
      && s.workers != [] && s.workers[0].outbox != [] && s.workers[0].outbox[0] == Some(c.first + s.completed)
    case AtWorker(k, action) =>
      action.LinkCut? || action.EvalFails? || (action.ForwarderFails? && k < |s.workers| && s.workers[k].relaying)
    case LinkBreaks => true
  }

  /** Nothing can move unless something else fails. */
  ghost predicate Stuck(c: Config, s: State)
    requires Shaped(c, s)
  {
    forall step | !IsSpontaneous(c, s, step) :: !Enabled(c, s, step)
  }

  ghost predicate Still(c: Config, s: State, k: nat)
    requires Shaped(c, s) && k < c.Workers()
  {
    forall action | !IsSpontaneous(c, s, AtWorker(k, action)) :: !WorkerEnabled(c, s.workers, s.broken, k, action)
  }

  lemma StuckMeansStill(c: Config, s: State, k: nat)
    requires Shaped(c, s) && Stuck(c, s) && k < c.Workers()
    ensures Still(c, s, k)
  {
    forall action | !IsSpontaneous(c, s, AtWorker(k, action))
      ensures !WorkerEnabled(c, s.workers, s.broken, k, action)
    {
      assert !Enabled(c, s, AtWorker(k, action));
    }
  }

  /** Losses and results travel towards the coordinator: if its socket is there and nothing is
      to be read from it, then every socket is there and no result is under way. */
  lemma {:induction false} NothingComesUp(c: Config, s: State, k: nat)
    requires Inv(c, s) && Stuck(c, s) && k < c.Workers()
    requires !s.broken && s.workers[0].outbox == []
    ensures !Cut(s.workers, s.broken, k) && s.workers[k].outbox == []
    ensures k + 1 < c.Workers() ==> s.workers[k].relay.None? && s.workers[k].relaying
  {
    hide RingOk, CoordinatorInv;
    if 0 < k {
      NothingComesUp(c, s, k - 1);
      StuckMeansStill(c, s, k - 1);
      assert !WorkerEnabled(c, s.workers, s.broken, k - 1, RelayEnds(false));
      assert !WorkerEnabled(c, s.workers, s.broken, k - 1, RelayTake);
      assert !WorkerEnabled(c, s.workers, s.broken, k - 1, RelayFaults(false));
    }
    StuckMeansStill(c, s, k);
    assert FaultInv(c, s, k);
    assert !WorkerEnabled(c, s.workers, s.broken, k, RelayWrite);
  }

  /** A worker that cannot move, and has nothing outstanding downstream, is empty. */
  lemma StuckWorkerIsEmpty(c: Config, s: State, k: nat)
    requires Inv(c, s) && k < c.Workers() && Still(c, s, k)
    requires !Cut(s.workers, s.broken, k) && s.workers[k].outbox == []
    requires k + 1 < c.Workers() ==>
      && s.workers[k].relay.None? && s.workers[k + 1].inbox == []
      && s.workers[k].passed.sent == s.workers[k].passed.taken
    ensures s.workers[k].inbox == []
    ensures FedTo(s, k) == DrainedFrom(s, k)
  {
    hide RingOk, CoordinatorInv, Known;
    var w := s.workers[k];
    assert FaultInv(c, s, k);
    assert !WorkerEnabled(c, s.workers, s.broken, k, Evaluate);
    assert !WorkerEnabled(c, s.workers, s.broken, k, SendResult);
    assert !WorkerEnabled(c, s.workers, s.broken, k, SendError);
    assert !WorkerEnabled(c, s.workers, s.broken, k, Forward);
    assert !WorkerEnabled(c, s.workers, s.broken, k, Track);
    assert w.eval.Idle?;
    assert !WorkerEnabled(c, s.workers, s.broken, k, PopJob);
    assert !WorkerEnabled(c, s.workers, s.broken, k, QueueJob);
    assert !WorkerEnabled(c, s.workers, s.broken, k, Receive);
  }

  lemma {:induction false} NoWorkUnderWay(c: Config, s: State, k: nat)
    requires Inv(c, s) && Stuck(c, s) && k < c.Workers()
    requires !s.broken && s.workers[0].outbox == []
    ensures s.workers[k].inbox == []
    ensures FedTo(s, k) == DrainedFrom(s, k)
    decreases c.Workers() - k
  {
    hide RingOk, CoordinatorInv, Known, Exact;
    NothingComesUp(c, s, k);
    if k + 1 < c.Workers() {
      NoWorkUnderWay(c, s, k + 1);
      assert FaultInv(c, s, k);
    }
    StuckMeansStill(c, s, k);
    StuckWorkerIsEmpty(c, s, k);
  }

  lemma StuckReader(c: Config, s: State)
    requires Inv(c, s) && Stuck(c, s)
    ensures s.readerDone || (!s.broken && s.workers[0].outbox == [])
  {
    assert !Enabled(c, s, AtReader(AcceptResult));
    if !IsSpontaneous(c, s, AtReader(RejectResult)) {
      assert !Enabled(c, s, AtReader(RejectResult));
    }
  }

  /** The sender can only wait for the producer, unless a socket towards the first worker
      is full while results still come back. */
  lemma StuckSender(c: Config, s: State)
    requires Inv(c, s) && Stuck(c, s)
    requires s.broken || s.workers[0].inbox == []
    ensures s.sender.SenderExited? || (s.sender.SenderIdle? && s.ring.queued == 0 && !s.ring.producerDone)
  {
    assert !Enabled(c, s, AtSender(PickSlot));
    assert !Enabled(c, s, AtSender(FreeSlot));
    if s.broken {
      assert !Enabled(c, s, AtSender(SendFails));
    } else {
      assert !Enabled(c, s, AtSender(SendFrame));
      if s.sender.Sending? { SenderSendsInOrder(c, s); }
    }
  }

  /** A reader that has accepted every result leaves nothing behind. */
  lemma AnsweredEverything(c: Config, s: State)
    requires Inv(c, s) && s.readerDone && !s.broken
    ensures s.workers[0].inbox == [] && s.workers[0].outbox == [] && s.sent == s.completed
  {
    hide Queue, Ids, Filled, Advance, RingOk, Known;
    assert FaultInv(c, s, 0);
  }

  /** The deadlock-freedom argument proper. */
  lemma StuckMeansReturned(c: Config, s: State)
    requires Inv(c, s) && Stuck(c, s)
    ensures s.producer.Returned?
  {
    hide FaultInv, WorkerInv;
    StuckReader(c, s);
    if s.readerDone && !s.broken {
      AnsweredEverything(c, s);
    } else if !s.broken {
      NoWorkUnderWay(c, s, 0);
    }
    StuckSender(c, s);
    StuckProducer(c, s);
  }

  lemma StuckProducer(c: Config, s: State)
    requires Inv(c, s) && Stuck(c, s)
    requires s.sender.SenderExited? || (s.sender.SenderIdle? && s.ring.queued == 0 && !s.ring.producerDone)
    requires s.readerDone || (!s.broken && s.sent == s.completed)
    ensures s.producer.Returned?
  {
    assert !Enabled(c, s, AtProducer(WaitWindow));
    assert !Enabled(c, s, AtProducer(TakeSlot));
    assert !Enabled(c, s, AtProducer(EvalChunk(true)));
    assert !Enabled(c, s, AtProducer(PutChunk));
    assert !Enabled(c, s, AtProducer(Finished));
    assert !Enabled(c, s, AtProducer(Cancelled));
    assert !Enabled(c, s, AtProducer(JoinedSender));
    assert !Enabled(c, s, AtProducer(JoinedReader));
  }

  // ------------------------------------------------------------------------------
  // Termination
  // ------------------------------------------------------------------------------

  function ProducerProgress(c: Config, producer: ProducerAt, submitted: nat): nat {
    match producer
    case AwaitWindow => 4 * submitted
    case AwaitSlot => 4 * submitted + 1
    case EvalLocal => 4 * submitted + 2
    case EnqueueChunk => 4 * submitted + 3
    case FinishSender => 4 * c.count + 1
    case CancelSender => 4 * c.count + 1
    case JoinSender => 4 * c.count + 2
    case JoinReader => 4 * c.count + 3
    case Returned => 4 * c.count + 4
  }

  function SenderProgress(c: Config, sender: SenderAt, released: int): int {
    match sender
    case SenderIdle => 3 * released
    case Sending => 3 * released + 1
    case Sent => 3 * released + 2
    case SenderExited => 3 * c.count + 3
  }

  function ReaderProgress(completed: nat, done: bool, broken: bool): nat {
    completed + (if done then 1 else 0) + (if broken then 1 else 0)
  }

  function CoordinatorProgress(c: Config, s: State): int {
    ProducerProgress(c, s.producer, s.submitted) + SenderProgress(c, s.sender, ReleasedBySender(s)) +
    ReaderProgress(s.completed, s.readerDone, s.broken)
  }

  /** Work done so far; each summand only grows. */
  function WorkerProgress(workers: seq<Worker>): nat {
    if workers == [] then 0 else workers[0].Work() + WorkerProgress(workers[1..])
  }

  function Progress(c: Config, s: State): int {
    CoordinatorProgress(c, s) + WorkerProgress(s.workers)
  }

  function WorkerBound(c: Config, workers: nat): nat {
    if workers == 0 then 0 else 10 * c.count + 5 + WorkerBound(c, workers - 1)
  }

  function Bound(c: Config): nat {
    8 * c.count + 9 + WorkerBound(c, c.Workers())
  }

  lemma {:induction false} UpdateProgress(workers: seq<Worker>, k: nat, w: Worker)
    requires k < |workers|
    ensures WorkerProgress(workers[k := w]) == WorkerProgress(workers) - workers[k].Work() + w.Work()
  {
    if k == 0 {
      assert workers[k := w][1..] == workers[1..];
    } else {
      assert workers[k := w][1..] == workers[1..][k - 1 := w];
      UpdateProgress(workers[1..], k - 1, w);
    }
  }

  /** Nothing overtakes inside a worker. */
  lemma WorkIsBounded(w: Worker, fed: nat, count: nat)
    requires Counted(w, fed) && fed <= count
    ensures w.Work() <= 10 * count + 5 && w.passed.sent <= count
  {
  }

  /** Each station has let through at most the chunks sent. */
  lemma {:induction false} StationsBounded(c: Config, s: State, k: nat)
    requires Inv(c, s) && k < c.Workers()
    ensures s.workers[k].Work() <= 10 * c.count + 5
    ensures s.workers[k].passed.sent <= c.count
  {
    hide Queue, Ids, Filled, Advance, RingOk, Known, Exact, Counted;
    assert FaultInv(c, s, k);
    if 0 < k {
      StationsBounded(c, s, k - 1);
    }
    WorkIsBounded(s.workers[k], FedTo(s, k), c.count);
  }

  lemma {:induction false} WorkersBounded(c: Config, s: State, k: nat)
    requires Inv(c, s) && k <= c.Workers()
    ensures WorkerProgress(s.workers[k..]) <= WorkerBound(c, c.Workers() - k)
    decreases c.Workers() - k
  {
    if k < c.Workers() {
      StationsBounded(c, s, k);
      WorkersBounded(c, s, k + 1);
      assert s.workers[k..][1..] == s.workers[k + 1..];
    }
  }

  lemma ProgressBounded(c: Config, s: State)
    requires Inv(c, s)
    ensures 0 <= Progress(c, s) <= Bound(c)
  {
    hide WorkerInv, FaultInv, Queue, Ids, Filled, Advance, RingOk, WorkerProgress, WorkerBound;
    WorkersBounded(c, s, 0);
    assert s.workers[0..] == s.workers;
  }

  lemma LocalStepWorks(c: Config, workers: seq<Worker>, broken: bool, k: nat, action: WorkerStep)
    requires c.Ok() && |workers| == c.Workers() && k < c.Workers()
    requires WorkerEnabled(c, workers, broken, k, action) && IsLocal(action)
    requires workers[k].relay.Some? ==> workers[k].relaying
    ensures workers[k].Work() < LocalApply(c, workers, broken, k, action).Work()
  {
  }

  lemma PairProgress(workers: seq<Worker>, k: nat, w: Worker, next: Worker)
    requires k + 1 < |workers|
    requires workers[k].Work() + workers[k + 1].Work() < w.Work() + next.Work()
    ensures WorkerProgress(workers) < WorkerProgress(workers[k := w][k + 1 := next])
  {
    hide WorkerProgress;
    UpdateProgress(workers, k, w);
    UpdateProgress(workers[k := w], k + 1, next);
  }

  lemma ForwardWorks(w: Worker, next: Worker)
    requires w.eval.Tracked?
    ensures w.Work() < ForwardedJob(w).Work() && Fed(next, w.eval.r).Work() == next.Work()
  {
  }

  lemma TakeWorks(w: Worker, next: Worker)
    requires w.pending != [] && next.outbox != []
    ensures w.Work() < RelayTook(w, next.outbox[0]).Work() && Drained(next).Work() == next.Work()
  {
  }

  lemma FaultWorks(w: Worker, next: Worker, told: bool)
    requires w.relaying && next.outbox != []
    ensures w.Work() < RelayFaulted(w, told).Work() && Drained(next).Work() == next.Work()
  {
  }

  lemma TeardownWorks(w: Worker, next: Worker)
    requires !next.cut
    ensures w.Work() <= EvaluatorEnded(w).Work() && next.Work() < next.(cut := true).Work()
  {
  }

  lemma LocalStepAdvances(c: Config, s: State, k: nat, action: WorkerStep)
    requires Inv(c, s) && Enabled(c, s, AtWorker(k, action)) && IsLocal(action)
    ensures WorkerProgress(s.workers) < WorkerProgress(WorkerApply(c, s.workers, s.broken, k, action))
  {
    hide WorkerProgress, CoordinatorInv, RingOk, LocalApply, Counted, Exact, Known, WorkerEnabled, WorkerApply;
    assert FaultInv(c, s, k);
    LocalStepWorks(c, s.workers, s.broken, k, action);
    LocalStepIsLocal(c, s.workers, s.broken, k, action);
    UpdateProgress(s.workers, k, LocalApply(c, s.workers, s.broken, k, action));
  }

  lemma PairStepAdvances(c: Config, workers: seq<Worker>, broken: bool, k: nat, action: WorkerStep)
    requires c.Ok() && |workers| == c.Workers() && k < c.Workers()
    requires WorkerEnabled(c, workers, broken, k, action) && !IsLocal(action)
    ensures WorkerProgress(workers) < WorkerProgress(WorkerApply(c, workers, broken, k, action))
  {
    hide WorkerProgress, ForwardedJob, Fed, RelayTook, Drained, RelayFaulted, EvaluatorEnded, LocalApply, Worker.Work;
    var w, next := workers[k], workers[k + 1];
    match action
    case Forward =>
      ForwardWorks(w, next);
      PairProgress(workers, k, ForwardedJob(w), Fed(next, w.eval.r));
    case RelayTake =>
      TakeWorks(w, next);
      PairProgress(workers, k, RelayTook(w, next.outbox[0]), Drained(next));
    case RelayFaults(told) =>
      FaultWorks(w, next, told);
      PairProgress(workers, k, RelayFaulted(w, told), Drained(next));
    case Teardown =>
      TeardownWorks(w, next);
      PairProgress(workers, k, EvaluatorEnded(w), next.(cut := true));
  }

  lemma WorkerStepAdvances(c: Config, s: State, k: nat, action: WorkerStep)
    requires Inv(c, s) && Enabled(c, s, AtWorker(k, action))
    ensures WorkerProgress(s.workers) < WorkerProgress(WorkerApply(c, s.workers, s.broken, k, action))
  {
    hide FaultInv, CoordinatorInv, RingOk;
    if IsLocal(action) {
      LocalStepAdvances(c, s, k, action);
    } else {
      PairStepAdvances(c, s.workers, s.broken, k, action);
    }
  }

  predicate StaysInLoop(step: ProducerStep) {
    step.TakeSlot? || step.EvalChunk? || step.PutChunk?
  }

  lemma InLoopHasMore(c: Config, s: State)
    requires Shaped(c, s) && CoordinatorInv(c, s)
    ensures s.producer.AwaitSlot? || s.producer.EvalLocal? || s.producer.EnqueueChunk? ==> s.submitted < c.count
  {
    hide Queue, Ids, Filled, Advance;
  }

  /** Where a step inside the loop leads, and that the other threads do not notice. */
  lemma LoopStepLeads(c: Config, s: State, step: ProducerStep)
    requires Shaped(c, s) && ProducerEnabled(c, s, step) && StaysInLoop(step)
    ensures var t := ProducerApply(c, s, step);
            && t.workers == s.workers && t.sender == s.sender && ReleasedBySender(t) == ReleasedBySender(s)
            && t.completed == s.completed && t.readerDone == s.readerDone && t.broken == s.broken
            && LoopMove(s.producer, s.submitted, t.producer, t.submitted)
  {
    hide Queue, Advance, RingOk;
  }

  predicate LoopMove(from: ProducerAt, before: nat, to: ProducerAt, after: nat) {
    || ((from.AwaitSlot? || from.EvalLocal? || from.EnqueueChunk?) && to.CancelSender? && after == before)
    || (from.AwaitSlot? && to.EvalLocal? && after == before)
    || (from.EvalLocal? && to.EnqueueChunk? && after == before)
    || (from.EnqueueChunk? && to.AwaitWindow? && after == before + 1)
  }

  lemma LoopMoveAdvances(c: Config, from: ProducerAt, before: nat, to: ProducerAt, after: nat)
    requires LoopMove(from, before, to, after) && before < c.count
    ensures ProducerProgress(c, to, after) > ProducerProgress(c, from, before)
  {
  }

  lemma LoopStepAdvances(c: Config, s: State, step: ProducerStep)
    requires Shaped(c, s) && ProducerEnabled(c, s, step) && StaysInLoop(step) && s.submitted < c.count
    ensures CoordinatorProgress(c, ProducerApply(c, s, step)) > CoordinatorProgress(c, s)
    ensures ProducerApply(c, s, step).workers == s.workers
  {
    hide ProducerApply, ProducerEnabled, ProducerProgress, SenderProgress, ReaderProgress, LoopMove, Shaped;
    LoopStepLeads(c, s, step);
    var t := ProducerApply(c, s, step);
    LoopMoveAdvances(c, s.producer, s.submitted, t.producer, t.submitted);
  }

  lemma OtherStepAdvances(c: Config, s: State, step: ProducerStep)
    requires Shaped(c, s) && CoordinatorInv(c, s) && ProducerEnabled(c, s, step) && !StaysInLoop(step)
    ensures CoordinatorProgress(c, ProducerApply(c, s, step)) > CoordinatorProgress(c, s)
    ensures ProducerApply(c, s, step).workers == s.workers
  {
    hide Queue, Ids, Filled, Advance, WorkerProgress;
  }

  lemma ProducerStepAdvances(c: Config, s: State, step: ProducerStep)
    requires Shaped(c, s) && CoordinatorInv(c, s) && ProducerEnabled(c, s, step)
    ensures CoordinatorProgress(c, ProducerApply(c, s, step)) > CoordinatorProgress(c, s)
    ensures ProducerApply(c, s, step).workers == s.workers
  {
    hide ProducerApply, CoordinatorProgress, CoordinatorInv;
    if StaysInLoop(step) {
      InLoopHasMore(c, s);
      LoopStepAdvances(c, s, step);
    } else {
      OtherStepAdvances(c, s, step);
    }
  }

  lemma SenderStepAdvances(c: Config, s: State, step: SenderStep)
    requires Shaped(c, s) && CoordinatorInv(c, s) && SenderEnabled(c, s, step)
    ensures CoordinatorProgress(c, SenderApply(c, s, step)) > CoordinatorProgress(c, s)
    ensures WorkerProgress(SenderApply(c, s, step).workers) == WorkerProgress(s.workers)
  {
    hide Queue, Ids, Filled, Advance, WorkerProgress;
    if step.SendFrame? {
      UpdateProgress(s.workers, 0, Fed(s.workers[0], s.ring.slots[s.ring.head].value));
    }
  }

  lemma ReaderStepAdvances(c: Config, s: State, step: ReaderStep)
    requires Shaped(c, s) && CoordinatorInv(c, s) && ReaderEnabled(c, s, step)
    ensures CoordinatorProgress(c, ReaderApply(c, s, step)) > CoordinatorProgress(c, s)
    ensures WorkerProgress(ReaderApply(c, s, step).workers) == WorkerProgress(s.workers)
  {
    hide Queue, Ids, Filled, Advance, WorkerProgress;
    if step.AcceptResult? {
      UpdateProgress(s.workers, 0, Drained(s.workers[0]));
    }
  }

  lemma WorkersLeaveCoordinator(c: Config, s: State, workers: seq<Worker>, broken: bool)
    requires s.broken ==> broken
    ensures CoordinatorProgress(c, s.(workers := workers, broken := broken)) >=
            CoordinatorProgress(c, s) + (if broken && !s.broken then 1 else 0)
  {
  }

  lemma StepAdvances(c: Config, s: State, step: Step)
    requires Inv(c, s) && Enabled(c, s, step)
    ensures Progress(c, Apply(c, s, step)) > Progress(c, s)
  {
    hide ProducerApply, SenderApply, ReaderApply, WorkerApply, WorkerProgress, CoordinatorProgress, CoordinatorInv,
      ProducerEnabled, SenderEnabled, ReaderEnabled, WorkerEnabled, WorkerInv, RingOk;
    match step
    case AtProducer(producing) => ProducerStepAdvances(c, s, producing);
    case AtSender(sending) => SenderStepAdvances(c, s, sending);
    case AtReader(reading) => ReaderStepAdvances(c, s, reading);
    case AtWorker(k, action) =>
      WorkerStepAdvances(c, s, k, action);
      WorkersLeaveCoordinator(c, s, WorkerApply(c, s.workers, s.broken, k, action), s.broken || (k == 0 && CutsUpstream(action)));
    case LinkBreaks =>
      WorkersLeaveCoordinator(c, s, s.workers, true);
      assert s.(broken := true) == s.(workers := s.workers, broken := true);
  }

  lemma {:induction false} RunAdvances(c: Config, states: seq<State>, steps: seq<Step>, i: nat)
    requires IsRun(c, states, steps) && i <= |steps|
    ensures i <= Progress(c, states[i])
  {
    hide Apply, Enabled, Progress, Inv;
    RunKeepsInv(c, states, steps);
    if i == 0 {
      ProgressBounded(c, states[0]);
    } else {
      RunAdvances(c, states, steps, i - 1);
      assert Next(c, states[i - 1], steps[i - 1], states[i]);
      StepAdvances(c, states[i - 1], steps[i - 1]);
    }
  }

  // ------------------------------------------------------------------------------
  // Main results
  // ------------------------------------------------------------------------------

  /** No interleaving runs forever. */
  lemma EveryRunIsBounded(c: Config, states: seq<State>, steps: seq<Step>)
    requires IsRun(c, states, steps)
    ensures |steps| <= Bound(c)
  {
    RunKeepsInv(c, states, steps);
    RunAdvances(c, states, steps, |steps|);
    ProgressBounded(c, states[|steps|]);
  }

  /** No interleaving deadlocks, whatever failed before: until the call has returned, some
      thread can move without anything else failing. */
  lemma NoDeadlock(c: Config, states: seq<State>, steps: seq<Step>)
    requires IsRun(c, states, steps)
    ensures Inv(c, states[|steps|])
    ensures states[|steps|].producer.Returned?
      || exists step :: !IsSpontaneous(c, states[|steps|], step) && Enabled(c, states[|steps|], step)
  {
    RunKeepsInv(c, states, steps);
    if Stuck(c, states[|steps|]) {
      StuckMeansReturned(c, states[|steps|]);
    }
  }

  ghost predicate FailureFree(steps: seq<Step>) {
    forall i | 0 <= i < |steps| :: !IsFailure(steps[i])
  }

  ghost predicate Healthy(s: State) {
    !s.broken && !s.failed && !s.producer.CancelSender? && Clean(s)
  }

  lemma RegularStepStaysClean(c: Config, s: State, k: nat, action: WorkerStep)
    requires Shaped(c, s) && Enabled(c, s, AtWorker(k, action)) && Clean(s) && IsRegular(action)
    ensures Clean(Apply(c, s, AtWorker(k, action)))
  {
    hide RingOk;
    assert Sound(s.workers[k]);
    var after := Apply(c, s, AtWorker(k, action)).workers;
    forall j | 0 <= j < c.Workers() ensures Sound(after[j]) {
      assert Sound(s.workers[j]);
    }
  }

  lemma FrameStepStaysClean(s: State, workers: seq<Worker>, w: Worker)
    requires Clean(s) && s.workers != [] && workers == s.workers[0 := w] && Sound(w)
    ensures Clean(s.(workers := workers))
  {
    hide Sound;
  }

  lemma StepStaysHealthy(c: Config, s: State, step: Step)
    requires Inv(c, s) && Enabled(c, s, step) && Healthy(s) && !IsFailure(step)
    ensures Healthy(Apply(c, s, step))
  {
    hide Clean, FaultInv, WorkerOk;
    match step
    case AtWorker(k, action) => RegularStepStaysClean(c, s, k, action);
    case AtSender(sending) =>
      if sending.SendFrame? {
        CleanIsSound(s, 0);
        FrameStepStaysClean(s, Apply(c, s, step).workers, Fed(s.workers[0], s.ring.slots[s.ring.head].value));
        SameClean(s.(workers := Apply(c, s, step).workers), Apply(c, s, step));
      } else {
        SameClean(s, Apply(c, s, step));
      }
    case AtReader(reading) =>
      CleanIsSound(s, 0);
      FrameStepStaysClean(s, Apply(c, s, step).workers, Drained(s.workers[0]));
      SameClean(s.(workers := Apply(c, s, step).workers), Apply(c, s, step));
    case AtProducer(producing) => SameClean(s, Apply(c, s, step));
  }

  lemma CleanIsSound(s: State, k: nat)
    requires Clean(s) && k < |s.workers|
    ensures Sound(s.workers[k])
  {
  }

  lemma SameClean(s: State, s': State)
    requires Clean(s) && s'.workers == s.workers
    ensures Clean(s')
  {
    hide Sound;
  }

  /** In a healthy state only spontaneous failures are possible. */
  lemma HealthyHasNoFailure(c: Config, s: State, step: Step)
    requires Inv(c, s) && Healthy(s) && Enabled(c, s, step) && !IsSpontaneous(c, s, step)
    ensures !IsFailure(step)
  {
    match step
    case AtReader(reading) =>
      if reading.RejectResult? {
        assert WorkerInv(c, s, 0);
        DrainKeepsWorker(c, 0, s.workers[0], s.sent, s.completed);
      }
    case AtWorker(k, action) =>
      SoundHasNoFailure(c, s, k, action);
    case _ =>
  }

  lemma SoundHasNoFailure(c: Config, s: State, k: nat, action: WorkerStep)
    requires Inv(c, s) && Healthy(s) && Enabled(c, s, AtWorker(k, action)) && !IsSpontaneous(c, s, AtWorker(k, action))
    ensures IsRegular(action)
  {
    hide CoordinatorInv, RingOk, FaultInv, WorkerOk;
    assert Sound(s.workers[k]);
    if k + 1 < c.Workers() { assert Sound(s.workers[k + 1]); }
    if action.RelayFaults? { RelayNeverFaults(c, s, k, action.told); }
  }

  lemma {:induction false} FailureFreeStaysHealthy(c: Config, states: seq<State>, steps: seq<Step>, i: nat)
    requires IsRun(c, states, steps) && FailureFree(steps) && i <= |steps|
    ensures Healthy(states[i])
  {
    if 0 < i {
      RunKeepsInv(c, states, steps);
      FailureFreeStaysHealthy(c, states, steps, i - 1);
      assert Next(c, states[i - 1], steps[i - 1], states[i]);
      StepStaysHealthy(c, states[i - 1], steps[i - 1]);
    }
  }

  /** A worker through which every chunk has gone, both ways. */
  ghost predicate Emptied(c: Config, w: Worker) {
    && w.inbox == [] && w.held.None? && w.jobs == [] && w.eval.Idle?
    && w.pending == [] && w.relay.None? && w.outbox == []
    && w.passed.evaluated == c.count
  }

  lemma AllSent(c: Config, s: State)
    requires Inv(c, s) && s.completed == c.count
    ensures s.sent == c.count
  {
    hide FaultInv, WorkerInv, Queue, Ids, Filled, Advance;
  }

  /** A worker that was fed every chunk and has answered every one. */
  lemma AnsweredWorker(c: Config, k: nat, w: Worker)
    requires c.Ok() && k < c.Workers() && WorkerOk(c, k, w, c.count, c.count)
    ensures w.passed.sent == c.count && (k + 1 < c.Workers() ==> w.passed.taken == c.count && w.passed.faulted == 0)
    ensures Emptied(c, w)
  {
  }

  /** From a state in which every result was accepted, look down the route. */
  lemma {:induction false} EverythingWentThrough(c: Config, s: State, k: nat)
    requires Inv(c, s) && Clean(s) && k < c.Workers()
    requires s.completed == c.count
    ensures FedTo(s, k) == DrainedFrom(s, k) == c.count
    ensures Emptied(c, s.workers[k])
  {
    hide CoordinatorInv, FaultInv, WorkerOk, RingOk, Emptied;
    AllSent(c, s);
    if 0 < k {
      EverythingWentThrough(c, s, k - 1);
      assert WorkerInv(c, s, k - 1);
      AnsweredWorker(c, k - 1, s.workers[k - 1]);
    }
    assert WorkerInv(c, s, k);
    AnsweredWorker(c, k, s.workers[k]);
  }

  /** The failure-free theorem: a run without failures can always be continued without
      failures until the call has returned, and then it returned success, every result was
      accepted in order, and every worker evaluated every chunk and holds nothing back. */
  lemma FailureFreeRunFinishes(c: Config, states: seq<State>, steps: seq<Step>)
    requires IsRun(c, states, steps) && FailureFree(steps)
    ensures Inv(c, states[|steps|])
    ensures var s := states[|steps|];
      if s.producer.Returned? then
        !s.failed && s.submitted == s.completed == c.count && forall k | 0 <= k < c.Workers() :: Emptied(c, s.workers[k])
      else
        exists step :: Enabled(c, s, step) && !IsFailure(step)
  {
    var s := states[|steps|];
    NoDeadlock(c, states, steps);
    FailureFreeStaysHealthy(c, states, steps, |steps|);
    if s.producer.Returned? {
      forall k | 0 <= k < c.Workers() ensures Emptied(c, s.workers[k]) {
        EverythingWentThrough(c, s, k);
      }
    } else {
      var step :| !IsSpontaneous(c, s, step) && Enabled(c, s, step);
      HealthyHasNoFailure(c, s, step);
    }
  }
}
