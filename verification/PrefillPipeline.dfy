/** Pipelined prefill as a state machine: one step per critical section of the producer,
    the sender, the result reader and each worker's receiver, evaluator and relay.

    Every channel is a bounded FIFO of whole frames.  A WORK frame is named by its request id;
    a RESULT frame by the request it answers, or by nothing when it reports an error.  What the
    frames carry is the business of the Acceptance module.

    Anything may fail: evaluations, connections to the next worker, and every socket.  A thread
    that finds its socket shut down ends, and shuts down the next one on its way out. */
module PrefillPipeline {
  import opened Wrappers
  import opened PrefillRing

  /** Everything that tunables and the route fix before the first chunk is sent. */
  datatype Config = Config(
    first: nat,                   // request id of chunk 0
    count: nat,                   // number of chunks
    window: nat,                  // flow window of the producer
    ringSlots: nat,
    jobDepth: seq<nat>,           // receive prefetch depth of each worker
    forwardWindow: seq<nat>,      // pending requests each worker may have downstream
    inboxFrames: seq<nat>,        // frames the socket towards each worker buffers
    outboxFrames: seq<nat>)       // frames the socket back from each worker buffers
  {
    ghost predicate Ok() {
      && 0 < count && 0 < window && 0 < ringSlots
      && 0 < |jobDepth| == |forwardWindow| == |inboxFrames| == |outboxFrames|
      && (forall k | 0 <= k < |jobDepth| :: 0 < jobDepth[k])
      && (forall k | 0 <= k < |jobDepth| :: 0 < forwardWindow[k])
      && (forall k | 0 <= k < |jobDepth| :: 0 < inboxFrames[k])
      && (forall k | 0 <= k < |jobDepth| :: 0 < outboxFrames[k])
    }

    function Workers(): nat { |jobDepth| }
  }

  datatype Evaluator = Idle | Running(r: nat) | Evaluated(r: nat) | Tracked(r: nat) | Failing | Ended

  /** How many requests have passed each station of a worker. */
  datatype Passed = Passed(
    received: nat, queued: nat, popped: nat, evaluated: nat,
    tracked: nat, sent: nat, taken: nat, relayed: nat,
    failed: nat,                  // jobs that ended in an error
    told: nat,                    // errors reported by the evaluator
    faulted: nat)                 // unexpected results read by the relay
  {
    function Sum(): nat {
      received + queued + popped + evaluated + tracked + sent + taken + relayed + failed + told + faulted
    }
  }

  datatype Worker = Worker(
    inbox: seq<nat>,              // WORK frames on the socket towards this worker
    held: Option<nat>,            // read by the receiver, not yet queued
    jobs: seq<nat>,
    eval: Evaluator,
    pending: seq<nat>,            // requests the forwarder expects results for
    relay: Option<Option<nat>>,   // result popped by the relay, not yet written upstream
    outbox: seq<Option<nat>>,     // RESULT frames on the socket back from this worker
    passed: Passed,
    reading: bool,                // the receiver thread runs
    relaying: bool,               // the relay thread runs, and its queue is open
    cut: bool)                    // the socket towards its upstream is shut down
  {
    /** Work done and threads or sockets lost; no step lowers it. */
    function Work(): nat {
      passed.Sum() + (if reading then 0 else 1) + (if relaying then 0 else 1) + (if cut then 1 else 0) +
      (if eval.Ended? then 1 else 0)
    }
  }

  datatype ProducerAt =
    | AwaitWindow | AwaitSlot | EvalLocal | EnqueueChunk
    | FinishSender | CancelSender | JoinSender | JoinReader | Returned

  datatype SenderAt = SenderIdle | Sending | Sent | SenderExited

  datatype State = State(
    ring: Ring,
    producer: ProducerAt,
    submitted: nat,
    failed: bool,                 // the return code of the whole call
    sender: SenderAt,
    sent: nat,                    // frames written to the first hop
    senderFailed: bool,
    completed: nat,               // progress_completed
    readerDone: bool,             // progress_done, set as the reader thread ends
    readerFailed: bool,
    broken: bool,                 // the first-hop socket is shut down
    workers: seq<Worker>)

  datatype WorkerStep =
    | Receive | QueueJob | PopJob | Evaluate | SendResult | Track | Forward
    | RelayTake | RelayWrite
    // an evaluation fails, or there is no way to the next worker; the error is reported
    | EvalFails | ForwarderFails | SendError | ForwardFails(told: bool)
    // the relay meets an unexpected result, the end of its socket, or cannot write upstream
    | RelayFaults(told: bool) | RelayEnds(told: bool) | RelayGivesUp
    // a socket is lost, and the other threads of the worker end
    | LinkCut | EvaluatorEnds | ReceiverEnds(cancels: bool) | Teardown

  datatype ProducerStep = WaitWindow | TakeSlot | EvalChunk(ok: bool) | PutChunk | Finished | Cancelled | JoinedSender | JoinedReader

  datatype SenderStep = PickSlot | SendFrame | SendFails | FreeSlot

  datatype ReaderStep = AcceptResult | RejectResult

  datatype Step =
    | AtProducer(producing: ProducerStep)
    | AtSender(sending: SenderStep)
    | AtReader(reading: ReaderStep)
    | AtWorker(k: nat, action: WorkerStep)
    | LinkBreaks

  const FreshWorker: Worker :=
    Worker([], None, [], Idle, [], None, [], Passed(0, 0, 0, 0, 0, 0, 0, 0, 0, 0, 0), true, true, false)

  function Init(c: Config): State
    requires c.Ok()
  {
    State(InitRing(c.ringSlots), AwaitWindow, 0, false, SenderIdle, 0, false,
          0, false, false, false, seq(c.Workers(), _ => FreshWorker))
  }

  // ------------------------------------------------------------------------------
  // Steps
  // ------------------------------------------------------------------------------

  ghost predicate Shaped(c: Config, s: State) {
    && c.Ok()
    && RingOk(s.ring) && |s.ring.slots| == c.ringSlots
    && |s.workers| == c.Workers()
  }

  /** The socket between worker k and its upstream is shut down. */
  predicate Cut(workers: seq<Worker>, broken: bool, k: nat)
    requires k < |workers|
  {
    if k == 0 then broken else workers[k].cut
  }

  /** The relay finds the result it expects next, or an error. */
  predicate Expected(w: Worker, next: Worker) {
    && w.pending != [] && next.outbox != []
    && (next.outbox[0].None? || next.outbox[0] == Some(w.pending[0]))
  }

  /** ... or something else; an error may be about another request. */
  predicate Unexpected(w: Worker, next: Worker) {
    next.outbox != [] && (w.pending == [] || next.outbox[0] != Some(w.pending[0]))
  }

  /** An error can only be reported upstream where there is room for it. */
  predicate Room(c: Config, k: nat, w: Worker, told: bool)
    requires c.Ok() && k < c.Workers()
  {
    told ==> |w.outbox| < c.outboxFrames[k]
  }

  /** A relay that ends reports the oldest pending request, if there is one. */
  predicate Reports(c: Config, k: nat, w: Worker, told: bool)
    requires c.Ok() && k < c.Workers()
  {
    Room(c, k, w, told) && (told ==> w.pending != [])
  }

  /** What worker k can do, given the state of its sockets. */
  ghost predicate WorkerEnabled(c: Config, workers: seq<Worker>, broken: bool, k: nat, action: WorkerStep)
    requires c.Ok() && |workers| == c.Workers() && k < c.Workers()
  {
    var w, last := workers[k], k + 1 == c.Workers();
    match action
    case Receive => w.reading && w.inbox != [] && w.held.None?
    case QueueJob => w.held.Some? && |w.jobs| < c.jobDepth[k]
    case PopJob => w.eval.Idle? && w.jobs != []
    case Evaluate => w.eval.Running?
    case SendResult => last && w.eval.Evaluated? && |w.outbox| < c.outboxFrames[k]
    case Track => !last && w.eval.Evaluated? && w.relaying && |w.pending| < c.forwardWindow[k]
    case Forward => !last && w.eval.Tracked? && |workers[k + 1].inbox| < c.inboxFrames[k + 1]
    case RelayTake => !last && w.relaying && w.relay.None? && Expected(w, workers[k + 1])
    case RelayWrite => !last && w.relay.Some? && |w.outbox| < c.outboxFrames[k]
    case EvalFails => w.eval.Running?
    case ForwarderFails => !last && w.eval.Evaluated?
    case SendError => w.eval.Failing? && |w.outbox| < c.outboxFrames[k]
    case ForwardFails(told) => !last && w.eval.Tracked? && workers[k + 1].cut && Room(c, k, w, told)
    case RelayFaults(told) => !last && w.relaying && w.relay.None? && Unexpected(w, workers[k + 1]) && Reports(c, k, w, told)
    case RelayEnds(told) => !last && w.relaying && w.relay.None? && workers[k + 1].cut && Reports(c, k, w, told)
    case RelayGivesUp => !last && w.relay.Some? && Cut(workers, broken, k)
    case LinkCut => 0 < k && !w.cut
    case EvaluatorEnds => Cut(workers, broken, k) && (w.eval.Failing? || (last && w.eval.Evaluated?))
    case ReceiverEnds(_) => w.reading && (if w.held.None? then Cut(workers, broken, k) else w.eval.Ended?)
    case Teardown => !last && !w.reading && (w.eval.Ended? || (w.eval.Idle? && w.jobs == [])) && !workers[k + 1].cut
  }

  ghost predicate ProducerEnabled(c: Config, s: State, step: ProducerStep) {
    match step
    case WaitWindow =>
      && s.producer.AwaitWindow?
      && (s.submitted == c.count || s.readerDone || s.submitted < s.completed + c.window)
    case TakeSlot => s.producer.AwaitSlot? && (s.ring.stop || s.ring.queued < c.ringSlots)
    case EvalChunk(_) => s.producer.EvalLocal?
    case PutChunk => s.producer.EnqueueChunk?
    case Finished => s.producer.FinishSender?
    case Cancelled => s.producer.CancelSender?
    case JoinedSender => s.producer.JoinSender? && s.sender.SenderExited?
    case JoinedReader => s.producer.JoinReader? && s.readerDone
  }

  ghost predicate SenderEnabled(c: Config, s: State, step: SenderStep)
    requires Shaped(c, s)
  {
    match step
    case PickSlot => s.sender.SenderIdle? && (s.ring.stop || 0 < s.ring.queued || s.ring.producerDone)
    case SendFrame =>
      && s.sender.Sending? && !s.broken && |s.workers[0].inbox| < c.inboxFrames[0]
      && s.ring.slots[s.ring.head].Some?
    case SendFails => s.sender.Sending? && s.broken
    case FreeSlot => s.sender.Sent? && 0 < s.ring.queued
  }

  ghost predicate ReaderEnabled(c: Config, s: State, step: ReaderStep)
    requires Shaped(c, s)
  {
    match step
    case AcceptResult =>
      && !s.readerDone && s.workers[0].outbox != []
      && s.workers[0].outbox[0] == Some(c.first + s.completed)
    case RejectResult => !s.readerDone && (s.broken || s.workers[0].outbox != [])
  }

  ghost predicate Enabled(c: Config, s: State, step: Step)
    requires Shaped(c, s)
  {
    match step
    case AtProducer(producing) => ProducerEnabled(c, s, producing)
    case AtSender(sending) => SenderEnabled(c, s, sending)
    case AtReader(reading) => ReaderEnabled(c, s, reading)
    case AtWorker(k, action) => k < c.Workers() && WorkerEnabled(c, s.workers, s.broken, k, action)
    case LinkBreaks => !s.broken
  }

  // What each action does to the worker that takes it

  function Received(w: Worker): Worker
    requires w.inbox != []
  {
    w.(inbox := w.inbox[1..], held := Some(w.inbox[0]),
       passed := w.passed.(received := w.passed.received + 1))
  }

  function QueuedJob(w: Worker): Worker
    requires w.held.Some?
  {
    w.(jobs := w.jobs + [w.held.value], held := None,
       passed := w.passed.(queued := w.passed.queued + 1))
  }

  function PoppedJob(w: Worker): Worker
    requires w.jobs != []
  {
    w.(jobs := w.jobs[1..], eval := Running(w.jobs[0]),
       passed := w.passed.(popped := w.passed.popped + 1))
  }

  function EvaluatedJob(w: Worker): Worker
    requires w.eval.Running?
  {
    w.(eval := Evaluated(w.eval.r), passed := w.passed.(evaluated := w.passed.evaluated + 1))
  }

  function SentResult(w: Worker): Worker
    requires w.eval.Evaluated?
  {
    w.(eval := Idle, outbox := w.outbox + [Some(w.eval.r)],
       passed := w.passed.(sent := w.passed.sent + 1))
  }

  function TrackedJob(w: Worker): Worker
    requires w.eval.Evaluated?
  {
    w.(eval := Tracked(w.eval.r), pending := w.pending + [w.eval.r],
       passed := w.passed.(tracked := w.passed.tracked + 1))
  }

  function ForwardedJob(w: Worker): Worker {
    w.(eval := Idle, passed := w.passed.(sent := w.passed.sent + 1))
  }

  function RelayTook(w: Worker, result: Option<nat>): Worker
    requires w.pending != []
  {
    w.(pending := w.pending[1..], relay := Some(result),
       passed := w.passed.(taken := w.passed.taken + 1))
  }

  function RelayWrote(w: Worker): Worker
    requires w.relay.Some?
  {
    w.(relay := None, outbox := w.outbox + [w.relay.value],
       passed := w.passed.(relayed := w.passed.relayed + 1))
  }

  function Fed(w: Worker, request: nat): Worker {
    w.(inbox := w.inbox + [request])
  }

  function Drained(w: Worker): Worker
    requires w.outbox != []
  {
    w.(outbox := w.outbox[1..])
  }

  // What failures do to the worker they happen to

  function FailedJob(w: Worker): Worker {
    w.(eval := Failing, passed := w.passed.(failed := w.passed.failed + 1))
  }

  function SentError(w: Worker): Worker {
    w.(eval := Idle, outbox := w.outbox + [None], passed := w.passed.(told := w.passed.told + 1))
  }

  function Told(w: Worker, told: bool): Worker {
    if told then w.(outbox := w.outbox + [None]) else w
  }

  /** The request is taken off the forwarder's queue again, if it is still there. */
  function Untracked(pending: seq<nat>, r: nat): seq<nat> {
    if pending != [] && pending[|pending| - 1] == r then pending[..|pending| - 1] else pending
  }

  function ForwardFailed(w: Worker, told: bool): Worker
    requires w.eval.Tracked?
  {
    Told(w.(eval := Idle, cut := true, pending := Untracked(w.pending, w.eval.r),
            passed := w.passed.(failed := w.passed.failed + 1)), told)
  }

  /** The relay reports the oldest pending request, closes its queue and the socket upstream. */
  function RelayStopped(w: Worker, told: bool): Worker {
    Told(w.(relaying := false, cut := true, pending := if w.pending == [] then [] else w.pending[1..]), told)
  }

  function RelayFaulted(w: Worker, told: bool): Worker {
    RelayStopped(w, told).(passed := w.passed.(faulted := w.passed.faulted + 1))
  }

  function EvaluatorEnded(w: Worker): Worker {
    w.(eval := Ended, jobs := [])
  }

  /** Steps that stay inside one worker. */
  predicate IsLocal(action: WorkerStep) {
    !action.Forward? && !action.RelayTake? && !action.RelayFaults? && !action.Teardown?
  }

  function LocalApply(c: Config, workers: seq<Worker>, broken: bool, k: nat, action: WorkerStep): Worker
    requires c.Ok() && |workers| == c.Workers() && k < c.Workers()
    requires WorkerEnabled(c, workers, broken, k, action) && IsLocal(action)
  {
    var w := workers[k];
    match action
    case Receive => Received(w)
    case QueueJob => QueuedJob(w)
    case PopJob => PoppedJob(w)
    case Evaluate => EvaluatedJob(w)
    case SendResult => SentResult(w)
    case Track => TrackedJob(w)
    case RelayWrite => RelayWrote(w)
    case EvalFails => FailedJob(w)
    case ForwarderFails => FailedJob(w)
    case SendError => SentError(w)
    case ForwardFails(told) => ForwardFailed(w, told)
    case RelayEnds(told) => RelayStopped(w, told)
    case RelayGivesUp => w.(relay := None, relaying := false)
    case LinkCut => w.(cut := true)
    case EvaluatorEnds => EvaluatorEnded(w)
    case ReceiverEnds(cancels) => w.(reading := false, held := None, jobs := if cancels then [] else w.jobs)
  }

  function WorkerApply(c: Config, workers: seq<Worker>, broken: bool, k: nat, action: WorkerStep): (after: seq<Worker>)
    requires c.Ok() && |workers| == c.Workers() && k < c.Workers()
    requires WorkerEnabled(c, workers, broken, k, action)
    ensures |after| == |workers|
  {
    match action
    case Forward =>
      workers[k := ForwardedJob(workers[k])]
             [k + 1 := Fed(workers[k + 1], workers[k].eval.r)]
    case RelayTake =>
      workers[k := RelayTook(workers[k], workers[k + 1].outbox[0])]
             [k + 1 := Drained(workers[k + 1])]
    case RelayFaults(told) =>
      workers[k := RelayFaulted(workers[k], told)]
             [k + 1 := Drained(workers[k + 1])]
    case Teardown =>
      workers[k := EvaluatorEnded(workers[k])]
             [k + 1 := workers[k + 1].(cut := true)]
    case _ => workers[k := LocalApply(c, workers, broken, k, action)]
  }

  /** Which steps shut down the socket towards the upstream. */
  predicate CutsUpstream(action: WorkerStep) {
    action.ForwardFails? || action.RelayFaults? || action.RelayEnds?
  }

  function ProducerApply(c: Config, s: State, step: ProducerStep): State
    requires Shaped(c, s) && ProducerEnabled(c, s, step)
  {
    match step
    case WaitWindow =>
      s.(producer := if s.submitted == c.count then FinishSender
                     else if s.readerDone then CancelSender else AwaitSlot)
    case TakeSlot => s.(producer := if s.ring.stop then CancelSender else EvalLocal)
    case EvalChunk(ok) =>
      if ok then s.(producer := EnqueueChunk, ring := FillTail(s.ring, c.first + s.submitted))
      else s.(producer := CancelSender)
    case PutChunk =>
      if s.ring.stop then s.(producer := CancelSender)
      else s.(producer := AwaitWindow, ring := Enqueue(s.ring), submitted := s.submitted + 1)
    case Finished => s.(producer := JoinSender, ring := Finish(s.ring))
    case Cancelled =>
      s.(producer := JoinSender, ring := Cancel(s.ring), failed := true, broken := true)
    case JoinedSender =>
      s.(producer := JoinReader, failed := s.failed || s.senderFailed,
         broken := s.broken || s.failed || s.senderFailed)
    case JoinedReader => s.(producer := Returned, failed := s.failed || s.readerFailed)
  }

  function SenderApply(c: Config, s: State, step: SenderStep): State
    requires Shaped(c, s) && SenderEnabled(c, s, step)
  {
    match step
    case PickSlot =>
      s.(sender := if s.ring.stop || s.ring.queued == 0 then SenderExited else Sending)
    case SendFrame =>
      s.(sender := Sent, sent := s.sent + 1,
         workers := s.workers[0 := Fed(s.workers[0], s.ring.slots[s.ring.head].value)])
    case SendFails =>
      s.(sender := SenderExited, senderFailed := true, ring := s.ring.(stop := true))
    case FreeSlot => s.(sender := SenderIdle, ring := Release(s.ring))
  }

  function ReaderApply(c: Config, s: State, step: ReaderStep): State
    requires Shaped(c, s) && ReaderEnabled(c, s, step)
  {
    match step
    case AcceptResult =>
      s.(completed := s.completed + 1, readerDone := s.completed + 1 == c.count,
         workers := s.workers[0 := Drained(s.workers[0])])
    case RejectResult => s.(readerDone := true, readerFailed := true, broken := true)
  }

  function Apply(c: Config, s: State, step: Step): State
    requires Shaped(c, s) && Enabled(c, s, step)
  {
    match step
    case AtProducer(producing) => ProducerApply(c, s, producing)
    case AtSender(sending) => SenderApply(c, s, sending)
    case AtReader(reading) => ReaderApply(c, s, reading)
    case AtWorker(k, action) =>
      s.(workers := WorkerApply(c, s.workers, s.broken, k, action), broken := s.broken || (k == 0 && CutsUpstream(action)))
    case LinkBreaks => s.(broken := true)
  }

  /** Worker steps of a run in which nothing fails. */
  predicate IsRegular(action: WorkerStep) {
    action.Receive? || action.QueueJob? || action.PopJob? || action.Evaluate? || action.SendResult? ||
    action.Track? || action.Forward? || action.RelayTake? || action.RelayWrite?
  }

  /** Steps that only happen when a socket, an evaluation or a worker fails. */
  predicate IsFailure(step: Step) {
    match step
    case AtProducer(producing) => producing == EvalChunk(false)
    case AtSender(sending) => sending.SendFails?
    case AtReader(reading) => reading.RejectResult?
    case AtWorker(_, action) => !IsRegular(action)
    case LinkBreaks => true
  }

  // ------------------------------------------------------------------------------
  // Invariant
  // ------------------------------------------------------------------------------

  /** Request ids of chunks lo..hi-1, in order. */
  ghost function Ids(c: Config, lo: nat, hi: nat): (ids: seq<nat>)
    ensures |ids| == if lo <= hi then hi - lo else 0
    decreases hi - lo
  {
    if lo < hi then [c.first + lo] + Ids(c, lo + 1, hi) else []
  }

  lemma {:induction false} IdsGrow(c: Config, lo: nat, hi: nat)
    requires lo <= hi
    ensures Ids(c, lo, hi + 1) == Ids(c, lo, hi) + [c.first + hi]
    decreases hi - lo
  {
    if lo < hi {
      IdsGrow(c, lo + 1, hi);
    }
  }

  lemma IdsShrink(c: Config, lo: nat, hi: nat)
    requires lo < hi
    ensures Ids(c, lo, hi)[0] == c.first + lo
    ensures Ids(c, lo, hi)[1..] == Ids(c, lo + 1, hi)
  {
  }

  /** Ring slots holding these requests. */
  ghost function Filled(ids: seq<nat>): (slots: seq<Option<nat>>)
    ensures |slots| == |ids|
  {
    seq(|ids|, i requires 0 <= i < |ids| => Some(ids[i]))
  }

  lemma FilledGrows(c: Config, lo: nat, hi: nat)
    requires lo <= hi
    ensures Filled(Ids(c, lo, hi + 1)) == Filled(Ids(c, lo, hi)) + [Some(c.first + hi)]
  {
    IdsGrow(c, lo, hi);
  }

  lemma FilledShrinks(c: Config, lo: nat, hi: nat)
    requires lo < hi
    ensures Filled(Ids(c, lo, hi))[0] == Some(c.first + lo)
    ensures Filled(Ids(c, lo, hi))[1..] == Filled(Ids(c, lo + 1, hi))
  {
    IdsShrink(c, lo, hi);
  }

  /** Frames written to the socket towards worker k, and results read off the one back. */
  function FedTo(s: State, k: nat): nat
    requires k < |s.workers|
  {
    if k == 0 then s.sent else s.workers[k - 1].passed.sent
  }

  function DrainedFrom(s: State, k: nat): nat
    requires k < |s.workers|
  {
    if k == 0 then s.completed else s.workers[k - 1].passed.taken + s.workers[k - 1].passed.faulted
  }

  /** Nothing ever failed in this worker. */
  predicate Sound(w: Worker) {
    && w.reading && w.relaying && !w.cut && !w.eval.Failing? && !w.eval.Ended?
    && w.passed.failed == w.passed.told == w.passed.faulted == 0
  }

  ghost predicate Clean(s: State) {
    forall k | 0 <= k < |s.workers| :: Sound(s.workers[k])
  }

  ghost predicate EvaluatorOk(c: Config, w: Worker, last: bool) {
    var p := w.passed;
    var handed := if last then p.sent else p.tracked;
    match w.eval
    case Idle => p.popped == p.evaluated == handed == p.sent
    case Running(r) => p.popped == p.evaluated + 1 && r == c.first + p.evaluated && p.evaluated == handed == p.sent
    case Evaluated(r) => p.popped == p.evaluated == handed + 1 && r == c.first + handed && handed == p.sent
    case Tracked(r) => !last && p.popped == p.evaluated == handed == p.sent + 1 && r == c.first + p.sent
    case Failing => false
    case Ended => false
  }

  ghost predicate ForwarderOk(c: Config, k: nat, w: Worker)
    requires c.Ok() && k < c.Workers()
  {
    var p := w.passed;
    && p.taken <= p.sent
    && w.pending == Ids(c, p.taken, p.tracked) && |w.pending| <= c.forwardWindow[k]
    && (if w.relay.None? then p.relayed == p.taken
        else p.relayed + 1 == p.taken && w.relay.value == Some(c.first + p.relayed))
  }

  ghost predicate NoForwarder(w: Worker) {
    && w.passed.tracked == w.passed.taken == w.passed.relayed == 0
    && w.relay.None? && w.pending == []
  }

  /** Results a worker has written towards its upstream. */
  function Results(c: Config, k: nat, w: Worker): nat {
    if k + 1 == c.Workers() then w.passed.sent else w.passed.relayed
  }

  /** A worker of a run without failures, given that `fed` frames were written towards it and `drained` results read
      back: each of its queues holds consecutive requests, within its bound. */
  ghost predicate WorkerOk(c: Config, k: nat, w: Worker, fed: nat, drained: nat)
    requires c.Ok() && k < c.Workers()
  {
    var p, last := w.passed, k + 1 == c.Workers();
    && Sound(w)
    && p.received <= fed
    && w.inbox == Ids(c, p.received, fed) && |w.inbox| <= c.inboxFrames[k]
    && (if w.held.None? then p.queued == p.received
        else p.queued + 1 == p.received && w.held.value == c.first + p.queued)
    && p.popped <= p.queued
    && w.jobs == Ids(c, p.popped, p.queued) && |w.jobs| <= c.jobDepth[k]
    && EvaluatorOk(c, w, last)
    && (if last then NoForwarder(w) else ForwarderOk(c, k, w))
    && drained <= Results(c, k, w)
    && w.outbox == Filled(Ids(c, drained, Results(c, k, w))) && |w.outbox| <= c.outboxFrames[k]
  }

  ghost predicate WorkerInv(c: Config, s: State, k: nat)
    requires Shaped(c, s) && k < c.Workers()
  {
    WorkerOk(c, k, s.workers[k], FedTo(s, k), DrainedFrom(s, k))
  }

  // With failures, queues may be cut short; what still holds is that nothing is counted twice

  function Busy(w: Worker): nat {
    if w.eval.Running? || w.eval.Evaluated? || w.eval.Tracked? then 1 else 0
  }

  function Flag(b: bool): nat {
    if b then 1 else 0
  }

  /** No station lets more through than reached it. */
  ghost predicate Counted(w: Worker, fed: nat) {
    var p := w.passed;
    && p.received + |w.inbox| == fed
    && p.queued + Flag(w.held.Some?) <= p.received
    && p.popped + |w.jobs| <= p.queued
    && p.evaluated + Flag(w.eval.Running?) <= p.popped
    && p.failed + p.sent + Busy(w) <= p.popped
    && p.told + Flag(w.eval.Failing?) <= p.failed
    && p.tracked + Flag(w.eval.Evaluated?) <= p.evaluated
    && p.taken + |w.pending| <= p.tracked
    && p.relayed + Flag(w.relay.Some?) <= p.taken
    && p.faulted <= Flag(!w.relaying)
  }

  /** As long as its upstream is there, a worker loses nothing: every frame it was fed is in
      one of its queues or was answered. */
  ghost predicate Exact(w: Worker, last: bool, drained: nat) {
    var p := w.passed;
    && p.queued + Flag(w.held.Some?) == p.received
    && p.popped + |w.jobs| == p.queued
    && p.failed + p.sent + Busy(w) == p.popped
    && p.told + Flag(w.eval.Failing?) == p.failed
    && (!last ==> p.tracked == p.sent + Flag(w.eval.Tracked?) && p.taken + |w.pending| == p.tracked
                  && p.relayed + Flag(w.relay.Some?) == p.taken)
    && (last ==> !w.eval.Tracked?)
    && drained + |w.outbox| == p.told + (if last then p.sent else p.relayed)
  }

  ghost predicate AllBelow(ids: seq<nat>, limit: nat) {
    forall i | 0 <= i < |ids| :: ids[i] < limit
  }

  /** No request is known that was not sent. */
  ghost predicate Known(w: Worker, limit: nat) {
    && AllBelow(w.inbox, limit) && AllBelow(w.jobs, limit) && AllBelow(w.pending, limit)
    && (w.held.Some? ==> w.held.value < limit)
    && (w.eval.Running? || w.eval.Evaluated? || w.eval.Tracked? ==> w.eval.r < limit)
    && (w.relay.Some? && w.relay.value.Some? ==> w.relay.value.value < limit)
    && (forall i | 0 <= i < |w.outbox| && w.outbox[i].Some? :: w.outbox[i].value < limit)
  }

  /** Worker k, whatever failed: `up` says that the socket towards its upstream is shut down. */
  ghost predicate FaultOk(w: Worker, last: bool, fed: nat, drained: nat, up: bool, limit: nat) {
    && (!w.reading || !w.relaying || w.eval.Ended? || w.cut ==> up)
    && (w.relay.Some? ==> w.relaying)
    && Counted(w, fed)
    && (!up ==> Exact(w, last, drained))
    && Known(w, limit)
  }

  ghost predicate FaultInv(c: Config, s: State, k: nat)
    requires Shaped(c, s) && k < c.Workers()
  {
    FaultOk(s.workers[k], k + 1 == c.Workers(), FedTo(s, k), DrainedFrom(s, k), Cut(s.workers, s.broken, k), c.first + s.sent)
  }

  function InLoop(p: ProducerAt): bool {
    p.AwaitWindow? || p.AwaitSlot? || p.EvalLocal? || p.EnqueueChunk?
  }

  /** Chunks the sender has released from the ring. */
  function ReleasedBySender(s: State): int {
    s.submitted - s.ring.queued
  }

  ghost predicate CoordinatorInv(c: Config, s: State)
    requires Shaped(c, s)
  {
    var released := ReleasedBySender(s);
    && 0 <= released
    && s.submitted <= c.count
    && Queue(s.ring) == Filled(Ids(c, released, s.submitted))
    && s.sent == released + (if s.sender.Sent? then 1 else 0)
    && (s.sender.Sending? || s.sender.Sent? ==> 0 < s.ring.queued)
    // Flow window
    && s.submitted <= s.completed + c.window
    && (s.producer.AwaitSlot? || s.producer.EvalLocal? || s.producer.EnqueueChunk? ==>
          s.submitted < c.count && s.submitted < s.completed + c.window)
    // The acquired slot stays free until it is queued
    && (s.producer.EvalLocal? || s.producer.EnqueueChunk? ==> s.ring.queued < c.ringSlots)
    && (s.producer.EnqueueChunk? ==> s.ring.slots[s.ring.tail] == Some(c.first + s.submitted))
    // Shutdown
    && (s.ring.producerDone <==> s.producer.JoinSender? || s.producer.JoinReader? || s.producer.Returned?)
    && (!InLoop(s.producer) && !s.producer.CancelSender? && !s.failed ==> s.submitted == c.count)
    && (InLoop(s.producer) || s.producer.CancelSender? || s.producer.FinishSender? ==> !s.failed)
    && (s.producer.JoinReader? || s.producer.Returned? ==> s.sender.SenderExited?)
    && (s.producer.Returned? ==> s.readerDone)
    && (s.sender.SenderExited? ==> s.ring.stop || (s.ring.producerDone && s.ring.queued == 0))
    && (s.ring.stop || s.readerFailed || s.senderFailed || s.failed ==> s.broken)
    && (s.ring.stop && !s.senderFailed ==> s.failed)
    && (s.producer.JoinReader? || s.producer.Returned? ==> (s.senderFailed ==> s.failed))
    && (s.producer.Returned? ==> (s.readerFailed ==> s.failed))
    // Reader
    && s.completed <= c.count
    && (s.readerDone <==> s.readerFailed || s.completed == c.count)
    && (s.producer.CancelSender? ==> s.submitted < c.count)
  }

  ghost predicate Inv(c: Config, s: State) {
    && Shaped(c, s)
    && CoordinatorInv(c, s)
    && s.completed <= s.sent
    && (forall k | 0 <= k < c.Workers() :: FaultInv(c, s, k))
    && (Clean(s) ==> forall k | 0 <= k < c.Workers() :: WorkerInv(c, s, k))
  }

  lemma InitInv(c: Config)
    requires c.Ok()
    ensures Inv(c, Init(c))
  {
    hide CoordinatorInv, WorkerOk, FaultOk;
    var s := Init(c);
    InitCoordinator(c);
    forall k | 0 <= k < c.Workers()
      ensures FaultInv(c, s, k) && WorkerInv(c, s, k)
    {
      FreshWorkerOk(c, k);
      assert s.workers[k] == FreshWorker;
      if 0 < k { assert s.workers[k - 1] == FreshWorker; }
    }
  }

  lemma InitCoordinator(c: Config)
    requires c.Ok()
    ensures Shaped(c, Init(c)) && CoordinatorInv(c, Init(c))
  {
  }

  lemma FreshWorkerOk(c: Config, k: nat)
    requires c.Ok() && k < c.Workers()
    ensures WorkerOk(c, k, FreshWorker, 0, 0)
    ensures FaultOk(FreshWorker, k + 1 == c.Workers(), 0, 0, false, c.first)
  {
  }
}
