/** What pipelined prefill is for: every node can compute at the same time, each on a chunk of
    its own. */
module PrefillOverlap {
  import opened Wrappers
  import opened PrefillRing
  import opened PrefillPipeline
  import opened PrefillLiveness

  // ------------------------------------------------------------------------------
  // Parts of runs
  // ------------------------------------------------------------------------------

  ghost predicate Follows(c: Config, s: State, steps: seq<Step>, t: State)
    decreases steps
  {
    if steps == [] then s == t
    else Shaped(c, s) && Enabled(c, s, steps[0]) && !IsFailure(steps[0]) && Follows(c, Apply(c, s, steps[0]), steps[1..], t)
  }

  /** Some steps without a failure lead from one state to another. */
  ghost predicate Leads(c: Config, s: State, t: State) {
    exists steps :: Follows(c, s, steps, t)
  }

  lemma {:induction false} FollowsOn(c: Config, s: State, first: seq<Step>, t: State, second: seq<Step>, u: State)
    requires Follows(c, s, first, t) && Follows(c, t, second, u)
    ensures Follows(c, s, first + second, u)
    decreases first
  {
    hide Enabled, Apply, Shaped, IsFailure;
    if first == [] {
      assert first + second == second;
    } else {
      assert (first + second)[0] == first[0] && (first + second)[1..] == first[1..] + second;
      FollowsOn(c, Apply(c, s, first[0]), first[1..], t, second, u);
    }
  }

  lemma LeadsOn(c: Config, s: State, t: State, u: State)
    requires Leads(c, s, t) && Leads(c, t, u)
    ensures Leads(c, s, u)
  {
    hide Follows;
    var first :| Follows(c, s, first, t);
    var second :| Follows(c, t, second, u);
    FollowsOn(c, s, first, t, second, u);
  }

  lemma OneStep(c: Config, s: State, step: Step)
    requires Shaped(c, s) && Enabled(c, s, step) && !IsFailure(step)
    ensures Leads(c, s, Apply(c, s, step))
  {
    hide Enabled, Apply, Shaped, IsFailure;
    assert [step][1..] == [];
    assert Follows(c, s, [step], Apply(c, s, step));
  }

  lemma Stay(c: Config, s: State)
    ensures Leads(c, s, s)
  {
    assert Follows(c, s, [], s);
  }

  // ------------------------------------------------------------------------------
  // Workers along the way
  // ------------------------------------------------------------------------------

  /** Worker k while it computes, once `j` chunks have been sent and none has come back. */
  ghost function Computing(c: Config, j: nat, k: nat): Worker
    requires k < j
  {
    var done := j - 1 - k;
    Worker([], None, [], Running(c.first + done), Ids(c, 0, done), None, [],
           Passed(done + 1, done + 1, done + 1, done, done, done, 0, 0, 0, 0, 0), true, true, false)
  }

  /** The same worker once it has handed its chunk on. */
  ghost function Waiting(c: Config, j: nat, k: nat): Worker
    requires k <= j
  {
    var done := j - k;
    Worker([], None, [], Idle, Ids(c, 0, done), None, [],
           Passed(done, done, done, done, done, done, 0, 0, 0, 0, 0), true, true, false)
  }

  ghost function WorkerAt(c: Config, j: nat, k: nat): Worker {
    if k < j then Computing(c, j, k) else FreshWorker
  }

  /** Chunk `j` is on its way: the workers behind place `k` compute already, worker k waits. */
  ghost function Moved(c: Config, j: nat, k: nat): (workers: seq<Worker>)
    requires k <= j
    ensures |workers| == c.Workers()
    ensures forall i | 0 <= i < |workers| ::
              workers[i] == if k < i then WorkerAt(c, j + 1, i) else if i == k then Waiting(c, j, k) else WorkerAt(c, j, i)
  {
    seq(c.Workers(), i requires 0 <= i < c.Workers() =>
      if k < i then WorkerAt(c, j + 1, i) else if i == k then Waiting(c, j, k) else WorkerAt(c, j, i))
  }

  ghost function WorkersAt(c: Config, j: nat): (workers: seq<Worker>)
    ensures |workers| == c.Workers() && forall i | 0 <= i < |workers| :: workers[i] == WorkerAt(c, j, i)
  {
    seq(c.Workers(), i requires 0 <= i < c.Workers() => WorkerAt(c, j, i))
  }

  /** The buffers and windows that let every node have a chunk. */
  ghost predicate Roomy(c: Config) {
    && c.Ok()
    && c.Workers() < c.count && c.Workers() < c.window
    && forall k | 0 <= k < c.Workers() :: c.Workers() - 1 - k <= c.forwardWindow[k]
  }

  /** The coordinator between two chunks, after `j` of them. */
  ghost predicate Between(c: Config, s: State, j: nat) {
    && Shaped(c, s)
    && s.ring.queued == 0 && !s.ring.producerDone && !s.ring.stop
    && s.producer == AwaitWindow && s.submitted == j && !s.failed
    && s.sender == SenderIdle && s.sent == j && !s.senderFailed
    && s.completed == 0 && !s.readerDone && !s.readerFailed && !s.broken
  }

  // ------------------------------------------------------------------------------
  // One chunk moves on
  // ------------------------------------------------------------------------------

  /** A step inside worker k. */
  lemma LocalStep(c: Config, s: State, k: nat, action: WorkerStep, after: Worker)
    requires Shaped(c, s) && k < c.Workers() && !s.broken && IsLocal(action) && IsRegular(action)
    requires WorkerEnabled(c, s.workers, s.broken, k, action)
    requires LocalApply(c, s.workers, s.broken, k, action) == after
    ensures Leads(c, s, s.(workers := s.workers[k := after]))
  {
    hide LocalApply, WorkerEnabled;
    OneStep(c, s, AtWorker(k, action));
  }

  /** A worker reads a frame and begins to compute. */
  lemma TakeIn(c: Config, s: State, j: nat, k: nat)
    requires Shaped(c, s) && k < c.Workers() && !s.broken && k <= j
    requires s.workers[k] == Fed(Waiting(c, j, k), c.first + (j - k))
    ensures Leads(c, s, s.(workers := s.workers[k := Computing(c, j + 1, k)]))
  {
    hide Leads, LocalApply, WorkerEnabled;
    var w0 := s.workers[k];
    var w1 := Received(w0);
    var w2 := QueuedJob(w1);
    var w3 := PoppedJob(w2);
    var s1 := s.(workers := s.workers[k := w1]);
    var s2 := s1.(workers := s1.workers[k := w2]);
    TakeInSteps(c, s, s1, s2, k, w0, w1, w2);
    LocalStep(c, s, k, Receive, w1);
    LocalStep(c, s1, k, QueueJob, w2);
    LocalStep(c, s2, k, PopJob, w3);
    assert w3 == Computing(c, j + 1, k);
    assert s2.(workers := s2.workers[k := w3]) == s.(workers := s.workers[k := w3]);
    LeadsOn(c, s, s1, s2);
    LeadsOn(c, s, s2, s.(workers := s.workers[k := w3]));
  }

  lemma TakeInSteps(c: Config, s: State, s1: State, s2: State, k: nat, w0: Worker, w1: Worker, w2: Worker)
    requires Shaped(c, s) && k < c.Workers() && s.workers[k] == w0
    requires s1 == s.(workers := s.workers[k := w1]) && s2 == s1.(workers := s1.workers[k := w2])
    requires w0.reading && |w0.inbox| == 1 && w0.held.None? && w0.jobs == [] && w0.eval.Idle?
    requires w1 == Received(w0) && w2 == QueuedJob(w1)
    ensures WorkerEnabled(c, s.workers, s.broken, k, Receive) && LocalApply(c, s.workers, s.broken, k, Receive) == w1
    ensures WorkerEnabled(c, s1.workers, s1.broken, k, QueueJob) && LocalApply(c, s1.workers, s1.broken, k, QueueJob) == w2
    ensures WorkerEnabled(c, s2.workers, s2.broken, k, PopJob) && LocalApply(c, s2.workers, s2.broken, k, PopJob) == PoppedJob(w2)
  {
  }

  /** A worker finishes its chunk and hands it to the next, which begins to compute. */
  lemma HandOn(c: Config, s: State, j: nat, k: nat)
    requires Shaped(c, s) && Roomy(c) && !s.broken && j < c.Workers() && k < j
    requires s.workers[k] == Computing(c, j, k) && s.workers[k + 1] == Waiting(c, j, k + 1)
    ensures Leads(c, s, s.(workers := s.workers[k := Waiting(c, j, k)][k + 1 := Computing(c, j + 1, k + 1)]))
  {
    hide Leads, LocalApply, WorkerEnabled;
    var done := j - 1 - k;
    var w1 := EvaluatedJob(s.workers[k]);
    var w2 := TrackedJob(w1);
    var s1 := s.(workers := s.workers[k := w1]);
    var s2 := s1.(workers := s1.workers[k := w2]);
    var s3 := s.(workers := s.workers[k := Waiting(c, j, k)][k + 1 := Fed(Waiting(c, j, k + 1), c.first + done)]);
    EvaluateAndTrack(c, s, s1, k, done);
    LocalStep(c, s, k, Evaluate, w1);
    LocalStep(c, s1, k, Track, w2);
    LeadsOn(c, s, s1, s2);
    IdsGrow(c, 0, done);
    ForwardStep(c, s2, s3, j, k);
    LeadsOn(c, s, s2, s3);
    TakeIn(c, s3, j, k + 1);
    LeadsOn(c, s, s3, s3.(workers := s3.workers[k + 1 := Computing(c, j + 1, k + 1)]));
    assert s3.workers[k + 1 := Computing(c, j + 1, k + 1)] ==
           s.workers[k := Waiting(c, j, k)][k + 1 := Computing(c, j + 1, k + 1)];
  }

  lemma EvaluateAndTrack(c: Config, s: State, s1: State, k: nat, done: nat)
    requires Shaped(c, s) && k + 1 < c.Workers() && s.workers[k].eval == Running(c.first + done) && s.workers[k].relaying
    requires |s.workers[k].pending| < c.forwardWindow[k]
    requires s1 == s.(workers := s.workers[k := EvaluatedJob(s.workers[k])])
    ensures WorkerEnabled(c, s.workers, s.broken, k, Evaluate)
    ensures LocalApply(c, s.workers, s.broken, k, Evaluate) == EvaluatedJob(s.workers[k])
    ensures WorkerEnabled(c, s1.workers, s1.broken, k, Track)
    ensures LocalApply(c, s1.workers, s1.broken, k, Track) == TrackedJob(EvaluatedJob(s.workers[k]))
  {
  }

  lemma ForwardStep(c: Config, s: State, t: State, j: nat, k: nat)
    requires Shaped(c, s) && k + 1 < c.Workers() && k < j
    requires var done := j - 1 - k;
             && s.workers[k] == TrackedJob(EvaluatedJob(Computing(c, j, k)))
             && s.workers[k + 1] == Waiting(c, j, k + 1)
             && Ids(c, 0, done + 1) == Ids(c, 0, done) + [c.first + done]
             && t == s.(workers := s.workers[k := Waiting(c, j, k)][k + 1 := Fed(Waiting(c, j, k + 1), c.first + done)])
    ensures Leads(c, s, t)
  {
    assert ForwardedJob(s.workers[k]) == Waiting(c, j, k);
    OneStep(c, s, AtWorker(k, Forward));
  }

  lemma OneFurther(c: Config, j: nat, k: nat)
    requires 0 < k <= j < c.Workers()
    ensures Moved(c, j, k - 1) == Moved(c, j, k)[k - 1 := Waiting(c, j, k - 1)][k := Computing(c, j + 1, k)]
  {
    hide Computing, Waiting, Moved;
    var a, b := Moved(c, j, k - 1), Moved(c, j, k)[k - 1 := Waiting(c, j, k - 1)][k := Computing(c, j + 1, k)];
    forall i | 0 <= i < c.Workers() ensures a[i] == b[i] {
    }
  }

  /** Every chunk moves one worker further, the oldest first. */
  lemma {:induction false} AllMoveOn(c: Config, s: State, j: nat, k: nat)
    requires Shaped(c, s) && Roomy(c) && !s.broken && j < c.Workers() && k <= j
    requires s.workers == Moved(c, j, k)
    ensures Leads(c, s, s.(workers := Moved(c, j, 0)))
    decreases k
  {
    hide Leads, Computing, Waiting, Roomy;
    if k == 0 {
      Stay(c, s);
    } else {
      assert s.workers[k] == Waiting(c, j, k) && s.workers[k - 1] == Computing(c, j, k - 1);
      HandOn(c, s, j, k - 1);
      var t := s.(workers := Moved(c, j, k - 1));
      OneFurther(c, j, k);
      AllMoveOn(c, t, j, k - 1);
      LeadsOn(c, s, t, t.(workers := Moved(c, j, 0)));
    }
  }

  lemma FirstIsFree(c: Config, j: nat)
    requires j < c.Workers()
    ensures WorkersAt(c, j) == Moved(c, j, j)
  {
    assert Waiting(c, j, j) == FreshWorker;
    hide Moved, WorkersAt, Waiting;
    var a, b := WorkersAt(c, j), Moved(c, j, j);
    forall i | 0 <= i < c.Workers() ensures a[i] == b[i] {
    }
  }

  // ------------------------------------------------------------------------------
  // One more chunk
  // ------------------------------------------------------------------------------

  /** The producer goes from its window test to evaluating the next chunk itself. */
  lemma BeginChunk(c: Config, s: State, j: nat)
    requires Between(c, s, j) && j < c.count && j < c.window
    ensures Leads(c, s, s.(producer := EvalLocal))
  {
    hide Leads;
    var s1 := s.(producer := AwaitSlot);
    OneStep(c, s, AtProducer(WaitWindow));
    OneStep(c, s1, AtProducer(TakeSlot));
    LeadsOn(c, s, s1, s.(producer := EvalLocal));
  }

  /** The chunk is put into the ring and sent to the first worker. */
  lemma SendChunk(c: Config, s: State, j: nat)
    requires Between(c, s, j) && j < c.count && j < c.window && s.workers[0].inbox == []
    ensures exists t :: Leads(c, s, t) && Between(c, t, j + 1) && t.workers == s.workers[0 := Fed(s.workers[0], c.first + j)]
  {
    hide Leads;
    BeginChunk(c, s, j);
    var ring := FillTail(s.ring, c.first + j);
    FillKeepsQueue(s.ring, c.first + j);
    EnqueueAppends(ring);
    var s2 := s.(producer := EnqueueChunk, ring := ring);
    var s3 := s.(producer := AwaitWindow, ring := Enqueue(ring), submitted := j + 1);
    OneStep(c, s.(producer := EvalLocal), AtProducer(EvalChunk(true)));
    OneStep(c, s2, AtProducer(PutChunk));
    LeadsOn(c, s, s.(producer := EvalLocal), s2);
    LeadsOn(c, s, s2, s3);
    SenderSends(c, s3, j);
    var t :| Leads(c, s3, t) && Between(c, t, j + 1) && t.workers == s3.workers[0 := Fed(s3.workers[0], c.first + j)];
    LeadsOn(c, s, s3, t);
  }

  lemma SenderSends(c: Config, s: State, j: nat)
    requires c.Ok() && Between(c, s.(ring := InitRing(c.ringSlots), submitted := j), j) && s.submitted == j + 1
    requires RingOk(s.ring) && |s.ring.slots| == c.ringSlots && s.ring.queued == 1
    requires s.ring.slots[s.ring.head] == Some(c.first + j) && !s.ring.stop && !s.ring.producerDone
    requires s.workers[0].inbox == []
    ensures exists t :: Leads(c, s, t) && Between(c, t, j + 1) && t.workers == s.workers[0 := Fed(s.workers[0], c.first + j)]
  {
    hide Leads;
    ReleaseDropsOldest(s.ring);
    var s1 := s.(sender := Sending);
    var s2 := s.(sender := Sent, sent := j + 1, workers := s.workers[0 := Fed(s.workers[0], c.first + j)]);
    var t := s2.(sender := SenderIdle, ring := Release(s.ring));
    OneStep(c, s, AtSender(PickSlot));
    OneStep(c, s1, AtSender(SendFrame));
    OneStep(c, s2, AtSender(FreeSlot));
    LeadsOn(c, s, s1, s2);
    LeadsOn(c, s, s2, t);
  }

  /** From `j` chunks under way to one more. */
  lemma OneMoreChunk(c: Config, s: State, j: nat)
    requires Roomy(c) && j < c.Workers() && Between(c, s, j) && s.workers == WorkersAt(c, j)
    ensures exists t :: Leads(c, s, t) && Between(c, t, j + 1) && t.workers == WorkersAt(c, j + 1)
  {
    hide Leads, Waiting, Computing;
    FirstIsFree(c, j);
    AllMoveOn(c, s, j, j);
    var s1 := s.(workers := Moved(c, j, 0));
    NothingWaits(c, j);
    SendChunk(c, s1, j);
    var s2 :| Leads(c, s1, s2) && Between(c, s2, j + 1) && s2.workers == s1.workers[0 := Fed(s1.workers[0], c.first + j)];
    TakeIn(c, s2, j, 0);
    var t := s2.(workers := s2.workers[0 := Computing(c, j + 1, 0)]);
    LeadsOn(c, s, s1, s2);
    LeadsOn(c, s, s2, t);
    AllComputing(c, j, t.workers);
  }

  lemma NothingWaits(c: Config, j: nat)
    requires c.Ok()
    ensures Moved(c, j, 0)[0] == Waiting(c, j, 0) && Waiting(c, j, 0).inbox == []
  {
  }

  lemma AllComputing(c: Config, j: nat, workers: seq<Worker>)
    requires j < c.Workers() && |workers| == c.Workers()
    requires workers[0] == Computing(c, j + 1, 0)
    requires forall i | 0 < i < c.Workers() :: workers[i] == Moved(c, j, 0)[i]
    ensures workers == WorkersAt(c, j + 1)
  {
    hide Computing, Waiting;
    var b := WorkersAt(c, j + 1);
    forall i | 0 <= i < c.Workers() ensures workers[i] == b[i] {
    }
  }

  lemma {:induction false} ChunksUnderWay(c: Config, j: nat)
    requires Roomy(c) && j <= c.Workers()
    ensures exists t :: Leads(c, Init(c), t) && Between(c, t, j) && t.workers == WorkersAt(c, j)
  {
    hide Leads, WorkerAt;
    var s := Init(c);
    if j == 0 {
      Stay(c, s);
      NoneYet(c);
    } else {
      ChunksUnderWay(c, j - 1);
      var t :| Leads(c, s, t) && Between(c, t, j - 1) && t.workers == WorkersAt(c, j - 1);
      OneMoreChunk(c, t, j - 1);
      var u :| Leads(c, t, u) && Between(c, u, j) && u.workers == WorkersAt(c, j);
      LeadsOn(c, s, t, u);
    }
  }

  lemma NoneYet(c: Config)
    requires c.Ok()
    ensures Between(c, Init(c), 0) && Init(c).workers == WorkersAt(c, 0)
  {
  }

  // ------------------------------------------------------------------------------
  // Everybody computes
  // ------------------------------------------------------------------------------

  /** Worker k computes chunk `n - 1 - k` of `n` workers, and the coordinator chunk `n`. */
  ghost predicate AllBusy(c: Config, s: State)
    requires c.Ok()
  {
    && |s.workers| == c.Workers()
    && (forall k | 0 <= k < c.Workers() :: s.workers[k].eval == Running(c.first + (c.Workers() - 1 - k)))
    && s.producer == EvalLocal && s.submitted == c.Workers() && s.completed == 0
  }

  lemma {:induction false} RunOf(c: Config, s: State, steps: seq<Step>, t: State) returns (states: seq<State>)
    requires Follows(c, s, steps, t)
    ensures |states| == |steps| + 1 && states[0] == s && states[|steps|] == t && FailureFree(steps)
    ensures forall i | 0 <= i < |steps| :: Next(c, states[i], steps[i], states[i + 1])
    decreases steps
  {
    hide Enabled, Apply, Shaped, IsFailure;
    if steps == [] {
      states := [s];
    } else {
      var more := RunOf(c, Apply(c, s, steps[0]), steps[1..], t);
      states := [s] + more;
      forall i | 0 <= i < |steps| ensures Next(c, states[i], steps[i], states[i + 1]) {
        if 0 < i { assert Next(c, more[i - 1], steps[1..][i - 1], more[i]); }
      }
      forall i | 0 <= i < |steps| ensures !IsFailure(steps[i]) {
        if 0 < i { assert !IsFailure(steps[1..][i - 1]); }
      }
    }
  }

  lemma SomeRunIsBusy(c: Config)
    requires Roomy(c)
    ensures exists states, steps :: IsRun(c, states, steps) && FailureFree(steps) && AllBusy(c, states[|steps|])
  {
    hide Enabled, Apply, FailureFree;
    var n := c.Workers();
    ChunksUnderWay(c, n);
    var s :| Leads(c, Init(c), s) && Between(c, s, n) && s.workers == WorkersAt(c, n);
    BeginChunk(c, s, n);
    var t := s.(producer := EvalLocal);
    LeadsOn(c, Init(c), s, t);
    var steps :| Follows(c, Init(c), steps, t);
    var states := RunOf(c, Init(c), steps, t);
    assert IsRun(c, states, steps) && FailureFree(steps) && AllBusy(c, states[|steps|]);
  }

  /** As long as no result has come back, none was produced, and each worker still expects one for
      every chunk it has handed on. */
  lemma {:induction false} NoneTaken(c: Config, s: State, k: nat)
    requires c.Ok() && k < c.Workers() && AllBusy(c, s)
    requires forall i | k <= i < c.Workers() :: WorkerOk(c, i, s.workers[i], FedTo(s, i), DrainedFrom(s, i))
    ensures Results(c, k, s.workers[k]) == 0
    ensures k + 1 < c.Workers() ==> c.Workers() - 1 - k <= c.forwardWindow[k]
    decreases c.Workers() - k
  {
    var w := s.workers[k];
    assert w.eval == Running(c.first + (c.Workers() - 1 - k));
    if k + 1 < c.Workers() {
      NoneTaken(c, s, k + 1);
      assert w.passed.taken <= DrainedFrom(s, k + 1);
      assert |w.pending| == c.Workers() - 1 - k;
    }
  }

  lemma BusyNeedsRoom(c: Config, s: State)
    requires Inv(c, s) && Clean(s) && AllBusy(c, s)
    ensures Roomy(c)
  {
    hide FaultInv, WorkerOk, RingOk, Queue;
    forall i | 0 <= i < c.Workers() ensures WorkerOk(c, i, s.workers[i], FedTo(s, i), DrainedFrom(s, i)) {
      assert WorkerInv(c, s, i);
    }
    forall k | 0 <= k < c.Workers() ensures c.Workers() - 1 - k <= c.forwardWindow[k] {
      if k + 1 < c.Workers() {
        NoneTaken(c, s, k);
      }
    }
  }

  /** There is a run without failures in which all nodes compute at once, each a different chunk,
      exactly when there are more chunks than workers, the flow window is wider than the route is
      long, and each worker may have as many requests pending as there are workers behind it. */
  lemma EveryNodeCanBeBusy(c: Config)
    requires c.Ok()
    ensures Roomy(c) <==>
            exists states, steps :: IsRun(c, states, steps) && FailureFree(steps) && AllBusy(c, states[|steps|])
  {
    hide Roomy, AllBusy, FailureFree, Inv, Healthy, Clean;
    if Roomy(c) {
      SomeRunIsBusy(c);
    }
    forall states, steps | IsRun(c, states, steps) && FailureFree(steps) && AllBusy(c, states[|steps|])
      ensures Roomy(c)
    {
      RunKeepsInv(c, states, steps);
      FailureFreeStaysHealthy(c, states, steps, |steps|);
      HealthyIsClean(states[|steps|]);
      BusyNeedsRoom(c, states[|steps|]);
    }
  }

  lemma HealthyIsClean(s: State)
    requires Healthy(s)
    ensures Clean(s)
  {
  }
}
