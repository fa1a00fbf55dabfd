/** What holds over every run of coordinator and workers: an accepted result was computed by
    the workers on the route, on the coordinator's own tokens. */
module AcceptanceRuns {
  import opened Wrappers
  import opened TokenHash
  import opened WorkerSession
  import opened Acceptance

  ghost predicate IsStep(states: seq<State>, steps: seq<Step>, i: nat) {
    && i < |steps| && i + 1 < |states|
    && Enabled(states[i], steps[i]) && states[i + 1] == Apply(states[i], steps[i])
  }

  ghost predicate IsRun(states: seq<State>, steps: seq<Step>) {
    && |states| == |steps| + 1
    && states[0] == INITIAL
    && forall i: nat | i < |steps| :: IsStep(states, steps, i)
  }

  lemma {:induction false} RunKeepsInv(states: seq<State>, steps: seq<Step>, n: nat)
    requires IsRun(states, steps) && n <= |steps|
    ensures Inv(states[n])
  {
    if n == 0 {
      InitialInv();
    } else {
      RunKeepsInv(states, steps, n - 1);
      assert IsStep(states, steps, n - 1);
      StepKeepsInv(states[n - 1], steps[n - 1]);
    }
  }

  /** The process that the entry names evaluated chunk i of the attempt, on a timeline whose
      hash is the hash of the coordinator's own tokens before the chunk. */
  ghost predicate ChunkEvaluatedBy(s: State, a: Attempt, i: nat, entry: RouteEntry, e: Eval) {
    && a.HasChunk(i)
    && e in s.log && e.request == a.firstRequest + i && Named(s, e.proc, entry)
    && e.tokens == a.prompt[a.bounds[i]..a.bounds[i + 1]]
    && Matches(e.before, a.prompt[..a.bounds[i]])
  }

  ghost predicate ChunkEvaluatedAt(s: State, a: Attempt, i: nat, entry: RouteEntry) {
    exists e :: ChunkEvaluatedBy(s, a, i, entry, e)
  }

  /** ... and so at every entry of the route. */
  ghost predicate AcceptedSoundly(s: State, a: Attempt, i: nat) {
    forall j | 0 <= j < |a.route| :: ChunkEvaluatedAt(s, a, i, a.route[j])
  }

  ghost predicate AllSound(s: State, a: Attempt, chunks: nat) {
    forall i | 0 <= i < chunks :: AcceptedSoundly(s, a, i)
  }

  /** Acceptance safety. */
  lemma AcceptedMeansEvaluated(states: seq<State>, steps: seq<Step>, n: nat, i: nat)
    requires IsRun(states, steps) && n <= |steps|
    requires states[n].attempt.Some? && i < states[n].attempt.value.accepted
    ensures AcceptedSoundly(states[n], states[n].attempt.value, i)
  {
    hide UpdateSpan;
    RunKeepsInv(states, steps, n);
    var s := states[n];
    var a := s.attempt.value;
    assert ChunkIssued(s, a, i) && ChunkEvaluated(s, a, i);
    forall j | 0 <= j < |a.route|
      ensures ChunkEvaluatedAt(s, a, i, a.route[j])
    {
      assert Evaluated(s, a.firstRequest + i, a.route[j]);
      var e :| EvaluatedBy(s, a.firstRequest + i, a.route[j], e);
      assert ChunkEvaluatedBy(s, a, i, a.route[j], e);
    }
  }

  /** Results are accepted in order: the one accepted next is always chunk `accepted`, and
      its frame carries that chunk's own request id and hash. */
  lemma AcceptedInOrder(states: seq<State>, steps: seq<Step>, n: nat)
    requires IsRun(states, steps) && n < |steps| && steps[n].AcceptResult?
    ensures var before, after := states[n].attempt, states[n + 1].attempt;
      && before.Some? && after == Some(before.value.(accepted := before.value.accepted + 1))
      && steps[n].frame.request == before.value.firstRequest + before.value.accepted
      && before.value.accepted < before.value.sent
      && AllSound(states[n + 1], after.value, after.value.accepted)
  {
    RunKeepsInv(states, steps, n);
    assert IsStep(states, steps, n);
    ResultMeansEvaluated(states[n], steps[n].frame);
    var s' := states[n + 1];
    forall i | 0 <= i < s'.attempt.value.accepted
      ensures AcceptedSoundly(s', s'.attempt.value, i)
    {
      AcceptedMeansEvaluated(states, steps, n + 1, i);
    }
  }

  ghost predicate DifferAtMostAt(a: seq<Token>, b: seq<Token>, at: nat) {
    |a| == |b| && at < |a| && forall i | 0 <= i < |a| && i != at :: a[i] == b[i]
  }

  /** In particular nothing is ever evaluated on a live timeline that is too short, too long,
      or differs from the coordinator's in exactly one token. */
  lemma OneTokenDivergenceIsNeverEvaluated(states: seq<State>, steps: seq<Step>, n: nat, e: Eval)
    requires IsRun(states, steps) && n <= |steps| && e in states[n].log
    ensures e.request in states[n].issued
    ensures var history := states[n].issued[e.request].history;
      && (history != [] ==> |e.before| == |history|)
      && (forall at: nat | DifferAtMostAt(e.before, history, at) :: e.before == history)
  {
    hide UpdateSpan;
    RunKeepsInv(states, steps, n);
    assert EvalOk(states[n], e);
    var history := states[n].issued[e.request].history;
    forall at: nat | DifferAtMostAt(e.before, history, at)
      ensures e.before == history
    {
      if e.before[at] != history[at] {
        OneTokenDiffers(e.before, history, at);
      }
    }
  }

  ghost predicate OneStep(s: State, step: Step, s': State) {
    Enabled(s, step) && s' == Apply(s, step)
  }

  const LAST_LAYER := Layers(1, 1)
  const HERE := Address("worker", 1)
  const TO_WORKER := Conn(Coordinator, 0, 0)
  const SMALLEST_ROUTE := [RouteEntry(HERE, LAST_LAYER, true)]

  /** One worker holding the last of two layers, and a prompt of one token. */
  ghost predicate Smallest(token: Token, config: WorkerConfig, a: Attempt) {
    && config == WorkerConfig(0, LAST_LAYER, true, 8, 2, token + 1)
    && a == Attempt(TO_WORKER, 1, SMALLEST_ROUTE, [token], [0, 1], true, 1, 0, 0)
  }

  lemma RunSends(token: Token, config: WorkerConfig, a: Attempt, s2: State) returns (s3: State, s4: State)
    requires Smallest(token, config, a)
    requires s2 == INITIAL.(procs := s2.procs) && Listens(s2, 0, HERE)
    ensures OneStep(s2, BeginAttempt(a, 0, 1), s3) && OneStep(s3, SendChunk(0), s4)
    ensures s4.procs == s2.procs && s4.attempt == Some(a.(sent := 1))
    ensures WorkFrame(TO_WORKER, 1, 0) in s4.works
    ensures 1 in s4.issued && s4.issued[1] == Issue(0, 1, [], [token], INIT, Prefix([token]), true, false, a.route)
  {
    hide UpdateSpan, ChunkBounds;
    OneChunk(token);
    s3 := s2.(attempt := Some(a));
    assert a.HasChunk(0);
    s4 := AfterSend(s3, a, 0);
  }

  lemma StartsFirst(config: WorkerConfig, s: State)
    requires s == INITIAL.(procs := map[0 := Proc(HERE, config, map[])])
    ensures OneStep(INITIAL, StartProcess(0, HERE, config), s) && Listens(s, 0, HERE)
  {
  }

  lemma RunAccepts(token: Token, config: WorkerConfig, a: Attempt, s3: State) returns (s4: State, s5: State)
    requires Smallest(token, config, a)
    requires s3.procs == map[0 := Proc(HERE, config, map[])] && s3.attempt == Some(a.(sent := 1))
    requires WorkFrame(TO_WORKER, 1, 0) in s3.works
    requires 1 in s3.issued && s3.issued[1] == Issue(0, 1, [], [token], INIT, Prefix([token]), true, false, a.route)
    ensures OneStep(s3, HandleWork(WorkFrame(TO_WORKER, 1, 0), Engine(true, true, true, true, true), Conn(Process(0), 0, 0)), s4)
    ensures OneStep(s4, AcceptResult(ResultFrame(TO_WORKER, 1, Prefix([token]), true)), s5)
    ensures s5.attempt == Some(a.(sent := 1, accepted := 1))
  {
    hide UpdateSpan, ChunkBounds, Handled, AfterEval;
    OneChunk(token);
    var frame, engine, down := WorkFrame(TO_WORKER, 1, 0), Engine(true, true, true, true, true), Conn(Process(0), 0, 0);
    FirstChunkIsDone(s3, frame, engine, config, token);
    var after := AfterSession(s3, 0, 1, Handled(s3, frame, engine).0);
    LastResult(after, frame, Eval(0, 1, [], [token]), down);
    s4 := AfterEval(after, frame, Eval(0, 1, [], [token]), down);
    assert a.(sent := 1).HasChunk(0);
    s5 := s4.(attempt := Some(a.(sent := 1, accepted := 1)));
  }

  /** There are runs that accept. */
  lemma SomeRunAccepts(token: Token) returns (states: seq<State>, steps: seq<Step>)
    ensures IsRun(states, steps) && states[|steps|].attempt.Some? && states[|steps|].attempt.value.accepted == 1
  {
    hide UpdateSpan, Enabled, Apply, ChunkBounds;
    var config := WorkerConfig(0, LAST_LAYER, true, 8, 2, token + 1);
    var a := Attempt(TO_WORKER, 1, SMALLEST_ROUTE, [token], [0, 1], true, 1, 0, 0);
    var s1 := INITIAL.(procs := map[0 := Proc(HERE, config, map[])]);
    StartsFirst(config, s1);
    var s2, s3 := RunSends(token, config, a, s1);
    var s4, s5 := RunAccepts(token, config, a, s3);
    steps := [StartProcess(0, HERE, config), BeginAttempt(a, 0, 1), SendChunk(0),
              HandleWork(WorkFrame(TO_WORKER, 1, 0), Engine(true, true, true, true, true), Conn(Process(0), 0, 0)),
              AcceptResult(ResultFrame(TO_WORKER, 1, Prefix([token]), true))];
    states := [INITIAL, s1, s2, s3, s4, s5];
    assert IsStep(states, steps, 0) && IsStep(states, steps, 1) && IsStep(states, steps, 2);
    assert IsStep(states, steps, 3) && IsStep(states, steps, 4);
  }

  /** There are runs in which a failed reset leaves a worker with a dishonest hash; the results
      above hold for them all the same. */
  lemma SomeRunBreaksAHash(token: Token) returns (states: seq<State>, steps: seq<Step>)
    ensures IsRun(states, steps)
    ensures 0 in states[|steps|].procs && 1 in states[|steps|].procs[0].sessions
    ensures !HashHonest(states[|steps|].procs[0].sessions[1])
  {
    hide UpdateSpan, ChunkBounds, Enabled, Apply;
    OneTokenDiffers([7], [8], 0);
    var t: Token := if Prefix([7]) != INIT then 7 else 8;
    var config := WorkerConfig(0, LAST_LAYER, true, 8, 2, token + 1);
    var a := Attempt(TO_WORKER, 1, SMALLEST_ROUTE, [token], [0, 1], true, 1, 0, 0);
    var s1, s2 := RunLoads(t, config);
    var s3, s4 := RunSends(token, config, a, s2);
    var s5 := RunFailsReset(token, t, config, a, s4);
    steps := [StartProcess(0, HERE, config), LoadShard(0, 1, [t], Prefix([t]), Engine(true, true, true, true, true)),
              BeginAttempt(a, 0, 1), SendChunk(0),
              HandleWork(WorkFrame(TO_WORKER, 1, 0), Engine(true, true, false, false, false), Conn(Process(0), 0, 0))];
    states := [INITIAL, s1, s2, s3, s4, s5];
    assert IsStep(states, steps, 0) && IsStep(states, steps, 1) && IsStep(states, steps, 2);
    assert IsStep(states, steps, 3) && IsStep(states, steps, 4);
  }

  lemma RunLoads(t: Token, config: WorkerConfig) returns (s1: State, s2: State)
    ensures OneStep(INITIAL, StartProcess(0, HERE, config), s1)
    ensures OneStep(s1, LoadShard(0, 1, [t], Prefix([t]), Engine(true, true, true, true, true)), s2)
    ensures s2 == INITIAL.(procs := map[0 := Proc(HERE, config, map[1 := Session([t], true, Prefix([t]), true)])])
  {
    hide UpdateSpan;
    s1 := INITIAL.(procs := map[0 := Proc(HERE, config, map[])]);
    s2 := AfterSession(s1, 0, 1, Session([t], true, Prefix([t]), true));
  }

  lemma RunFailsReset(token: Token, t: Token, config: WorkerConfig, a: Attempt, s4: State) returns (s5: State)
    requires Smallest(token, config, a) && Prefix([t]) != INIT
    requires s4.procs == map[0 := Proc(HERE, config, map[1 := Session([t], true, Prefix([t]), true)])]
    requires WorkFrame(TO_WORKER, 1, 0) in s4.works
    requires 1 in s4.issued && s4.issued[1] == Issue(0, 1, [], [token], INIT, Prefix([token]), true, false, a.route)
    ensures OneStep(s4, HandleWork(WorkFrame(TO_WORKER, 1, 0), Engine(true, true, false, false, false), Conn(Process(0), 0, 0)), s5)
    ensures 0 in s5.procs && 1 in s5.procs[0].sessions && !HashHonest(s5.procs[0].sessions[1])
  {
    hide UpdateSpan, Handled, AfterEval;
    var frame, failing := WorkFrame(TO_WORKER, 1, 0), Engine(true, true, false, false, false);
    ResetIsTried(s4, frame, failing, config, token);
    OneChunk(token);
    s5 := AfterRefusal(AfterSession(s4, 0, 1, Handled(s4, frame, failing).0), frame);
  }

  lemma ResetIsTried(s: State, f: WorkFrame, engine: Engine, config: WorkerConfig, token: Token)
    requires f.request in s.issued && f.conn.dst in s.procs && f.index == 0 && !engine.resetOk
    requires s.procs[f.conn.dst].config == config == WorkerConfig(0, LAST_LAYER, true, 8, 2, token + 1)
    requires s.issued[f.request] == Issue(0, 1, [], [token], INIT, Prefix([token]), true, false, SMALLEST_ROUTE)
    ensures Handled(s, f, engine) == (Invalidated(Lookup(s.procs[f.conn.dst].sessions, 1)), Rejected(ResetFailed))
  {
    hide UpdateSpan;
    OneChunk(token);
  }

  lemma FirstChunkIsDone(s: State, f: WorkFrame, engine: Engine, config: WorkerConfig, token: Token)
    requires f.request in s.issued && f.conn.dst in s.procs && f.index == 0
    requires s.procs[f.conn.dst] == Proc(HERE, config, map[]) && config == WorkerConfig(0, LAST_LAYER, true, 8, 2, token + 1)
    requires s.issued[f.request] == Issue(0, 1, [], [token], INIT, Prefix([token]), true, false, SMALLEST_ROUTE)
    requires engine.resetOk && engine.evalOk
    ensures Handled(s, f, engine).1.Done?
  {
    hide UpdateSpan;
    OneChunk(token);
  }

  lemma LastResult(s: State, f: WorkFrame, e: Eval, down: Conn)
    requires f.request in s.issued && |s.issued[f.request].route| == f.index + 1
    ensures AfterEval(s, f, e, down) ==
            s.(log := s.log + {e}, results := s.results + {ResultFrame(f.conn, f.request, s.issued[f.request].resultHash, true)})
  {
  }

  lemma OneChunk(token: Token)
    ensures ChunkBounds(0, 1, 1) == [0, 1]
    ensures [token][..0] == [] && [token][0..1] == [token] && [token][..1] == [token]
    ensures Prefix([]) == INIT && UpdateSpan(INIT, [token]) == Prefix([token])
  {
    hide Update;
    assert ChunkBounds(1, 1, 1) == [1];
  }
}
