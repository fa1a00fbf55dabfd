/** Acceptance is not empty: on every route whose processes match its entries, every prompt can
    be carried through in every chunking, from scratch or from a loaded snapshot. */
module AcceptanceProgress {
  import opened Wrappers
  import opened TokenHash
  import opened WorkerSession
  import opened Acceptance
  import opened AcceptanceRuns

  // ------------------------------------------------------------------------------
  // Paths of steps
  // ------------------------------------------------------------------------------

  ghost predicate Path(s: State, steps: seq<Step>, t: State)
    decreases |steps|
  {
    if steps == [] then t == s else Enabled(s, steps[0]) && Path(Apply(s, steps[0]), steps[1..], t)
  }

  lemma OnePath(s: State, step: Step)
    requires Enabled(s, step)
    ensures Path(s, [step], Apply(s, step))
  {
    hide Enabled, Apply;
    assert [step][1..] == [];
  }

  lemma {:induction false} PathThen(s: State, a: seq<Step>, t: State, b: seq<Step>, u: State)
    requires Path(s, a, t) && Path(t, b, u)
    ensures Path(s, a + b, u)
    decreases |a|
  {
    hide Enabled, Apply;
    if a == [] {
      assert a + b == b;
    } else {
      assert (a + b)[1..] == a[1..] + b;
      PathThen(Apply(s, a[0]), a[1..], t, b, u);
    }
  }

  lemma {:induction false} PathStates(s: State, steps: seq<Step>, t: State) returns (states: seq<State>)
    requires Path(s, steps, t)
    ensures |states| == |steps| + 1 && states[0] == s && states[|steps|] == t
    ensures forall i: nat | i < |steps| :: IsStep(states, steps, i)
    decreases |steps|
  {
    hide Enabled, Apply;
    if steps == [] {
      states := [s];
    } else {
      var rest := PathStates(Apply(s, steps[0]), steps[1..], t);
      states := [s] + rest;
      forall i: nat | i < |steps| ensures IsStep(states, steps, i) {
        if 0 < i {
          assert IsStep(rest, steps[1..], i - 1);
        }
      }
    }
  }

  // ------------------------------------------------------------------------------
  // Routes and the processes on them
  // ------------------------------------------------------------------------------

  const WORKING := Engine(true, true, true, true, true)

  /** Worker processes made for the route: process j listens where entry j says. */
  ghost predicate Fit(route: seq<RouteEntry>, configs: seq<WorkerConfig>, modelId: nat, prompt: seq<Token>) {
    && |configs| == |route| && Rising(route)
    && forall j | 0 <= j < |route| ::
         && configs[j].modelId == modelId && configs[j].layers == route[j].layers && 0 < route[j].layers.first
         && |prompt| <= configs[j].ctxSize && (forall t | t in prompt :: t < configs[j].vocab)
         && (route[j].outputLogits ==>
               j + 1 == |route| && configs[j].hasOutput && route[j].layers.last + 1 == configs[j].nLayers)
  }

  /** The connection that leads to process j. */
  function Link(j: nat): Conn {
    if j == 0 then Conn(Coordinator, 0, 0) else Conn(Process(j - 1), j, 0)
  }

  function Live(tokens: seq<Token>): Session {
    Session(tokens, true, Prefix(tokens), true)
  }

  ghost predicate Runs(s: State, j: nat, entry: RouteEntry, config: WorkerConfig) {
    j in s.procs && s.procs[j].address == entry.address && s.procs[j].config == config
  }

  ghost predicate Holds(s: State, j: nat, session: SessionId, tokens: seq<Token>) {
    j in s.procs && session in s.procs[j].sessions && s.procs[j].sessions[session] == Live(tokens)
  }

  /** All processes run; the first k have gone on to `after`, the others, unless they are going
      to be reset, are still at `before`. */
  ghost predicate Stand(s: State, route: seq<RouteEntry>, configs: seq<WorkerConfig>, session: SessionId,
                        k: nat, after: seq<Token>, before: seq<Token>, reset: bool) {
    && |configs| == |route|
    && (forall j | 0 <= j < |route| :: Runs(s, j, route[j], configs[j]))
    && (forall j | 0 <= j < |route| && j < k :: Holds(s, j, session, after))
    && (reset || forall j | 0 <= j < |route| && k <= j :: Holds(s, j, session, before))
  }

  // ------------------------------------------------------------------------------
  // One chunk
  // ------------------------------------------------------------------------------

  /** The frame for process j passes its checks and is evaluated. */
  lemma ChunkIsCarriedOut(s: State, route: seq<RouteEntry>, configs: seq<WorkerConfig>, a: Attempt, modelId: nat, i: nat, j: nat)
    requires Fit(route, configs, modelId, a.prompt) && a.route == route && a.HasChunk(i) && a.Ok()
    requires Stand(s, route, configs, a.session, j, a.prompt[..a.bounds[i + 1]], a.prompt[..a.bounds[i]], a.reset && i == 0)
    requires j < |route| && a.firstRequest + i in s.issued && s.issued[a.firstRequest + i] == a.IssueOf(modelId, i)
    ensures Addressed(s, WorkFrame(Link(j), a.firstRequest + i, j))
    ensures Handled(s, WorkFrame(Link(j), a.firstRequest + i, j), WORKING) == (Live(a.prompt[..a.bounds[i + 1]]), Done)
  {
    hide UpdateSpan, Screen, Execute, IsBounds, Rising;
    var f := WorkFrame(Link(j), a.firstRequest + i, j);
    assert Runs(s, j, route[j], configs[j]);
    assert j == Link(j).dst;
    var w := Decoded(s, f);
    var before, tokens := a.prompt[..a.bounds[i]], a.prompt[a.bounds[i]..a.bounds[i + 1]];
    assert before + tokens == a.prompt[..a.bounds[i + 1]];
    SpansCompose(INIT, before, tokens);
    ChunkIsNotEmpty(a, i);
    PartBelow(a.prompt, a.bounds[i], a.bounds[i + 1], tokens, configs[j].vocab);
    ScreenExactly(configs[j], w);
    var session := Lookup(s.procs[j].sessions, a.session);
    GoodFrameIsCarriedOut(session, w, WORKING);
    if a.reset && i == 0 {
      assert before == [] && tokens == a.prompt[..a.bounds[i + 1]];
      StartHash();
    } else {
      assert Holds(s, j, a.session, before);
    }
  }

  lemma ChunkIsNotEmpty(a: Attempt, i: nat)
    requires a.Ok() && a.HasChunk(i)
    ensures a.bounds[i] < a.bounds[i + 1] && (a.reset ==> a.bounds[0] == 0)
  {
  }

  lemma PartBelow(all: seq<Token>, lo: nat, hi: nat, part: seq<Token>, vocab: nat)
    requires lo <= hi <= |all| && part == all[lo..hi]
    requires forall t | t in all :: t < vocab
    ensures forall t | t in part :: t < vocab
  {
    forall t | t in part ensures t < vocab {
      assert t in all;
    }
  }

  lemma StartHash()
    ensures Prefix([]) == INIT
  {
  }

  /** What a chunk leaves untouched while it is under way. */
  ghost predicate Keeps(s: State, t: State) {
    && t.attempt == s.attempt && t.issued == s.issued && t.nextRequest == s.nextRequest
    && s.pendings <= t.pendings && s.results <= t.results
  }

  /** How far a chunk has come down the route. */
  ghost predicate Down(s: State, route: seq<RouteEntry>, request: nat, hash: Hash, k: nat)
    requires route != []
  {
    && (forall j | 0 <= j < k && j + 1 < |route| :: Pending(Link(j), Link(j + 1), request) in s.pendings)
    && (if k < |route| then WorkFrame(Link(k), request, k) in s.works
        else ResultFrame(Link(|route| - 1), request, hash, true) in s.results)
  }

  lemma HandleNext(s: State, route: seq<RouteEntry>, configs: seq<WorkerConfig>, a: Attempt, modelId: nat, i: nat, j: nat)
    returns (step: Step, t: State)
    requires Fit(route, configs, modelId, a.prompt) && a.route == route && a.HasChunk(i) && a.Ok()
    requires Stand(s, route, configs, a.session, j, a.prompt[..a.bounds[i + 1]], a.prompt[..a.bounds[i]], a.reset && i == 0)
    requires j < |route| && a.firstRequest + i in s.issued && s.issued[a.firstRequest + i] == a.IssueOf(modelId, i)
    requires Down(s, route, a.firstRequest + i, Prefix(a.prompt[..a.bounds[i + 1]]), j)
    ensures Enabled(s, step) && t == Apply(s, step) && Keeps(s, t)
    ensures Stand(t, route, configs, a.session, j + 1, a.prompt[..a.bounds[i + 1]], a.prompt[..a.bounds[i]], a.reset && i == 0)
    ensures Down(t, route, a.firstRequest + i, Prefix(a.prompt[..a.bounds[i + 1]]), j + 1)
  {
    hide UpdateSpan, Handled, Fit, IsBounds, Rising;
    var request := a.firstRequest + i;
    var f := WorkFrame(Link(j), request, j);
    ChunkIsCarriedOut(s, route, configs, a, modelId, i, j);
    step := HandleWork(f, WORKING, Link(j + 1));
    if j + 1 < |route| { assert Runs(s, j + 1, route[j + 1], configs[j + 1]); }
    assert Enabled(s, step);
    t := Apply(s, step);
    var after := AfterSession(s, j, a.session, Live(a.prompt[..a.bounds[i + 1]]));
    HandledStand(s, after, route, configs, a.session, j, a.prompt[..a.bounds[i + 1]], a.prompt[..a.bounds[i]], a.reset && i == 0);
    SameStand(after, t, route, configs, a.session, j + 1, a.prompt[..a.bounds[i + 1]], a.prompt[..a.bounds[i]], a.reset && i == 0);
  }

  lemma HandledStand(s: State, t: State, route: seq<RouteEntry>, configs: seq<WorkerConfig>, session: SessionId,
                     j: nat, after: seq<Token>, before: seq<Token>, reset: bool)
    requires Stand(s, route, configs, session, j, after, before, reset) && j < |route| && j in s.procs
    requires t == AfterSession(s, j, session, Live(after))
    ensures Stand(t, route, configs, session, j + 1, after, before, reset)
  {
    hide UpdateSpan;
    forall m | 0 <= m < |route| ensures Runs(t, m, route[m], configs[m]) {
      assert Runs(s, m, route[m], configs[m]);
    }
    forall m | 0 <= m < |route| && m < j + 1 ensures Holds(t, m, session, after) {
      if m < j { assert Holds(s, m, session, after); }
    }
    if !reset {
      forall m | 0 <= m < |route| && j + 1 <= m ensures Holds(t, m, session, before) {
        assert Holds(s, m, session, before);
      }
    }
  }

  lemma SameStand(s: State, t: State, route: seq<RouteEntry>, configs: seq<WorkerConfig>, session: SessionId,
                  k: nat, after: seq<Token>, before: seq<Token>, reset: bool)
    requires Stand(s, route, configs, session, k, after, before, reset) && t.procs == s.procs
    ensures Stand(t, route, configs, session, k, after, before, reset)
  {
    hide UpdateSpan;
    forall m | 0 <= m < |route| ensures Runs(t, m, route[m], configs[m]) {
      assert Runs(s, m, route[m], configs[m]);
    }
    forall m | 0 <= m < |route| && m < k ensures Holds(t, m, session, after) {
      assert Holds(s, m, session, after);
    }
    if !reset {
      forall m | 0 <= m < |route| && k <= m ensures Holds(t, m, session, before) {
        assert Holds(s, m, session, before);
      }
    }
  }

  /** The chunk goes down the whole route. */
  lemma {:induction false} GoDown(s: State, route: seq<RouteEntry>, configs: seq<WorkerConfig>, a: Attempt, modelId: nat, i: nat, j: nat)
    returns (steps: seq<Step>, t: State)
    requires Fit(route, configs, modelId, a.prompt) && a.route == route != [] && a.HasChunk(i) && a.Ok()
    requires Stand(s, route, configs, a.session, j, a.prompt[..a.bounds[i + 1]], a.prompt[..a.bounds[i]], a.reset && i == 0)
    requires j <= |route| && a.firstRequest + i in s.issued && s.issued[a.firstRequest + i] == a.IssueOf(modelId, i)
    requires Down(s, route, a.firstRequest + i, Prefix(a.prompt[..a.bounds[i + 1]]), j)
    ensures Path(s, steps, t) && Keeps(s, t)
    ensures Stand(t, route, configs, a.session, |route|, a.prompt[..a.bounds[i + 1]], a.prompt[..a.bounds[i]], a.reset && i == 0)
    ensures Down(t, route, a.firstRequest + i, Prefix(a.prompt[..a.bounds[i + 1]]), |route|)
    decreases |route| - j
  {
    hide UpdateSpan, Fit, Stand, Down, Enabled, Apply, IsBounds, Rising;
    if j == |route| {
      steps, t := [], s;
    } else {
      var step, u := HandleNext(s, route, configs, a, modelId, i, j);
      var more: seq<Step>;
      more, t := GoDown(u, route, configs, a, modelId, i, j + 1);
      OnePath(s, step);
      PathThen(s, [step], u, more, t);
      steps := [step] + more;
    }
  }

  /** The result comes back up to the coordinator. */
  lemma {:induction false} ComeUp(s: State, route: seq<RouteEntry>, request: nat, hash: Hash, k: nat)
    returns (steps: seq<Step>, t: State)
    requires k < |route|
    requires forall j | 0 <= j < k :: Pending(Link(j), Link(j + 1), request) in s.pendings
    requires ResultFrame(Link(k), request, hash, true) in s.results
    ensures Path(s, steps, t) && Keeps(s, t) && t.procs == s.procs
    ensures ResultFrame(Link(0), request, hash, true) in t.results
    decreases k
  {
    if k == 0 {
      steps, t := [], s;
    } else {
      var p, f := Pending(Link(k - 1), Link(k), request), ResultFrame(Link(k), request, hash, true);
      assert Pending(Link(k - 1), Link(k - 1 + 1), request) in s.pendings;
      var step := RelayResult(p, f);
      var u := s.(results := s.results + {f.(conn := p.up)});
      OnePath(s, step);
      var more: seq<Step>;
      more, t := ComeUp(u, route, request, hash, k - 1);
      PathThen(s, [step], u, more, t);
      steps := [step] + more;
    }
  }

  /** Everything before chunk i is done. */
  ghost predicate Ready(s: State, route: seq<RouteEntry>, configs: seq<WorkerConfig>, a: Attempt, i: nat) {
    && i < |a.bounds| && a.bounds[i] <= |a.prompt|
    && s.attempt == Some(a.(sent := i, accepted := i)) && s.nextRequest == a.firstRequest + i
    && Stand(s, route, configs, a.session, 0, [], a.prompt[..a.bounds[i]], a.reset && i == 0)
  }

  lemma DoneStand(s: State, route: seq<RouteEntry>, configs: seq<WorkerConfig>, session: SessionId,
                  after: seq<Token>, before: seq<Token>, reset: bool)
    requires Stand(s, route, configs, session, |route|, after, before, reset)
    ensures Stand(s, route, configs, session, 0, [], after, false)
  {
  }

  lemma StandFromStart(s: State, route: seq<RouteEntry>, configs: seq<WorkerConfig>, session: SessionId,
                       after: seq<Token>, before: seq<Token>, reset: bool)
    requires Stand(s, route, configs, session, 0, [], before, reset)
    ensures Stand(s, route, configs, session, 0, after, before, reset)
  {
  }

  /** One more chunk is sent, evaluated at every entry, and accepted. */
  lemma ChunkIsAccepted(s: State, route: seq<RouteEntry>, configs: seq<WorkerConfig>, a: Attempt, modelId: nat, i: nat)
    returns (steps: seq<Step>, t: State)
    requires Fit(route, configs, modelId, a.prompt) && a.route == route != [] && a.Ok() && a.conn == Link(0) && a.sent == a.accepted == 0
    requires a.HasChunk(i) && Ready(s, route, configs, a, i)
    ensures Path(s, steps, t) && Ready(t, route, configs, a, i + 1)
  {
    hide UpdateSpan, Fit, Stand, Path, IsBounds, Rising;
    var now := a.(sent := i, accepted := i);
    var request, after, before := a.firstRequest + i, a.prompt[..a.bounds[i + 1]], a.prompt[..a.bounds[i]];
    var sent := AfterSend(s, now, modelId);
    assert Enabled(s, SendChunk(modelId)) && Apply(s, SendChunk(modelId)) == sent;
    OnePath(s, SendChunk(modelId));
    assert now.IssueOf(modelId, i) == a.IssueOf(modelId, i);
    StandFromStart(s, route, configs, a.session, after, before, a.reset && i == 0);
    SameStand(s, sent, route, configs, a.session, 0, after, before, a.reset && i == 0);
    var down, bottom := GoDown(sent, route, configs, a, modelId, i, 0);
    var up, top := ComeUp(bottom, route, request, Prefix(after), |route| - 1);
    var f := ResultFrame(Link(0), request, Prefix(after), true);
    t := top.(attempt := Some(a.(sent := i + 1, accepted := i + 1)));
    assert Enabled(top, AcceptResult(f)) && Apply(top, AcceptResult(f)) == t;
    OnePath(top, AcceptResult(f));
    PathThen(s, [SendChunk(modelId)], sent, down, bottom);
    PathThen(s, [SendChunk(modelId)] + down, bottom, up, top);
    PathThen(s, [SendChunk(modelId)] + down + up, top, [AcceptResult(f)], t);
    steps := [SendChunk(modelId)] + down + up + [AcceptResult(f)];
    SameStand(bottom, t, route, configs, a.session, |route|, after, before, a.reset && i == 0);
    DoneStand(t, route, configs, a.session, after, before, a.reset && i == 0);
  }

  lemma {:induction false} AllChunks(s: State, route: seq<RouteEntry>, configs: seq<WorkerConfig>, a: Attempt, modelId: nat, i: nat)
    returns (steps: seq<Step>, t: State)
    requires Fit(route, configs, modelId, a.prompt) && a.route == route != [] && a.Ok() && a.conn == Link(0) && a.sent == a.accepted == 0
    requires Ready(s, route, configs, a, i)
    ensures Path(s, steps, t) && t.attempt == Some(a.(sent := |a.bounds| - 1, accepted := |a.bounds| - 1))
    decreases |a.bounds| - i
  {
    hide UpdateSpan, Fit, Stand, Path, Rising;
    if i + 1 == |a.bounds| {
      NoSteps(s);
      steps, t := [], s;
    } else {
      var first, u := ChunkIsAccepted(s, route, configs, a, modelId, i);
      var more: seq<Step>;
      more, t := AllChunks(u, route, configs, a, modelId, i + 1);
      PathThen(s, first, u, more, t);
      steps := first + more;
    }
  }

  lemma NoSteps(s: State)
    ensures Path(s, [], s)
  {
  }

  // ------------------------------------------------------------------------------
  // Getting started
  // ------------------------------------------------------------------------------

  /** The first k processes of the route run, and the first m of them hold a loaded session. */
  ghost predicate Started(s: State, route: seq<RouteEntry>, configs: seq<WorkerConfig>, session: SessionId, k: nat, m: nat, tokens: seq<Token>) {
    && s == INITIAL.(procs := s.procs) && |configs| == |route|
    && (forall j | 0 <= j < |route| && j < k :: Runs(s, j, route[j], configs[j]))
    && (forall id | k <= id :: id !in s.procs)
    && (forall j | 0 <= j < m :: Holds(s, j, session, tokens))
  }

  lemma {:induction false} StartAll(route: seq<RouteEntry>, configs: seq<WorkerConfig>, session: SessionId, k: nat)
    returns (steps: seq<Step>, t: State)
    requires |configs| == |route| && k <= |route|
    ensures Path(INITIAL, steps, t) && Started(t, route, configs, session, k, 0, [])
  {
    hide UpdateSpan;
    if k == 0 {
      steps, t := [], INITIAL;
    } else {
      var before, u := StartAll(route, configs, session, k - 1);
      var step := StartProcess(k - 1, route[k - 1].address, configs[k - 1]);
      t := u.(procs := u.procs[k - 1 := Proc(route[k - 1].address, configs[k - 1], map[])]);
      OnePath(u, step);
      PathThen(INITIAL, before, u, [step], t);
      steps := before + [step];
      forall j | 0 <= j < |route| && j < k ensures Runs(t, j, route[j], configs[j]) {
        if j < k - 1 { assert Runs(u, j, route[j], configs[j]); }
      }
    }
  }

  lemma {:induction false} LoadAll(s: State, route: seq<RouteEntry>, configs: seq<WorkerConfig>, session: SessionId, m: nat, tokens: seq<Token>)
    returns (steps: seq<Step>, t: State)
    requires Started(s, route, configs, session, |route|, 0, tokens) && m <= |route|
    ensures Path(s, steps, t) && Started(t, route, configs, session, |route|, m, tokens)
  {
    hide UpdateSpan;
    if m == 0 {
      steps, t := [], s;
    } else {
      var before, u := LoadAll(s, route, configs, session, m - 1, tokens);
      assert Runs(u, m - 1, route[m - 1], configs[m - 1]);
      var step := LoadShard(m - 1, session, tokens, Prefix(tokens), WORKING);
      t := AfterSession(u, m - 1, session, Live(tokens));
      OnePath(u, step);
      PathThen(s, before, u, [step], t);
      steps := before + [step];
      forall j | 0 <= j < |route| ensures Runs(t, j, route[j], configs[j]) {
        assert Runs(u, j, route[j], configs[j]);
      }
      forall j | 0 <= j < m ensures Holds(t, j, session, tokens) {
        if j < m - 1 { assert Holds(u, j, session, tokens); }
      }
    }
  }

  lemma StartedStand(s: State, t: State, route: seq<RouteEntry>, configs: seq<WorkerConfig>, session: SessionId, m: nat, tokens: seq<Token>)
    requires Started(s, route, configs, session, |route|, m, tokens) && t.procs == s.procs
    ensures Stand(t, route, configs, session, 0, [], tokens, m < |route|)
  {
    hide UpdateSpan;
    forall j | 0 <= j < |route| ensures Runs(t, j, route[j], configs[j]) {
      assert Runs(s, j, route[j], configs[j]);
    }
    if |route| <= m {
      forall j | 0 <= j < |route| ensures Holds(t, j, session, tokens) {
        assert Holds(s, j, session, tokens);
      }
    }
  }

  /** For every route, processes made for it, prompt and chunk size, from the start with a reset
      or from any position behind a loaded snapshot: some run accepts every chunk. */
  lemma EveryChunkCanBeAccepted(route: seq<RouteEntry>, configs: seq<WorkerConfig>, modelId: nat, session: SessionId,
                                prompt: seq<Token>, start: nat, cap: nat, reset: bool)
    returns (states: seq<State>, steps: seq<Step>)
    requires route != [] && Fit(route, configs, modelId, prompt)
    requires 0 < cap && start < |prompt| && (reset ==> start == 0)
    ensures IsRun(states, steps) && states[|steps|].attempt.Some?
    ensures var a := states[|steps|].attempt.value;
      && a.route == route && a.prompt == prompt && a.session == session && a.reset == reset
      && a.bounds == ChunkBounds(start, |prompt|, cap) && a.accepted == |a.bounds| - 1
  {
    hide UpdateSpan, Path, ChunkBounds, Stand, Holds, IsRun;
    var bounds := ChunkBounds(start, |prompt|, cap);
    ChunkBoundsAreBounds(start, |prompt|, cap);
    var a := Attempt(Link(0), session, route, prompt, bounds, reset, 1, 0, 0);
    var begin, idle := StartAll(route, configs, session, |route|);
    NothingLoaded(idle, route, configs, session, |route|, prompt[..start]);
    var load, loaded := LoadAll(idle, route, configs, session, if reset then 0 else |route|, prompt[..start]);
    var ready := loaded.(attempt := Some(a));
    var step := BeginAttempt(a, start, cap);
    FirstHopRuns(loaded, route, configs, session, if reset then 0 else |route|, prompt[..start]);
    assert Enabled(loaded, step) && Apply(loaded, step) == ready;
    OnePath(loaded, step);
    StartedStand(loaded, ready, route, configs, session, if reset then 0 else |route|, prompt[..start]);
    var more, t := AllChunks(ready, route, configs, a, modelId, 0);
    PathThen(INITIAL, begin, idle, load, loaded);
    PathThen(INITIAL, begin + load, loaded, [step], ready);
    PathThen(INITIAL, begin + load + [step], ready, more, t);
    steps := begin + load + [step] + more;
    states := PathStates(INITIAL, steps, t);
    StatesAreRun(states, steps);
  }

  lemma NothingLoaded(s: State, route: seq<RouteEntry>, configs: seq<WorkerConfig>, session: SessionId, k: nat, tokens: seq<Token>)
    requires Started(s, route, configs, session, k, 0, [])
    ensures Started(s, route, configs, session, k, 0, tokens)
  {
  }

  lemma FirstHopRuns(s: State, route: seq<RouteEntry>, configs: seq<WorkerConfig>, session: SessionId, m: nat, tokens: seq<Token>)
    requires Started(s, route, configs, session, |route|, m, tokens) && route != []
    ensures Listens(s, 0, route[0].address) && s.nextRequest == 1
  {
    assert Runs(s, 0, route[0], configs[0]);
  }

  lemma StatesAreRun(states: seq<State>, steps: seq<Step>)
    requires |states| == |steps| + 1 && states[0] == INITIAL
    requires forall i: nat | i < |steps| :: IsStep(states, steps, i)
    ensures IsRun(states, steps)
  {
  }
}
